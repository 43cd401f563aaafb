/** Limits, error codes and service names of the app channel (protocol/mvcp.go). */
module AppLimits {
  import opened Basics

  const AppInitialWindow: int := 262144
  const AppMaxCredit: int := 1048576
  const AppMaxStreams: int := 64
  const AppMaxMetaBytes: int := 1024
  const AppMaxDataBytes: int := 65536
  const AppMaxSendQueue: int := 1048576
  const AppMaxBuffered: int := 8388608

  const Uint16Space: int := 0x1_0000
  const Uint32Space: int := 0x1_0000_0000
  const InitiatorBit: int := 0x8000_0000
  const MaxLocalStreamID: int := 0x7FFF_FFFF

  const BadPayload: nat := 0x02
  const AppQuotaExceeded: int := 0x23
  const AppPeerGone: int := 0x24
  const AppOverflow: int := 0x25
  const AppTimeout: int := 0x26
  const AppProtocolError: int := 0x27

  predicate ServiceChar(c: byte, first: bool) {
    97 <= c <= 122 || (!first && (48 <= c <= 57 || c == 45))
  }

  /** A service id is one lower-case letter followed by at most 30 letters, digits or dashes. */
  predicate ValidAppService(service: Bytes) {
    1 <= |service| <= 31 && forall i :: 0 <= i < |service| ==> ServiceChar(service[i], i == 0)
  }
}
