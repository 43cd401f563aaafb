/** The seven APP_* messages (protocol/messages/app.go). */
module AppMessages {
  import opened Basics
  import opened AppLimits

  datatype AppMsg =
    | AppOpen(streamID: nat, service: Bytes, meta: Bytes)
    | AppAccept(streamID: nat, meta: Bytes, grant: nat)
    | AppReject(streamID: nat, code: nat, message: Bytes)
    | AppData(streamID: nat, data: Bytes)
    | AppCredit(streamID: nat, bytes: nat)
    | AppClose(streamID: nat)
    | AppReset(streamID: nat, code: nat, message: Bytes)

  /** The numbers of the message are values of their Go types. */
  predicate Typed(m: AppMsg) {
    && m.streamID < Uint32Space
    && match m
       case AppAccept(_, _, grant) => grant < Uint32Space
       case AppReject(_, code, _) => code < Uint16Space
       case AppCredit(_, bytes) => bytes < Uint32Space
       case AppReset(_, code, _) => code < Uint16Space
       case _ => true
  }

  /** Every length fits the length field that the encoder writes it to. */
  predicate Fits(m: AppMsg) {
    match m
    case AppOpen(_, service, meta) => |service| < Uint16Space && |meta| < Uint32Space
    case AppAccept(_, meta, _) => |meta| < Uint32Space
    case AppReject(_, _, message) => |message| < Uint16Space
    case AppData(_, data) => |data| < Uint32Space
    case AppCredit(_, _) => true
    case AppClose(_) => true
    case AppReset(_, _, message) => |message| < Uint16Space
  }
}
