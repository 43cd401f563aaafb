/**
 The layouts of the wire-format documents, byte by byte and with their numbers written out
 (docs/02-wire-format.md, docs/06-negotiation.md, docs/services/app-channel.md,
 docs/services/heartbeat.md). The encoders produce exactly these.
 */
module Formats {
  import opened Basics
  import opened Wire
  import opened AppLimits
  import opened AppMessages
  import C = AppCodec
  import M = AppMarshal
  import F = Frames
  import H = Hello
  import HelloCodec
  import Handshake
  import B = Heartbeat

  /** Unsigned integers of two, four and eight bytes, most significant byte first. */
  function U16(v: nat): Bytes {
    [v / 256 % 256, v % 256]
  }

  function U32(v: nat): Bytes {
    U16(v / 0x1_0000) + U16(v)
  }

  function U64(v: nat): Bytes {
    U32(v / 0x1_0000_0000) + U32(v)
  }

  lemma BigIsU16(v: nat)
    ensures Big(v, 2) == U16(v)
  {
    assert Big(v, 2) == Big(v / 256, 1) + [v % 256];
    assert Big(v / 256, 1) == Big(v / 256 / 256, 0) + [v / 256 % 256];
  }

  lemma BigIsU32(v: nat)
    ensures Big(v, 4) == U32(v)
  {
    hide U16;
    BigSplit(v, 2);
    Halves(v);
  }

  lemma Halves(v: nat)
    ensures v / 256 / 256 == v / 0x1_0000 && Big(v / 256 / 256, 2) == U16(v / 0x1_0000) && Big(v, 2) == U16(v)
  {
    BigIsU16(v);
    BigIsU16(v / 0x1_0000);
  }

  /** The last two bytes, and what is in front of them. */
  lemma BigSplit(v: nat, w: nat)
    ensures Big(v, w + 2) == Big(v / 256 / 256, w) + Big(v, 2)
  {
    assert Big(v, w + 2) == Big(v / 256, w + 1) + [v % 256];
    assert Big(v / 256, w + 1) == Big(v / 256 / 256, w) + [v / 256 % 256];
    BigIsU16(v);
  }

  lemma BigIsU64(v: nat)
    ensures Big(v, 8) == U64(v)
  {
    hide U32, Big;
    var q := v / 0x1_0000;
    BigSplit(v, 6);
    BigSplit(q, 4);
    assert v / 256 / 256 == q && q / 256 / 256 == v / 0x1_0000_0000;
    BigSplit(v, 2);
    BigIsU32(v);
    BigIsU32(v / 0x1_0000_0000);
    assert Big(v, 4) == Big(q, 2) + Big(v, 2);
  }

  /** A frame: a 32-bit length, type, flags, a 32-bit message ID, and the body. */
  lemma FrameFormat(f: F.Frame)
    ensures F.Encode(f) == U32(6 + |f.body|) + [f.typ, f.flags] + U32(f.msgID) + f.body
    ensures F.FrameOk(f) <==> f.msgID < 0x1_0000_0000 && 6 + |f.body| <= 0x0100_0000
  {
    hide U32, Big;
    BigIsU32(6 + |f.body|);
    BigIsU32(f.msgID);
    Spans();
  }

  function Str(b: Bytes): Bytes {
    U16(|b|) + b
  }

  function Raw(b: Bytes): Bytes {
    U32(|b|) + b
  }

  lemma FieldFormat(v: nat, b: Bytes)
    ensures PutField(Num(2, v)) == U16(v) && PutField(Num(4, v)) == U32(v)
    ensures PutField(Blob(2, b)) == Str(b) && PutField(Blob(4, b)) == Raw(b)
  {
    BigIsU16(v);
    BigIsU32(v);
    BigIsU16(|b|);
    BigIsU32(|b|);
  }

  /** The seven app-channel messages. */
  lemma AppFormat(m: AppMsg)
    ensures match m
            case AppOpen(id, service, meta) => C.TypeOf(m) == 0x50 && C.Body(m) == U32(id) + Str(service) + Raw(meta)
            case AppAccept(id, meta, grant) => C.TypeOf(m) == 0x51 && C.Body(m) == U32(id) + Raw(meta) + U32(grant)
            case AppReject(id, code, message) => C.TypeOf(m) == 0x52 && C.Body(m) == U32(id) + U16(code) + Str(message)
            case AppData(id, data) => C.TypeOf(m) == 0x53 && C.Body(m) == U32(id) + Raw(data)
            case AppCredit(id, bytes) => C.TypeOf(m) == 0x54 && C.Body(m) == U32(id) + U32(bytes)
            case AppClose(id) => C.TypeOf(m) == 0x55 && C.Body(m) == U32(id)
            case AppReset(id, code, message) => C.TypeOf(m) == 0x56 && C.Body(m) == U32(id) + U16(code) + Str(message)
  {
    hide U16, U32, Str, Raw, PutField, Put;
    FieldFormat(m.streamID, []);
    match m
    case AppOpen(id, service, meta) =>
      C.PutThree(Num(4, id), Blob(2, service), Blob(4, meta));
      FieldFormat(0, service);
      FieldFormat(0, meta);
    case AppAccept(id, meta, grant) =>
      C.PutThree(Num(4, id), Blob(4, meta), Num(4, grant));
      FieldFormat(grant, meta);
    case AppReject(id, code, message) =>
      C.PutThree(Num(4, id), Num(2, code), Blob(2, message));
      FieldFormat(code, message);
    case AppData(id, data) =>
      C.PutTwo(Num(4, id), Blob(4, data));
      FieldFormat(0, data);
    case AppCredit(id, bytes) =>
      C.PutTwo(Num(4, id), Num(4, bytes));
      FieldFormat(bytes, []);
    case AppClose(id) =>
      C.PutTwo(Num(4, id), Num(4, id));
    case AppReset(id, code, message) =>
      C.PutThree(Num(4, id), Num(2, code), Blob(2, message));
      FieldFormat(code, message);
  }

  /** The encoder refuses meta over 1 KiB and data over 64 KiB, and nothing else. */
  lemma AppLimitsFormat(m: AppMsg)
    ensures M.Marshals(m) <==>
              && (m.AppOpen? || m.AppAccept? ==> |m.meta| <= 1024)
              && (m.AppData? ==> |m.data| <= 65536)
    ensures C.Sendable(m) ==> M.Marshals(m)
  {
  }

  function CapList(cs: seq<H.Capability>): Bytes {
    if cs == [] then [] else [cs[0].id] + U16(cs[0].min) + U16(cs[0].max) + CapList(cs[1..])
  }

  lemma {:induction false} CapsFormat(cs: seq<H.Capability>)
    ensures HelloCodec.PutCaps(cs) == CapList(cs)
  {
    hide Big, U16;
    if cs != [] {
      CapsFormat(cs[1..]);
      BigIsU16(cs[0].min);
      BigIsU16(cs[0].max);
    }
  }

  /** The prefix and the HELLO: role, version, and five bytes for each capability. */
  lemma HelloFormat(h: H.Hello)
    requires h.role < 256
    ensures HelloCodec.HelloBytes(h) == [h.role] + Str(h.version) + U16(|h.caps|) + CapList(h.caps)
    ensures Handshake.Opening(h)
         == [0x4D, 0x56, 0x43, 0x50, 1] + F.Encode(F.Frame(0x00, 0, 0, HelloCodec.HelloBytes(h)))
  {
    hide U16, Str, CapList, HelloCodec.PutCaps, F.Encode;
    C.PutThree(Num(1, h.role), Blob(2, h.version), Num(2, |h.caps|));
    OneByte(h.role);
    FieldFormat(|h.caps|, h.version);
    CapsFormat(h.caps);
    assert Ascii("MVCP") == [0x4D, 0x56, 0x43, 0x50];
  }

  /** What a HELLO that is accepted, or that may be sent, looks like. */
  lemma HelloLimits(h: H.Hello)
    ensures HelloCodec.WellFormed(h) <==>
              && h.role <= 2 && |h.version| <= 128 && |h.caps| <= 64
              && (forall i, j :: 0 <= i < j < |h.caps| ==> h.caps[i].id != h.caps[j].id)
              && (forall i :: 0 <= i < |h.caps| ==> h.caps[i].min <= h.caps[i].max < 0x1_0000)
    ensures HelloCodec.Marshalable(h) <==>
              && 1 <= h.role <= 2 && |h.version| <= 128 && |h.caps| <= 64
              && forall i :: 0 <= i < |h.caps| ==> h.caps[i].min <= h.caps[i].max
  {
    Spans();
  }

  function TLVs(es: seq<B.Extension>): Bytes {
    if es == [] then [] else U16(es[0].typ) + U16(|es[0].value|) + es[0].value + TLVs(es[1..])
  }

  lemma {:induction false} ExtsFormat(es: seq<B.Extension>)
    ensures B.PutExts(es) == TLVs(es)
  {
    hide Big, U16;
    if es != [] {
      ExtsFormat(es[1..]);
      BigIsU16(es[0].typ);
      BigIsU16(|es[0].value|);
    }
  }

  /** The heartbeat: a header of 20 bytes and its extensions. */
  lemma HeartbeatFormat(m: B.Heartbeat)
    ensures var body := TLVs(B.Materialized(m));
            B.Marshalled(m) == U64(m.bootID) + U64(m.sequence) + [m.state, m.flags] + U16(|body|) + body
  {
    hide Big, U16, U64, TLVs, B.Materialized, B.PutExts;
    ExtsFormat(B.Materialized(m));
    BigIsU64(m.bootID);
    BigIsU64(m.sequence);
    BigIsU16(|TLVs(B.Materialized(m))|);
  }

  /** The Health that is decoded: the first byte of the last Health extension that has one. */
  lemma {:induction false} HealthDecoded(es: seq<B.Extension>, k: nat)
    requires k < |es| && es[k].typ == 4 && es[k].value != []
    requires forall j :: k < j < |es| ==> es[j].typ != 4 || es[j].value == []
    ensures B.HealthIn(es) == es[k].value[0]
  {
    var init := es[..|es| - 1];
    if k < |init| {
      assert es[|es| - 1].typ != 4 || es[|es| - 1].value == [];
      assert init[k] == es[k] && forall j :: k < j < |init| ==> init[j] == es[j];
      HealthDecoded(init, k);
    }
  }

  /** The reason: the value of the last failure-reason extension. */
  lemma {:induction false} ReasonDecoded(es: seq<B.Extension>, k: nat)
    requires k < |es| && es[k].typ == 5 && forall j :: k < j < |es| ==> es[j].typ != 5
    ensures B.ReasonIn(es) == es[k].value
  {
    var init := es[..|es| - 1];
    if k < |init| {
      assert es[|es| - 1].typ != 5;
      assert init[k] == es[k] && forall j :: k < j < |init| ==> init[j] == es[j];
      ReasonDecoded(init, k);
    }
  }

  /** Without them: Healthy (0), and no reason. */
  lemma {:induction false} NeitherDecoded(es: seq<B.Extension>)
    ensures (forall i :: 0 <= i < |es| ==> es[i].typ != 4 || es[i].value == []) ==> B.HealthIn(es) == 0
    ensures (forall i :: 0 <= i < |es| ==> es[i].typ != 5) ==> B.ReasonIn(es) == []
  {
    if es != [] {
      var init := es[..|es| - 1];
      NeitherDecoded(init);
      assert forall i :: 0 <= i < |init| ==> init[i] == es[i];
    }
  }

  /**
   The extensions that go out: those given, in order and with their types; the values of all types
   but Health (4) and failure reason (5) as they are, those of Health as the Health field says, those
   of the reason as the reason field says unless it is empty; then Health if it was not among them,
   and the reason of a failed machine (state 5) if that was not.
   */
  lemma HeartbeatExtensions(m: B.Heartbeat)
    ensures var out, n := B.Materialized(m), |m.exts|;
            && n <= |out| <= n + 2
            && (forall i :: 0 <= i < n ==>
                  && out[i].typ == m.exts[i].typ
                  && out[i].value == (if m.exts[i].typ == 4 then [m.health]
                                      else if m.exts[i].typ == 5 && m.reason != [] then m.reason
                                      else m.exts[i].value))
            && var health := (exists i :: 0 <= i < n && m.exts[i].typ == 4);
               var reason := (exists i :: 0 <= i < n && m.exts[i].typ == 5);
               out[n..] == (if health then [] else [B.Extension(4, [m.health])])
                           + (if m.state == 5 && m.reason != [] && !reason then [B.Extension(5, m.reason)] else [])
  {
    var base := B.ProjectedAll(m, m.exts);
    var more := (if B.Has(m.exts, 4) then [] else [B.Extension(4, [m.health])])
                + (if m.state == 5 && m.reason != [] && !B.Has(m.exts, 5) then [B.Extension(5, m.reason)] else []);
    assert B.Materialized(m) == base + more;
  }
}
