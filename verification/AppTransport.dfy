/**
 The app channel over bytes: what a session sends, framed and encoded, is what the
 read loop of its peer hears, for every message of every run.
 */
module AppTransport {
  import opened Basics
  import opened Wire
  import F = Frames
  import opened AppLimits
  import opened AppMessages
  import C = AppCodec
  import opened AppStream
  import opened AppStreamProofs
  import opened AppSession
  import opened AppSessionProofs
  import opened AppSystem
  import opened AppProgress

  /** APP_* frames carry neither flags nor a message ID. */
  function FrameOf(m: AppMsg): F.Frame {
    F.Frame(C.TypeOf(m), 0, 0, C.Body(m))
  }

  function FramesOf(ms: seq<AppMsg>): (fs: seq<F.Frame>)
    ensures |fs| == |ms|
  {
    if ms == [] then [] else [FrameOf(ms[0])] + FramesOf(ms[1..])
  }

  function Encoded(ms: seq<AppMsg>): Bytes {
    F.Join(FramesOf(ms))
  }

  /** The read loop: frame by frame until one is refused. */
  function Heard(b: Bytes): seq<AppMsg>
    decreases |b|
  {
    match F.GetFrame(b)
    case Malformed => []
    case Parsed(f, r) =>
      if f.flags != 0 || f.msgID != 0 then []
      else match C.Decode(f.typ, f.body) case None => [] case Some(m) => [m] + Heard(r)
  }

  /** A message the encoders accept, with a frame length that does not wrap. */
  predicate Carriable(m: AppMsg) {
    C.Sendable(m) && |C.Body(m)| < Uint32Space - F.FrameHeaderSize
  }

  predicate AllCarriable(ms: seq<AppMsg>) {
    forall i :: 0 <= i < |ms| ==> Carriable(ms[i])
  }

  function UntilUnfit(ms: seq<AppMsg>): seq<AppMsg> {
    if ms == [] || !Fits(ms[0]) then [] else [ms[0]] + UntilUnfit(ms[1..])
  }

  lemma BodyLength(m: AppMsg)
    requires C.Sendable(m) && Fits(m)
    ensures |C.Body(m)| <= F.MaxFrameSize - F.FrameHeaderSize
  {
    match m
    case AppOpen(id, service, meta) => C.PutThree(Num(4, id), Blob(2, service), Blob(4, meta));
    case AppAccept(id, meta, grant) => C.PutThree(Num(4, id), Blob(4, meta), Num(4, grant));
    case AppReject(id, code, message) => C.PutThree(Num(4, id), Num(2, code), Blob(2, message));
    case AppData(id, data) => C.PutTwo(Num(4, id), Blob(4, data));
    case AppCredit(id, n) => C.PutTwo(Num(4, id), Num(4, n));
    case AppClose(id) => C.PutTwo(Num(4, id), Num(4, id));
    case AppReset(id, code, message) => C.PutThree(Num(4, id), Num(2, code), Blob(2, message));
  }

  /** A frame over the size limit is refused from its length alone. */
  lemma HugeFrame(f: F.Frame, tail: Bytes)
    requires F.MaxFrameSize < |F.Inner(f)| < Uint32Space
    ensures F.GetFrame(F.Encode(f) + tail).Malformed?
  {
    var n := |F.Inner(f)|;
    Spans();
    ValBig(n, 4);
    GetPutNum(4, n, F.Inner(f) + tail);
    assert F.Encode(f) + tail == Big(n, 4) + (F.Inner(f) + tail);
  }

  /** Cut anywhere, it still yields nothing. */
  lemma HugeCut(f: F.Frame, k: nat)
    requires F.MaxFrameSize < |F.Inner(f)| < Uint32Space && k <= |F.Encode(f)|
    ensures F.GetFrame(F.Encode(f)[..k]).Malformed?
  {
    var n := |F.Inner(f)|;
    Spans();
    ValBig(n, 4);
    if k >= 4 {
      GetPutNum(4, n, F.Inner(f)[..k - 4]);
      assert F.Encode(f)[..k] == Big(n, 4) + F.Inner(f)[..k - 4];
    }
  }

  /** One message and whatever follows it: heard if it fits, and the end of the session if it does not. */
  lemma HearOne(m: AppMsg, tail: Bytes)
    requires Carriable(m)
    ensures Heard(F.Encode(FrameOf(m)) + tail) == if Fits(m) then [m] + Heard(tail) else []
  {
    hide C.Decode, C.Body, F.Encode, F.GetFrame;
    var f := FrameOf(m);
    C.SentDecodes(m);
    Spans();
    if Fits(m) {
      BodyLength(m);
    }
    if F.FrameOk(f) {
      F.FrameIff(F.Encode(f) + tail, f, tail);
    } else {
      HugeFrame(f, tail);
    }
  }

  lemma {:induction false} HearAll(ms: seq<AppMsg>)
    requires AllCarriable(ms)
    ensures Heard(Encoded(ms)) == UntilUnfit(ms)
  {
    hide Carriable, F.Encode, FrameOf, Fits;
    if ms == [] {
      assert F.GetFrame([]).Malformed?;
    } else {
      assert FramesOf(ms)[1..] == FramesOf(ms[1..]);
      HearOne(ms[0], Encoded(ms[1..]));
      HearAll(ms[1..]);
    }
  }

  /** While the bytes are still arriving, exactly the messages that have arrived whole are heard, up to one too big. */
  lemma {:induction false} HearCut(ms: seq<AppMsg>, k: nat)
    requires AllCarriable(ms) && k <= |Encoded(ms)|
    ensures Heard(Encoded(ms)[..k]) == UntilUnfit(ms[..F.Whole(FramesOf(ms), k)])
    decreases |ms|
  {
    hide F.Encode, FrameOf, Fits, Carriable, C.Decode;
    if ms == [] {
      assert F.GetFrame([]).Malformed?;
    } else {
      hide F.GetFrame, UntilUnfit;
      var fs, rest := FramesOf(ms), Encoded(ms[1..]);
      assert fs[1..] == FramesOf(ms[1..]);
      var e := F.Encode(fs[0]);
      Cut(e, rest, k);
      if k < |e| {
        HearPart(ms[0], k);
      } else {
        HearOne(ms[0], rest[..k - |e|]);
        HearCut(ms[1..], k - |e|);
        assert F.Whole(fs, k) == 1 + F.Whole(fs[1..], k - |e|);
        UnfitStep(ms, F.Whole(fs, k));
      }
    }
  }

  lemma UnfitStep(ms: seq<AppMsg>, n: nat)
    requires 0 < n <= |ms|
    ensures UntilUnfit(ms[..n]) == if Fits(ms[0]) then [ms[0]] + UntilUnfit(ms[1..][..n - 1]) else []
  {
    hide Fits;
    assert ms[..n][1..] == ms[1..][..n - 1];
  }

  lemma HearPart(m: AppMsg, k: nat)
    requires Carriable(m) && k < |F.Encode(FrameOf(m))|
    ensures F.GetFrame(F.Encode(FrameOf(m))[..k]).Malformed?
  {
    hide F.Encode, F.GetFrame, C.Decode, C.Body;
    var f := FrameOf(m);
    Spans();
    if F.FrameOk(f) {
      F.CutFrame(f, k);
    } else {
      HugeCut(f, k);
    }
  }

  lemma Cut(e: Bytes, rest: Bytes, k: nat)
    requires k <= |e + rest|
    ensures (e + rest)[..k] == if k < |e| then e[..k] else e + rest[..k - |e|]
  {
  }

  // ---- Every message of every run ----

  const LongestReason: int := Uint32Space - 64

  predicate Brief(fault: Fault) {
    fault.code < Uint16Space && |fault.message| < LongestReason
  }

  /** The values an application passes have their Go types, and its reasons are shorter than 4 GiB. */
  predicate CallTyped(c: Call) {
    match c
    case ResetCall(_, fault) => Brief(fault)
    case HandlerReject(_, fault) => Brief(fault)
    case Incoming(m) => Typed(m)
    case _ => true
  }

  predicate IDsTyped(s: Session) {
    forall id :: id in s.streams ==> id < Uint32Space
  }

  lemma ShortCarriable(m: AppMsg)
    requires C.Sendable(m) && (m.AppReject? || m.AppReset? ==> |m.message| < LongestReason)
    ensures Carriable(m)
  {
    if m.AppReject? || m.AppReset? {
      C.PutThree(Num(4, m.streamID), Num(2, m.code), Blob(2, m.message));
    } else {
      BodyLength(m);
    }
  }

  lemma StreamCallCarriable(st: Stream, buffered: int, closed: bool, c: Call)
    requires Sane(st) && CallTyped(c) && st.id < Uint32Space
    ensures AllCarriable(StreamCall(st, buffered, closed, c).sent)
  {
    hide Carriable;
    var sent := StreamCall(st, buffered, closed, c).sent;
    if sent != [] {
      assert |sent| == 1;
      StreamCallSends(st, buffered, closed, c);
      ShortCarriable(sent[0]);
    }
  }

  lemma StreamCallSends(st: Stream, buffered: int, closed: bool, c: Call)
    requires Sane(st) && CallTyped(c) && st.id < Uint32Space
    requires StreamCall(st, buffered, closed, c).sent != []
    ensures var m := StreamCall(st, buffered, closed, c).sent[0];
            C.Sendable(m) && (m.AppReject? || m.AppReset? ==> |m.message| < LongestReason)
  {
  }

  lemma ReceiveSends(st: Stream, buffered: int, m: AppMsg)
    requires st.id < Uint32Space && Receive(st, buffered, m).sent != []
    ensures var sent := Receive(st, buffered, m).sent;
            |sent| == 1 && sent[0].AppReset? && C.Sendable(sent[0]) && |sent[0].message| < LongestReason
  {
  }

  lemma HandleMessageCarriable(s: Session, m: AppMsg)
    requires SessionInv(s) && IDsTyped(s) && Typed(m)
    ensures IDsTyped(HandleMessage(s, m).s) && AllCarriable(HandleMessage(s, m).sent)
  {
    hide SessionInv, Sane, Carriable, Receive, ValidAppService, GuestID;
    var e := HandleMessage(s, m);
    if e.sent != [] {
      if !m.AppOpen? {
        assert e.s.streams.Keys == s.streams.Keys;
        OwnStream(s, m.streamID);
        ReceiveSends(s.streams[m.streamID], s.buffered, m);
      }
      ShortCarriable(e.sent[0]);
    }
  }

  lemma NextCarriable(s: Session, c: Call)
    requires SessionInv(s) && IDsTyped(s) && CallTyped(c)
    ensures IDsTyped(Next(s, c).s) && AllCarriable(Next(s, c).sent)
  {
    hide SessionInv, Sane, Carriable, StreamCall, HandleMessage, ValidAppService;
    match c
    case OpenCall(service, meta) =>
      if Next(s, c).sent != [] {
        OpenSends(s, service, meta);
      }
    case ConnectionLost =>
    case Incoming(m) => HandleMessageCarriable(s, m);
    case _ =>
      if c.id in s.streams {
        OwnStream(s, c.id);
        StreamCallCarriable(s.streams[c.id], s.buffered, s.closed, c);
      }
  }

  lemma OwnStream(s: Session, id: nat)
    requires SessionInv(s) && id in s.streams
    ensures Sane(s.streams[id]) && s.streams[id].id == id
  {
    assert StreamOk(s, id);
  }

  lemma OpenSends(s: Session, service: Bytes, meta: Bytes)
    requires SessionInv(s) && OpenStream(s, service, meta).sent != []
    ensures var e := OpenStream(s, service, meta);
            AllCarriable(e.sent) && (IDsTyped(s) ==> IDsTyped(e.s))
  {
    OpenFresh(s);
    ShortCarriable(OpenStream(s, service, meta).sent[0]);
  }

  /** Both sessions keep their invariants and only messages that survive the encoding are on the wires. */
  ghost predicate Framed(sys: System) {
    && BothKept(sys) && IDsTyped(sys.host) && IDsTyped(sys.guest)
    && AllCarriable(sys.toGuest) && AllCarriable(sys.toHost)
  }

  predicate EventTyped(ev: Event) {
    ev.Local? ==> CallTyped(ev.c)
  }

  lemma StepFramed(sys: System, ev: Event)
    requires Framed(sys) && EventTyped(ev)
    ensures Framed(StepTo(sys, ev))
  {
    hide SessionInv, Next, Carriable, IDsTyped;
    AnyStepLocal(sys, ev);
    var s := End(sys, ev.side);
    if ev.Local? {
      NextCarriable(s, ev.c);
    } else if Sent(sys, !ev.side) != [] {
      var m := Sent(sys, !ev.side)[0];
      assert Typed(m) by {
        assert Carriable(m);
        CarriableTyped(m);
      }
      NextCarriable(s, Incoming(m));
    }
  }

  lemma CarriableTyped(m: AppMsg)
    requires Carriable(m)
    ensures Typed(m)
  {
  }

  lemma {:induction false} RunFramed(sys: System, evs: seq<Event>)
    requires Framed(sys) && forall i :: 0 <= i < |evs| ==> EventTyped(evs[i])
    ensures Framed(Run(sys, evs))
    decreases |evs|
  {
    hide Framed, EventTyped;
    if evs != [] {
      StepFramed(sys, evs[0]);
      RunFramed(StepTo(sys, evs[0]), evs[1..]);
    }
  }

  /**
   In every run the bytes in flight in each direction decode to exactly
   the messages in flight, up to the first one whose reason was too long to encode.
   */
  lemma BytesCarryTheRun(evs: seq<Event>)
    requires forall i :: 0 <= i < |evs| ==> EventTyped(evs[i])
    ensures var sys := Run(Start(), evs);
            && Heard(Encoded(sys.toGuest)) == UntilUnfit(sys.toGuest)
            && Heard(Encoded(sys.toHost)) == UntilUnfit(sys.toHost)
  {
    NewSessionInv(false);
    NewSessionInv(true);
    RunFramed(Start(), evs);
    HearAll(Run(Start(), evs).toGuest);
    HearAll(Run(Start(), evs).toHost);
  }
}
