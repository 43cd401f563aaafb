/**
 The life of one stream between its opener and its acceptor: the open handshake on
 top of the pair invariant, kept by every call and every delivery.
 */
module AppPhase {
  import opened Basics
  import opened AppLimits
  import opened AppMessages
  import opened AppStream
  import opened AppStreamProofs
  import opened AppSession
  import opened AppSessionProofs
  import opened AppPair
  import opened AppDuplex

  /** Not yet open: no bytes, no credit, nobody holds it. */
  predicate Untouched(st: Stream) {
    !st.handle && st.tx.sndCredit == 0 && st.hs.grant == 0 && st.rx.inQ == [] && !st.rx.remoteClosed
  }

  predicate Quiet(w: seq<AppMsg>) {
    forall i :: 0 <= i < |w| ==> w[i].AppReset?
  }

  predicate NoAnswers(w: seq<AppMsg>) {
    forall i :: 0 <= i < |w| ==> !w[i].AppOpen? && !w[i].AppAccept? && !w[i].AppReject?
  }

  predicate NoOpens(w: seq<AppMsg>) {
    forall i :: 0 <= i < |w| ==> !w[i].AppOpen?
  }

  predicate GoodOpen(m: AppMsg) {
    m.AppOpen? && ValidAppService(m.service) && |m.meta| <= AppMaxMetaBytes
  }

  /** The acceptor has no stream: APP_OPEN is under way, or it was refused for want of room. */
  predicate Alone(a: Stream, ab: seq<AppMsg>, ba: seq<AppMsg>, aDown: bool) {
    && Untouched(a)
    && (aDown ==> !a.attached)
    && (HasReset(ab) ==> a.life.reset.Some?)
    && (|| (ab != [] && GoodOpen(ab[0]) && ab[0].streamID == a.id && Quiet(ab[1..]) && ba == []
            && a.hs.openErr.None? && (a.life.reset.Some? ==> HasReset(ab) || aDown))
        || (Quiet(ab) && (ba == [] || (|ba| == 1 && ba[0].AppReject?)) && (a.hs.opening ==> ba != [])))
  }

  /** While the acceptor's handler decides, and after it has refused. */
  predicate Deciding(a: Stream, b: Stream, ab: seq<AppMsg>, ba: seq<AppMsg>, bDown: bool) {
    && Untouched(a) && Untouched(b) && Quiet(ab)
    && (ba == [] || (|ba| == 1 && ba[0].AppReject? && !b.hs.handling))
    && (a.hs.opening ==> b.hs.handling || ba != [] || bDown)
  }

  /** After the acceptor has accepted; the opener may not know yet. */
  predicate Decided(a: Stream, ba: seq<AppMsg>, bDown: bool) {
    && a.hs.openErr.None?
    && (a.hs.opening ==> Untouched(a) && if ba == [] then bDown else ba[0].AppAccept? && NoAnswers(ba[1..]))
    && (a.attached && !a.hs.opening ==> NoAnswers(ba))
  }

  predicate Phase(a: Stream, b: Stream, ab: seq<AppMsg>, ba: seq<AppMsg>, bDown: bool) {
    && NoAnswers(ab) && NoOpens(ba)
    && (a.hs.openErr.Some? ==> b.hs.accepting && !b.hs.handling)
    && if b.hs.accepting then Deciding(a, b, ab, ba, bDown) else Decided(a, ba, bDown)
  }

  predicate PairInv(a: Stream, b: Option<Stream>, ab: seq<AppMsg>, ba: seq<AppMsg>, aDown: bool, bDown: bool) {
    && !a.inbound && Sane(a)
    && match b
       case None => Alone(a, ab, ba, aDown)
       case Some(b) => b.inbound && b.id == a.id && Duplex(a, b, ab, ba, aDown, bDown) && Phase(a, b, ab, ba, bDown)
  }

  lemma Flip(x: Stream, y: Stream, xy: seq<AppMsg>, yx: seq<AppMsg>, xDown: bool, yDown: bool)
    requires Duplex(x, y, xy, yx, xDown, yDown)
    ensures Duplex(y, x, yx, xy, yDown, xDown)
  {
  }

  lemma QuietCarriesNothing(w: seq<AppMsg>)
    requires Quiet(w)
    ensures Payload(w) == [] && Before(w) == [] && Grants(w) == 0 && !Closing(w) && Clean(w)
    ensures HasReset(w) <==> w != []
  {
  }

  predicate AboutStream(c: Call) {
    !c.OpenCall? && !c.ConnectionLost? && !c.Incoming?
  }

  // ---- Calls of either end ----

  /** y is the other end; it accepts only as acceptor. */
  lemma CallKept(x: Stream, y: Stream, xy: seq<AppMsg>, yx: seq<AppMsg>, xDown: bool, yDown: bool,
                 buffered: int, c: Call)
    requires Duplex(x, y, xy, yx, xDown, yDown) && Ready(x, buffered) && AboutStream(c)
    requires x.handle ==> !y.hs.accepting
    requires !c.HandlerAccept? && !c.HandlerReject?
    ensures Kept(StreamCall(x, buffered, xDown, c), y, xy, yx, xDown, yDown)
  {
    hide Kept, Duplex, Ready;
    StillKept(x, y, xy, yx, xDown, yDown, buffered, Blocked);
    match c
    case OpenReady(_) => OpenReturnKept(x, y, xy, yx, xDown, yDown, buffered);
    case OpenTimeout(_) => OpenExpireKept(x, y, xy, yx, xDown, yDown, buffered);
    case OpenAborted(_) => OpenAbortedKept(x, y, xy, yx, xDown, yDown, buffered);
    case WriteCall(_, p) => if x.handle { WriteKept(x, y, xy, yx, xDown, yDown, buffered, p); }
    case ReadCall(_, room) => if x.handle { ReadKept(x, y, xy, yx, xDown, yDown, buffered, room); }
    case CloseCall(_) => if x.handle { CloseWriteKept(x, y, xy, yx, xDown, yDown, buffered); }
    case ResetCall(_, fault) => if x.handle { ResetKept(x, y, xy, yx, xDown, yDown, buffered, fault); }
    case LoopTake(_) => WriterTakeKept(x, y, xy, yx, xDown, yDown, buffered);
    case LoopSend(_) =>
      if xDown {
        LoopDropKept(x, y, xy, yx, xDown, yDown, buffered);
      } else {
        WriterSendKept(x, y, xy, yx, xDown, yDown, buffered);
      }
  }

  lemma StillKept(x: Stream, y: Stream, xy: seq<AppMsg>, yx: seq<AppMsg>, xDown: bool, yDown: bool,
                  buffered: int, res: Result)
    requires Duplex(x, y, xy, yx, xDown, yDown)
    ensures Kept(Out(x, buffered, [], res), y, xy, yx, xDown, yDown)
  {
    assert xy + Emit(xDown, []) == xy;
  }

  lemma OpenAbortedKept(x: Stream, y: Stream, xy: seq<AppMsg>, yx: seq<AppMsg>, xDown: bool, yDown: bool, buffered: int)
    requires Duplex(x, y, xy, yx, xDown, yDown) && Ready(x, buffered)
    ensures Kept(StreamCall(x, buffered, xDown, OpenAborted(x.id)), y, xy, yx, xDown, yDown)
  {
    var out := StreamCall(x, buffered, xDown, OpenAborted(x.id));
    OpenAbortedKeeps(x, buffered, xDown);
    assert xy + Emit(xDown, out.sent) == xy;
    Inert(x, y, xy, yx, xDown, yDown, out.st);
  }

  lemma LoopDropKept(x: Stream, y: Stream, xy: seq<AppMsg>, yx: seq<AppMsg>, xDown: bool, yDown: bool, buffered: int)
    requires Duplex(x, y, xy, yx, xDown, yDown) && Ready(x, buffered) && xDown
    ensures Kept(StreamCall(x, buffered, true, LoopSend(x.id)), y, xy, yx, xDown, yDown)
  {
    var out := StreamCall(x, buffered, true, LoopSend(x.id));
    LoopDropKeeps(x, buffered);
    assert xy + Emit(xDown, out.sent) == xy;
    if x.tx.held == [] {
      Inert(x, y, xy, yx, xDown, yDown, out.st);
    }
  }

  // ---- The acceptor decides ----

  lemma AcceptOkKept(a: Stream, b: Stream, ab: seq<AppMsg>, ba: seq<AppMsg>, aDown: bool, bDown: bool,
                     buffered: int, meta: Bytes)
    requires Duplex(b, a, ba, ab, bDown, aDown) && Ready(b, buffered)
    requires b.hs.handling && Deciding(a, b, ab, ba, bDown) && !a.inbound && |meta| <= AppMaxMetaBytes
    ensures Kept(AcceptOk(b, buffered, meta, bDown), a, ba, ab, bDown, aDown)
  {
    var out := AcceptOk(b, buffered, meta, bDown);
    AcceptOkKeeps(b, buffered, meta, bDown);
    QuietCarriesNothing(ab);
    if bDown {
      assert ba + Emit(bDown, out.sent) == ba;
    } else {
      PutAccept(b, a, ba, ab, bDown, aDown, out.st, meta);
    }
  }

  lemma AcceptFailKept(x: Stream, y: Stream, xy: seq<AppMsg>, yx: seq<AppMsg>, xDown: bool, yDown: bool,
                       buffered: int, fault: Fault)
    requires Duplex(x, y, xy, yx, xDown, yDown) && Ready(x, buffered)
    ensures Kept(AcceptFail(x, buffered, fault), y, xy, yx, xDown, yDown)
  {
    var out := AcceptFail(x, buffered, fault);
    AcceptFailKeeps(x, buffered, fault);
    Inert(x, y, xy, yx, xDown, yDown, out.st);
    if xDown || !x.hs.handling {
      assert xy + Emit(xDown, out.sent) == xy;
    } else {
      PutReject(out.st, y, xy, yx, xDown, yDown, out.sent[0]);
    }
  }

  // ---- Calls of the opener ----

  /** A call on an opener that was not accepted can only make `Open` give up. */
  lemma UntouchedCall(a: Stream, buffered: int, closed: bool, c: Call)
    requires Sane(a) && !a.inbound && Untouched(a) && AboutStream(c)
    ensures var out := StreamCall(a, buffered, closed, c);
            && Untouched(out.st) && out.st.hs.openErr == a.hs.openErr && Quiet(out.sent)
            && (!(c.OpenTimeout? && a.hs.waiting) ==>
                  out.sent == [] && out.st == a.(hs := a.hs.(waiting := out.st.hs.waiting)))
  {
  }

  lemma AloneTimeout(a: Stream, ab: seq<AppMsg>, ba: seq<AppMsg>, aDown: bool, buffered: int)
    requires Ready(a, buffered) && Alone(a, ab, ba, aDown) && a.hs.waiting
    ensures var out := OpenExpire(a, buffered);
            Alone(out.st, ab + Emit(aDown, out.sent), ba, aDown)
  {
    var out := OpenExpire(a, buffered);
    var ab' := ab + Emit(aDown, out.sent);
    if aDown {
      assert ab' == ab;
    } else {
      Extend(ab, out.sent[0]);
    }
  }

  lemma AloneCall(a: Stream, ab: seq<AppMsg>, ba: seq<AppMsg>, aDown: bool, buffered: int, c: Call)
    requires !a.inbound && Ready(a, buffered) && Alone(a, ab, ba, aDown) && AboutStream(c)
    ensures var out := StreamCall(a, buffered, aDown, c);
            Alone(out.st, ab + Emit(aDown, out.sent), ba, aDown)
  {
    if c.OpenTimeout? && a.hs.waiting {
      AloneTimeout(a, ab, ba, aDown, buffered);
    } else {
      hide StreamCall;
      UntouchedCall(a, buffered, aDown, c);
      assert ab + Emit(aDown, []) == ab;
    }
  }

  /** An opener answers nothing, and giving up on the handshake takes it out of the table. */
  lemma OpenerSays(a: Stream, buffered: int, aDown: bool, c: Call)
    requires Sane(a) && !a.inbound && AboutStream(c)
    ensures var out := StreamCall(a, buffered, aDown, c);
            && NoAnswers(out.sent) && out.st.hs.openErr == a.hs.openErr
            && (c.OpenTimeout? && a.hs.waiting ==> !out.st.attached)
  {
  }

  lemma OpenerPhase(a: Stream, b: Stream, ab: seq<AppMsg>, ba: seq<AppMsg>, aDown: bool, bDown: bool,
                    buffered: int, c: Call)
    requires Sane(a) && !a.inbound && Phase(a, b, ab, ba, bDown) && AboutStream(c)
    requires Evolves(a, StreamCall(a, buffered, aDown, c).st)
    ensures var out := StreamCall(a, buffered, aDown, c);
            Phase(out.st, b, ab + Emit(aDown, out.sent), ba, bDown)
  {
    hide Sane, StreamCall, Untouched;
    var out := StreamCall(a, buffered, aDown, c);
    OpenerSays(a, buffered, aDown, c);
    if Untouched(a) {
      UntouchedCall(a, buffered, aDown, c);
    }
  }

  lemma OpenerCall(a: Stream, b: Option<Stream>, ab: seq<AppMsg>, ba: seq<AppMsg>, aDown: bool, bDown: bool,
                   buffered: int, c: Call)
    requires PairInv(a, b, ab, ba, aDown, bDown) && Ready(a, buffered) && AboutStream(c)
    requires Keeps(a, buffered, StreamCall(a, buffered, aDown, c))
    ensures var out := StreamCall(a, buffered, aDown, c);
            PairInv(out.st, b, ab + Emit(aDown, out.sent), ba, aDown, bDown)
  {
    hide Alone, Phase, Duplex, Kept;
    match b
    case None => AloneCall(a, ab, ba, aDown, buffered, c);
    case Some(b) =>
      OpenerPhase(a, b, ab, ba, aDown, bDown, buffered, c);
      OpenerKept(a, b, ab, ba, aDown, bDown, buffered, c);
  }

  lemma OpenerKept(a: Stream, b: Stream, ab: seq<AppMsg>, ba: seq<AppMsg>, aDown: bool, bDown: bool,
                   buffered: int, c: Call)
    requires Duplex(a, b, ab, ba, aDown, bDown) && Phase(a, b, ab, ba, bDown) && !a.inbound
    requires Ready(a, buffered) && AboutStream(c)
    ensures var out := StreamCall(a, buffered, aDown, c);
            Duplex(out.st, b, ab + Emit(aDown, out.sent), ba, aDown, bDown)
  {
    hide Linked;
    if c.HandlerAccept? || c.HandlerReject? {
      StillKept(a, b, ab, ba, aDown, bDown, buffered, Blocked);
    } else {
      CallKept(a, b, ab, ba, aDown, bDown, buffered, c);
    }
  }
}
