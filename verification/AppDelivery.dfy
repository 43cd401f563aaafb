/** Calls of the acceptor, deliveries to both ends and the loss of a connection keep the life of a stream. */
module AppDelivery {
  import opened Basics
  import opened AppLimits
  import opened AppMessages
  import opened AppStream
  import opened AppStreamProofs
  import opened AppSession
  import opened AppSessionProofs
  import opened AppPair
  import opened AppDuplex
  import opened AppPhase

  // ---- Calls of the acceptor ----

  lemma AcceptorPhase(a: Stream, b: Stream, ab: seq<AppMsg>, ba: seq<AppMsg>, bDown: bool, buffered: int, c: Call)
    requires Sane(a) && !a.inbound && Sane(b) && b.inbound && Phase(a, b, ab, ba, bDown) && AboutStream(c)
    requires Evolves(b, StreamCall(b, buffered, bDown, c).st)
    ensures var out := StreamCall(b, buffered, bDown, c);
            Phase(a, out.st, ab, ba + Emit(bDown, out.sent), bDown)
  {
    hide StreamCall;
    if b.hs.accepting {
      DecidingCall(b, buffered, bDown, c);
    }
  }

  /** A call on an acceptor whose handler is not done, or has refused, changes nothing unless it is the handler's. */
  lemma DecidingCall(b: Stream, buffered: int, closed: bool, c: Call)
    requires Sane(b) && b.inbound && b.hs.accepting && Untouched(b) && AboutStream(c)
    ensures var out := StreamCall(b, buffered, closed, c);
            if out.st.hs.accepting then
              && Untouched(out.st)
              && (if b.hs.handling && !out.st.hs.handling then |out.sent| == 1 && out.sent[0].AppReject?
                  else out.sent == [] && out.st.hs.handling == b.hs.handling)
            else b.hs.handling && |out.sent| == 1 && out.sent[0].AppAccept?
  {
  }

  lemma AcceptorKept(a: Stream, b: Stream, ab: seq<AppMsg>, ba: seq<AppMsg>, aDown: bool, bDown: bool,
                     buffered: int, c: Call)
    requires Duplex(b, a, ba, ab, bDown, aDown) && Phase(a, b, ab, ba, bDown) && !a.inbound && b.inbound
    requires Ready(b, buffered) && AboutStream(c)
    ensures Kept(StreamCall(b, buffered, bDown, c), a, ba, ab, bDown, aDown)
  {
    hide Kept, Told, Flow;
    if c.HandlerAccept? {
      if !b.hs.handling {
        StillKept(b, a, ba, ab, bDown, aDown, buffered, Blocked);
      } else if |c.meta| > AppMaxMetaBytes {
        AcceptFailKept(b, a, ba, ab, bDown, aDown, buffered, Violation("accept meta too large"));
      } else {
        AcceptOkKept(a, b, ab, ba, aDown, bDown, buffered, c.meta);
      }
    } else if c.HandlerReject? {
      AcceptFailKept(b, a, ba, ab, bDown, aDown, buffered, c.fault);
    } else {
      CallKept(b, a, ba, ab, bDown, aDown, buffered, c);
    }
  }

  lemma AcceptorCall(a: Stream, b: Stream, ab: seq<AppMsg>, ba: seq<AppMsg>, aDown: bool, bDown: bool,
                     buffered: int, c: Call)
    requires PairInv(a, Some(b), ab, ba, aDown, bDown) && Ready(b, buffered) && AboutStream(c)
    requires Keeps(b, buffered, StreamCall(b, buffered, bDown, c))
    ensures var out := StreamCall(b, buffered, bDown, c);
            PairInv(a, Some(out.st), ab, ba + Emit(bDown, out.sent), aDown, bDown)
  {
    hide Phase, Linked, StreamCall;
    var out := StreamCall(b, buffered, bDown, c);
    Flip(a, b, ab, ba, aDown, bDown);
    AcceptorKept(a, b, ab, ba, aDown, bDown, buffered, c);
    Flip(out.st, a, ba + Emit(bDown, out.sent), ab, bDown, aDown);
    AcceptorPhase(a, b, ab, ba, bDown, buffered, c);
  }

  // ---- Deliveries ----

  /** The only answer to a message is APP_RESET for want of session memory, or for data behind an early close. */
  predicate Peaceful(out: Out, early: bool) {
    || out.sent == []
    || out.res == Failed(SessionBufferExceeded)
    || (early && out.res == Failed(Violation("data after close")))
  }

  function Early(st: Option<Stream>): bool {
    st.Some? && st.value.tx.early
  }

  /** What the session does with a message about this stream. */
  function Reception(st: Stream, buffered: int, m: AppMsg): Out {
    if st.attached then Receive(st, buffered, m) else Out(st, buffered, [], Done)
  }

  /** The first message of yx reaches an open end x. */
  lemma FlowTaken(x: Stream, y: Stream, xy: seq<AppMsg>, yx: seq<AppMsg>, xDown: bool, yDown: bool, buffered: int)
    requires yx != [] && Duplex(x, y, xy, yx, xDown, yDown) && Ready(x, buffered)
    requires x.attached && x.life.reset.None? && !x.hs.opening && !x.hs.accepting && !Answer(yx[0])
    ensures Taken(Receive(x, buffered, yx[0]), y, xy, yx, xDown, yDown)
    ensures Peaceful(Receive(x, buffered, yx[0]), y.tx.early)
  {
    hide Taken, Duplex, Ready, Peaceful;
    match yx[0]
    case AppData(_, _) =>
      DataTaken(x, y, xy, yx, xDown, yDown, buffered);
      DataPeaceful(x, y, xy, yx, xDown, yDown, buffered);
    case AppCredit(_, _) =>
      CreditTaken(x, y, xy, yx, xDown, yDown, buffered);
      CreditPeaceful(x, y, xy, yx, xDown, yDown, buffered);
    case AppClose(_) =>
      CloseTaken(x, y, xy, yx, xDown, yDown, buffered);
      ClosePeaceful(x, buffered, y.tx.early);
    case AppReset(_, code, message) =>
      ResetMsgTaken(x, y, xy, yx, xDown, yDown, buffered, Fault(code, message));
      ResetPeaceful(x, buffered, Fault(code, message), y.tx.early);
  }

  lemma DataPeaceful(x: Stream, y: Stream, xy: seq<AppMsg>, yx: seq<AppMsg>, xDown: bool, yDown: bool, buffered: int)
    requires yx != [] && yx[0].AppData? && Duplex(x, y, xy, yx, xDown, yDown)
    requires x.attached && x.life.reset.None? && !x.hs.opening && !x.hs.accepting
    ensures Peaceful(Deliver(x, buffered, yx[0].data), y.tx.early)
  {
    hide Sane, Told, Flow, Deliver;
    DataWelcome(x, y, xy, yx, buffered);
  }

  lemma CreditPeaceful(x: Stream, y: Stream, xy: seq<AppMsg>, yx: seq<AppMsg>, xDown: bool, yDown: bool, buffered: int)
    requires yx != [] && yx[0].AppCredit? && Duplex(x, y, xy, yx, xDown, yDown) && x.attached && x.life.reset.None?
    ensures Peaceful(AddCredit(x, buffered, yx[0].bytes), y.tx.early)
  {
    CreditAdded(x, y, xy, yx, buffered);
  }

  /** A close or a reset is never answered, whoever sends it. */
  lemma ClosePeaceful(x: Stream, buffered: int, early: bool)
    ensures RemoteClose(x, buffered).sent == [] && Peaceful(RemoteClose(x, buffered), early)
  {
  }

  lemma ResetPeaceful(x: Stream, buffered: int, fault: Fault, early: bool)
    ensures RemoteReset(x, buffered, fault).sent == [] && Peaceful(RemoteReset(x, buffered, fault), early)
  {
  }

  // ---- To the opener ----

  lemma OpenerReceive(a: Stream, b: Option<Stream>, ab: seq<AppMsg>, ba: seq<AppMsg>, aDown: bool, bDown: bool,
                      buffered: int)
    requires PairInv(a, b, ab, ba, aDown, bDown) && Ready(a, buffered) && ba != []
    ensures var out := Reception(a, buffered, ba[0]);
            PairInv(out.st, b, ab + Emit(aDown, out.sent), ba[1..], aDown, bDown) && Peaceful(out, Early(b))
  {
    match b
    case None => AloneReject(a, ab, ba, aDown, bDown, buffered);
    case Some(b) =>
      if !a.attached {
        hide Linked, Sane;
        IgnoredTaken(a, b, ab, ba, aDown, bDown);
        assert ab + Emit(aDown, []) == ab;
      } else if a.hs.opening {
        OpeningReceive(a, b, ab, ba, aDown, bDown, buffered);
      } else {
        OpenReceive(a, b, ab, ba, aDown, bDown, buffered);
      }
  }

  lemma AloneReject(a: Stream, ab: seq<AppMsg>, ba: seq<AppMsg>, aDown: bool, bDown: bool, buffered: int)
    requires PairInv(a, None, ab, ba, aDown, bDown) && Ready(a, buffered) && ba != []
    ensures var out := Reception(a, buffered, ba[0]);
            PairInv(out.st, None, ab + Emit(aDown, out.sent), ba[1..], aDown, bDown) && Peaceful(out, false)
  {
    var out := Reception(a, buffered, ba[0]);
    HandleRejectKeeps(a, buffered, Fault(ba[0].code, ba[0].message));
    assert ab + Emit(aDown, out.sent) == ab;
  }

  lemma OpeningReceive(a: Stream, b: Stream, ab: seq<AppMsg>, ba: seq<AppMsg>, aDown: bool, bDown: bool, buffered: int)
    requires PairInv(a, Some(b), ab, ba, aDown, bDown) && Ready(a, buffered) && ba != []
    requires a.attached && a.hs.opening
    ensures var out := Receive(a, buffered, ba[0]);
            PairInv(out.st, Some(b), ab + Emit(aDown, out.sent), ba[1..], aDown, bDown) && Peaceful(out, b.tx.early)
  {
    hide Sane, Linked;
    if b.hs.accepting {
      RejectTaken(a, b, ab, ba, aDown, bDown, buffered, Fault(ba[0].code, ba[0].message));
      assert ab + Emit(aDown, []) == ab;
    } else {
      AcceptTaken(a, b, ab, ba, aDown, bDown, buffered);
      HandleAcceptKeeps(a, buffered, ba[0].meta, ba[0].grant);
      assert ab + Emit(aDown, []) == ab;
    }
  }

  /** An opener in its table that is no longer opening has been accepted. */
  lemma OpenerAccepted(a: Stream, b: Stream, ab: seq<AppMsg>, ba: seq<AppMsg>, bDown: bool)
    requires Sane(a) && !a.inbound && Phase(a, b, ab, ba, bDown) && a.attached && !a.hs.opening
    ensures a.life.reset.None? && !a.hs.accepting && !b.hs.accepting && NoAnswers(ba)
  {
  }

  lemma OpenPhase(a: Stream, a': Stream, b: Stream, ab: seq<AppMsg>, ba: seq<AppMsg>, bDown: bool, sent: seq<AppMsg>)
    requires Phase(a, b, ab, ba, bDown) && a.attached && !a.hs.opening && !b.hs.accepting && ba != []
    requires a'.hs.openErr == a.hs.openErr && !a'.hs.opening && NoAnswers(sent)
    ensures Phase(a', b, ab + sent, ba[1..], bDown)
  {
  }

  lemma OpenReceive(a: Stream, b: Stream, ab: seq<AppMsg>, ba: seq<AppMsg>, aDown: bool, bDown: bool, buffered: int)
    requires PairInv(a, Some(b), ab, ba, aDown, bDown) && Ready(a, buffered) && ba != []
    requires a.attached && !a.hs.opening
    ensures var out := Receive(a, buffered, ba[0]);
            PairInv(out.st, Some(b), ab + Emit(aDown, out.sent), ba[1..], aDown, bDown) && Peaceful(out, b.tx.early)
  {
    hide Linked, Receive, Peaceful, Sane, Phase;
    var out := Receive(a, buffered, ba[0]);
    OpenerAccepted(a, b, ab, ba, bDown);
    ReceiveKeeps(a, buffered, ba[0]);
    FlowTaken(a, b, ab, ba, aDown, bDown, buffered);
    ReceivePlain(a, buffered, ba[0]);
    OpenPhase(a, out.st, b, ab, ba, bDown, Emit(aDown, out.sent));
  }

  lemma ReceivePlain(st: Stream, buffered: int, m: AppMsg)
    requires !Answer(m)
    ensures Plain(st, Receive(st, buffered, m))
  {
  }

  // ---- To the acceptor ----

  lemma AcceptorReceive(a: Stream, b: Stream, ab: seq<AppMsg>, ba: seq<AppMsg>, aDown: bool, bDown: bool, buffered: int)
    requires PairInv(a, Some(b), ab, ba, aDown, bDown) && Ready(b, buffered) && ab != []
    ensures !ab[0].AppOpen?
    ensures var out := Reception(b, buffered, ab[0]);
            PairInv(a, Some(out.st), ab[1..], ba + Emit(bDown, out.sent), aDown, bDown) && Peaceful(out, a.tx.early)
  {
    hide Linked, Receive, Peaceful, Sane;
    Flip(a, b, ab, ba, aDown, bDown);
    if !b.attached {
      IgnoredTaken(b, a, ba, ab, bDown, aDown);
      Flip(b, a, ba, ab[1..], bDown, aDown);
      IdlePeaceful(b, buffered, a.tx.early);
      assert ba + Emit(bDown, []) == ba;
    } else if b.hs.accepting {
      DecidingReceive(a, b, ab, ba, aDown, bDown, buffered);
    } else {
      DecidedReceive(a, b, ab, ba, aDown, bDown, buffered);
    }
  }

  lemma IdlePeaceful(st: Stream, buffered: int, early: bool)
    ensures Peaceful(Out(st, buffered, [], Done), early)
  {
  }

  lemma ResetLeaves(st: Stream, buffered: int, fault: Fault)
    ensures var out := RemoteReset(st, buffered, fault);
            && out.sent == [] && out.st.tx == st.tx && out.st.rx == st.rx && out.st.handle == st.handle
            && out.st.id == st.id && out.st.inbound == st.inbound
            && out.st.hs.accepting == st.hs.accepting && out.st.hs.handling == st.hs.handling
            && out.st.hs.grant == st.hs.grant
  {
    hide Release;
    var st1 := SetReset(st, fault);
    assert st1 == st.(life := st1.life, hs := st.hs.(opening := st1.hs.opening, readyCloses := st1.hs.readyCloses));
  }

  lemma DecidingReceive(a: Stream, b: Stream, ab: seq<AppMsg>, ba: seq<AppMsg>, aDown: bool, bDown: bool, buffered: int)
    requires PairInv(a, Some(b), ab, ba, aDown, bDown) && Duplex(b, a, ba, ab, bDown, aDown)
    requires Ready(b, buffered) && ab != [] && b.attached && b.hs.accepting
    ensures var out := Receive(b, buffered, ab[0]);
            PairInv(a, Some(out.st), ab[1..], ba + Emit(bDown, out.sent), aDown, bDown) && Peaceful(out, a.tx.early)
  {
    hide Linked, Sane, RemoteReset;
    var fault := Fault(ab[0].code, ab[0].message);
    var out := RemoteReset(b, buffered, fault);
    ResetMsgTaken(b, a, ba, ab, bDown, aDown, buffered, fault);
    Flip(out.st, a, ba + Emit(bDown, out.sent), ab[1..], bDown, aDown);
    ResetLeaves(b, buffered, fault);
    assert ba + Emit(bDown, out.sent) == ba;
  }

  lemma DecidedReceive(a: Stream, b: Stream, ab: seq<AppMsg>, ba: seq<AppMsg>, aDown: bool, bDown: bool, buffered: int)
    requires PairInv(a, Some(b), ab, ba, aDown, bDown) && Duplex(b, a, ba, ab, bDown, aDown)
    requires Ready(b, buffered) && ab != [] && b.attached && !b.hs.accepting
    ensures var out := Receive(b, buffered, ab[0]);
            PairInv(a, Some(out.st), ab[1..], ba + Emit(bDown, out.sent), aDown, bDown) && Peaceful(out, a.tx.early)
  {
    hide Linked, Receive, Peaceful, Sane;
    var out := Receive(b, buffered, ab[0]);
    AcceptorOpen(b);
    ReceiveKeeps(b, buffered, ab[0]);
    FlowTaken(b, a, ba, ab, bDown, aDown, buffered);
    ReceivePlain(b, buffered, ab[0]);
    Flip(out.st, a, ba + Emit(bDown, out.sent), ab[1..], bDown, aDown);
  }

  lemma AcceptorOpen(b: Stream)
    requires Sane(b) && b.inbound && b.attached
    ensures b.life.reset.None? && !b.hs.opening
  {
  }

  /** APP_OPEN reaches a session with room for it: the acceptor's end comes into being. */
  lemma OpenArrives(a: Stream, ab: seq<AppMsg>, ba: seq<AppMsg>, aDown: bool, bDown: bool)
    requires PairInv(a, None, ab, ba, aDown, bDown) && ab != [] && ab[0].AppOpen? && !bDown
    ensures GoodOpen(ab[0]) && ab[0].streamID == a.id
    ensures PairInv(a, Some(NewStream(a.id, true)), ab[1..], ba, aDown, bDown)
  {
    var b := NewStream(a.id, true);
    NewStreamSane(a.id, true);
    QuietCarriesNothing(ab[1..]);
  }

  /** APP_OPEN reaches a session without room. */
  lemma OpenRefused(a: Stream, ab: seq<AppMsg>, ba: seq<AppMsg>, aDown: bool, bDown: bool, m: AppMsg)
    requires PairInv(a, None, ab, ba, aDown, bDown) && ab != [] && ab[0].AppOpen? && m.AppReject?
    ensures PairInv(a, None, ab[1..], ba + [m], aDown, bDown)
  {
    QuietCarriesNothing(ab[1..]);
  }

  /** Anything else about a stream the acceptor does not know is dropped. */
  lemma UnknownDropped(a: Stream, ab: seq<AppMsg>, ba: seq<AppMsg>, aDown: bool, bDown: bool)
    requires PairInv(a, None, ab, ba, aDown, bDown) && ab != [] && !ab[0].AppOpen?
    ensures PairInv(a, None, ab[1..], ba, aDown, bDown)
  {
    QuietCarriesNothing(ab);
    QuietCarriesNothing(ab[1..]);
  }

  // ---- The connection of one end is lost ----

  lemma OpenerLost(a: Stream, b: Option<Stream>, ab: seq<AppMsg>, ba: seq<AppMsg>, aDown: bool, bDown: bool)
    requires PairInv(a, b, ab, ba, aDown, bDown)
    ensures PairInv(Lost(a), b, ab, ba, true, bDown)
  {
    LostSane(a);
    if b.Some? {
      LostKept(a, b.value, ab, ba, aDown, bDown);
    }
  }

  lemma AcceptorLost(a: Stream, b: Stream, ab: seq<AppMsg>, ba: seq<AppMsg>, aDown: bool, bDown: bool)
    requires PairInv(a, Some(b), ab, ba, aDown, bDown)
    ensures PairInv(a, Some(Lost(b)), ab, ba, aDown, true)
  {
    LostSane(b);
    Flip(a, b, ab, ba, aDown, bDown);
    LostKept(b, a, ba, ab, bDown, aDown);
    Flip(Lost(b), a, ba, ab, true, aDown);
  }

  lemma LostKept(x: Stream, y: Stream, xy: seq<AppMsg>, yx: seq<AppMsg>, xDown: bool, yDown: bool)
    requires Duplex(x, y, xy, yx, xDown, yDown)
    ensures Duplex(Lost(x), y, xy, yx, true, yDown)
  {
    LostSane(x);
    if x.attached {
      Kill(x, y, xy, yx, xDown, yDown, Lost(x), xy, true);
    }
  }

  /** An acceptor that has no stream loses its connection, or has lost it. */
  lemma NobodyLost(a: Stream, ab: seq<AppMsg>, ba: seq<AppMsg>, aDown: bool, bDown: bool, bDown': bool)
    requires PairInv(a, None, ab, ba, aDown, bDown)
    ensures PairInv(a, None, ab, ba, aDown, bDown')
  {
  }
}
