/**
 What an overtaking CloseWrite does: data behind a close on the wire, and a chunk that
 is never read, in every continuation of every run.
 */
module AppRace {
  import opened Basics
  import opened AppLimits
  import opened AppMessages
  import opened AppStream
  import opened AppStreamProofs
  import opened AppSession
  import opened AppSessionProofs
  import opened AppPair
  import opened AppDuplex
  import opened AppPhase
  import opened AppDelivery
  import opened AppSystem
  import opened AppTheorems
  import opened AppLifecycle
  import opened AppCalm

  // ---- On the wire ----

  /** No data follows a close. */
  predicate Ordered(w: seq<AppMsg>) {
    Payload(w) == Before(w)
  }

  /** The wire of an end that has not closed early is in order. */
  lemma InOrder(s: Stream, r: Stream, sr: seq<AppMsg>, rs: seq<AppMsg>)
    requires Flow(s, r, sr, rs) && r.attached && r.life.reset.None? && !s.tx.early
    ensures Ordered(sr)
  {
    hide Payload, Before, Closing, Clean, Have;
    BeforeIsFirst(sr);
  }

  /** CloseWrite, then the write loop's pending send: what they put on the wire. */
  function CloseThenSend(x: Stream, buffered: int): seq<AppMsg> {
    var out := CloseWrite(x, buffered);
    out.sent + WriterSend(out.st, out.buffered).sent
  }

  lemma CalmOrder(x: Stream, y: Stream, xy: seq<AppMsg>, yx: seq<AppMsg>, yDown: bool, buffered: int)
    requires Duplex(x, y, xy, yx, false, yDown) && Ready(x, buffered) && x.handle && y.attached
    requires !x.tx.early && !Overtakes(x)
    ensures Ordered(xy + CloseThenSend(x, buffered))
  {
    hide Sane, Told, Flow, Evolves, CloseWrite, WriterSend, Ordered;
    var out := CloseWrite(x, buffered);
    var sent := WriterSend(out.st, out.buffered);
    CloseWriteKept(x, y, xy, yx, false, yDown, buffered);
    CloseWriteReady(x, buffered);
    CloseEarly(x, buffered);
    WriterSendKept(out.st, y, xy + out.sent, yx, false, yDown, out.buffered);
    SendPunctual(out.st, out.buffered);
    AttachedUnreset(y);
    assert xy + out.sent + sent.sent == xy + CloseThenSend(x, buffered);
    InOrder(sent.st, y, xy + CloseThenSend(x, buffered), yx);
  }

  lemma SendPunctual(x: Stream, buffered: int)
    ensures WriterSend(x, buffered).st.tx.early == x.tx.early
  {
  }

  lemma AttachedUnreset(y: Stream)
    requires Sane(y) && y.attached
    ensures y.life.reset.None? && !y.life.finished
  {
  }

  lemma CloseWriteReady(x: Stream, buffered: int)
    requires Ready(x, buffered) && x.handle
    ensures Ready(CloseWrite(x, buffered).st, CloseWrite(x, buffered).buffered)
  {
    hide CloseWrite, Evolves;
    CloseWriteKeeps(x, buffered);
  }

  lemma OvertakenOrder(x: Stream, xy: seq<AppMsg>)
    requires !HasReset(xy) && x.tx.held != []
    ensures !Ordered(xy + [AppClose(x.id), AppData(x.id, x.tx.held)])
  {
    var c, d := AppClose(x.id), AppData(x.id, x.tx.held);
    Extend(xy, c);
    Extend(xy + [c], d);
    assert xy + [c, d] == xy + [c] + [d];
    BeforeIsFirst(xy);
  }

  /** Exactly when the write loop holds the last chunk does data follow the close on the wire. */
  lemma CloseOrder(x: Stream, y: Stream, xy: seq<AppMsg>, yx: seq<AppMsg>, yDown: bool, buffered: int)
    requires Duplex(x, y, xy, yx, false, yDown) && Ready(x, buffered) && x.handle && x.attached && y.attached
    requires !x.tx.early
    ensures Ordered(xy + CloseThenSend(x, buffered)) <==> !Overtakes(x)
  {
    hide CloseThenSend, Flow, Ordered;
    if Overtakes(x) {
      SendsInOrder(x, buffered);
      OvertakenOrder(x, xy);
    } else {
      CalmOrder(x, y, xy, yx, yDown, buffered);
    }
  }

  /** The two ends of a stream of the system, seen from one side. */
  lemma DuplexAt(sys: System, side: bool, id: nat)
    requires SysInv(sys) && Paired(sys, id) && StreamAt(sys, side, id).attached
    ensures Duplex(StreamAt(sys, side, id), StreamAt(sys, !side, id), InFlight(sys, side, id), InFlight(sys, !side, id),
                   false, End(sys, !side).closed)
    ensures !End(sys, side).closed && Ready(StreamAt(sys, side, id), End(sys, side).buffered)
  {
    hide Sane, Linked, SessionInv, Ready;
    assert PairAt(sys, id);
    StreamReady(End(sys, side), id);
    OpenSide(End(sys, side), id);
    if GuestID(id) != side {
      Flip(StreamAt(sys, !side, id), StreamAt(sys, side, id), InFlight(sys, !side, id), InFlight(sys, side, id),
           End(sys, !side).closed, false);
    }
  }

  lemma OpenSide(s: Session, id: nat)
    requires SessionInv(s) && id in s.streams && s.streams[id].attached
    ensures !s.closed
  {
    assert StreamOk(s, id);
  }

  /** A call on a stream of an open session: the stream, the ledger and the wire afterwards. */
  lemma CallTo(sys: System, side: bool, c: Call)
    requires !End(sys, side).closed && (c.CloseCall? || c.LoopSend?) && c.id in End(sys, side).streams
    ensures var s := End(sys, side);
            var out := StreamCall(s.streams[c.id], s.buffered, false, c);
            var sys' := StepTo(sys, Local(side, c));
            && End(sys', side) == s.(streams := s.streams[c.id := out.st], buffered := out.buffered)
            && Sent(sys', side) == Sent(sys, side) + out.sent
  {
    hide StreamCall;
  }

  /**
   Calm is exactly what is needed: after any run, a CloseWrite followed by the send of the
   write loop leaves data behind a close on the wire exactly if it is not calm.
   */
  lemma CalmIsExact(evs: seq<Event>, side: bool, id: nat)
    requires Paired(Run(Start(), evs), id)
    requires var sys := Run(Start(), evs);
             && StreamAt(sys, side, id).attached && StreamAt(sys, side, id).handle
             && StreamAt(sys, !side, id).attached && !StreamAt(sys, side, id).tx.early
    ensures var sys := Run(Start(), evs);
            var after := StepTo(StepTo(sys, Local(side, CloseCall(id))), Local(side, LoopSend(id)));
            Ordered(InFlight(after, side, id)) <==> CalmEvent(sys, Local(side, CloseCall(id)))
  {
    hide SysInv, StepTo, Duplex, Ready, Ordered, CloseThenSend, Run;
    StartInv();
    RunInv(Start(), evs);
    var sys := Run(Start(), evs);
    DuplexAt(sys, side, id);
    IDs(sys, side, id);
    CloseOrder(StreamAt(sys, side, id), StreamAt(sys, !side, id), InFlight(sys, side, id), InFlight(sys, !side, id),
               End(sys, !side).closed, End(sys, side).buffered);
    OnTheWire(sys, side, id);
  }

  lemma OnTheWire(sys: System, side: bool, id: nat)
    requires !End(sys, side).closed && id in End(sys, side).streams
    requires End(sys, side).streams[id].id == id && End(sys, side).streams[id].handle
    ensures var s := End(sys, side);
            var after := StepTo(StepTo(sys, Local(side, CloseCall(id))), Local(side, LoopSend(id)));
            InFlight(after, side, id) == InFlight(sys, side, id) + CloseThenSend(s.streams[id], s.buffered)
  {
    hide StepTo, CloseWrite, WriterSend, Proj;
    var s := End(sys, side);
    var x := s.streams[id];
    var mid := StepTo(sys, Local(side, CloseCall(id)));
    CallTo(sys, side, CloseCall(id));
    CallTo(mid, side, LoopSend(id));
    var out := CloseWrite(x, s.buffered);
    var sent := WriterSend(out.st, out.buffered).sent;
    CloseNames(x, s.buffered);
    ProjSent(Sent(sys, side), out.sent, id, id);
    ProjSent(Sent(sys, side) + out.sent, sent, id, id);
    assert Proj(Sent(sys, side), id) + out.sent + sent == Proj(Sent(sys, side), id) + (out.sent + sent);
  }

  lemma CloseNames(x: Stream, buffered: int)
    ensures About(CloseWrite(x, buffered).sent, x.id)
    ensures About(WriterSend(CloseWrite(x, buffered).st, CloseWrite(x, buffered).buffered).sent, x.id)
  {
    FinishNamed(x.(tx := x.tx.(closeAfterFlush := true, localClosed := true, early := x.tx.held != [])), buffered);
  }

  lemma SendsInOrder(x: Stream, buffered: int)
    requires Overtakes(x) && !x.tx.localClosed
    ensures CloseThenSend(x, buffered) == [AppClose(x.id), AppData(x.id, x.tx.held)]
  {
    var x1 := x.(tx := x.tx.(closeAfterFlush := true, localClosed := true, early := true));
    MaybeFinishInert(x1, buffered);
    assert CloseWrite(x, buffered).st.tx.held == x.tx.held;
    FinishNamed(x1, buffered);
  }

  lemma FinishNamed(x: Stream, buffered: int)
    ensures MaybeFinish(x, buffered).st.id == x.id
  {
  }

  // ---- At the receiver ----

  /** The receiver after these messages about its stream. */
  function Arrivals(y: Stream, buffered: int, w: seq<AppMsg>): Stream
    decreases |w|
  {
    if w == [] then y
    else
      var out := Reception(y, buffered, w[0]);
      Arrivals(out.st, out.buffered, w[1..])
  }

  lemma {:induction false} GoneStays(y: Stream, buffered: int, w: seq<AppMsg>)
    requires !y.attached
    ensures Arrivals(y, buffered, w) == y
    decreases |w|
  {
    if w != [] {
      GoneStays(y, buffered, w[1..]);
    }
  }

  /** Refused, or ended without the chunk. */
  predicate ChunkLost(y: Stream, x: Stream) {
    || y.life.reset == Some(Violation("data after close"))
    || y.life.reset == Some(SessionBufferExceeded)
    || (y.life.reset.None? && y.rx.remoteClosed && y.rx.got + Flat(y.rx.inQ) + x.tx.held == x.tx.wrote)
  }

  function CloseAndChunk(x: Stream): seq<AppMsg> {
    [AppClose(x.id), AppData(x.id, x.tx.held)]
  }

  lemma DrainedRace(x: Stream, y: Stream, yx: seq<AppMsg>, yDown: bool, buffered: int)
    requires Duplex(x, y, [], yx, false, yDown) && Overtakes(x) && x.attached
    requires y.attached && !y.hs.accepting && !y.hs.opening
    ensures ChunkLost(Arrivals(y, buffered, CloseAndChunk(x)), x)
  {
    hide Have, Told, Sane, Deliver;
    var y1 := y.(rx := y.rx.(remoteClosed := true));
    var out := Reception(y, buffered, AppClose(x.id));
    var chunk := AppData(x.id, x.tx.held);
    assert CloseAndChunk(x)[1..] == [chunk] && [chunk][1..] == [];
    assert Arrivals(y, buffered, CloseAndChunk(x)) == Arrivals(out.st, out.buffered, [chunk]);
    assert Arrivals(out.st, out.buffered, [chunk]) == Reception(out.st, out.buffered, chunk).st;
    AttachedUnreset(y);
    SenderPunctual(x);
    assert Payload([]) == [] && Flat(x.tx.sendQ) == [];
    assert Have(y.rx) + [] + x.tx.held + [] == Have(y.rx) + x.tx.held;
    assert !y.rx.remoteClosed && out == MaybeFinish(y1, buffered);
    MaybeFinishInert(y1, buffered);
    if out.st.attached {
      HeldSize(x);
      FinishOpen(y1, buffered);
      ViolationResets(out.st, out.buffered, x.tx.held);
    } else {
      HaveIs(y.rx, out.st.rx);
    }
  }

  lemma HaveIs(rx: Receiver, rx': Receiver)
    requires rx' == rx.(remoteClosed := true)
    ensures Have(rx) == rx'.got + Flat(rx'.inQ)
  {
  }

  lemma HeldSize(x: Stream)
    requires Sane(x)
    ensures |x.tx.held| <= AppMaxDataBytes
  {
  }

  lemma FinishOpen(y: Stream, buffered: int)
    ensures MaybeFinish(y, buffered).st.hs == y.hs
  {
  }

  /** A message that was on the wire before the close. */
  lemma OneBefore(x: Stream, y: Stream, xy: seq<AppMsg>, yx: seq<AppMsg>, yDown: bool, buffered: int)
    requires xy != [] && Duplex(y, x, yx, xy, yDown, false) && Ready(y, buffered) && NoAnswers(xy)
    requires x.life.reset.None? && !x.tx.localClosed && !x.tx.early
    requires y.attached && !y.hs.accepting && !y.hs.opening
    ensures var out := Receive(y, buffered, xy[0]);
            if out.st.attached then !out.st.hs.accepting && !out.st.hs.opening
            else out.st.life.reset == Some(SessionBufferExceeded)
  {
    hide Sane, Payload, Before, Have, Clean, ResetRemote;
    assert !HasReset(xy) && !Closing(xy);
    AttachedUnreset(y);
    assert xy[0].AppData? || xy[0].AppCredit?;
    if xy[0].AppData? {
      DataWelcome(y, x, yx, xy, buffered);
      ResetHow(y, buffered, SessionBufferExceeded);
    } else {
      SaneWindowed(y);
      CreditAdded(y, x, yx, xy, buffered);
    }
  }

  lemma SaneWindowed(y: Stream)
    requires Sane(y)
    ensures Windowed(y)
  {
  }

  lemma ResetHow(y: Stream, buffered: int, fault: Fault)
    requires y.life.reset.None? && !y.life.finished
    ensures var out := ResetRemote(y, buffered, fault); out.st.life.reset == Some(fault) && !out.st.attached
  {
  }

  /**
   Whatever is still on the wire ahead of it: once the overtaking close and the overtaken chunk have
   arrived, the receiver has reset the stream, or it has ended cleanly and its reader sees EOF
   without the chunk.
   */
  lemma {:induction false} RaceLosesTheChunk(x: Stream, y: Stream, xy: seq<AppMsg>, yx: seq<AppMsg>, yDown: bool,
                                             buffered: int)
    requires Duplex(x, y, xy, yx, false, yDown) && Ready(y, buffered) && NoAnswers(xy)
    requires Overtakes(x) && x.attached && y.attached && !y.hs.accepting && !y.hs.opening
    ensures ChunkLost(Arrivals(y, buffered, xy + CloseAndChunk(x)), x)
    decreases |xy|
  {
    hide Sane, Linked, Receive, ChunkLost, CloseAndChunk, Ready;
    if xy == [] {
      assert xy + CloseAndChunk(x) == CloseAndChunk(x);
      DrainedRace(x, y, yx, yDown, buffered);
    } else {
      var w, rest := xy + CloseAndChunk(x), xy[1..] + CloseAndChunk(x);
      assert w[0] == xy[0] && w[1..] == rest;
      var out := Receive(y, buffered, xy[0]);
      Flip(x, y, xy, yx, false, yDown);
      AttachedUnreset(y);
      SenderPunctual(x);
      FlowTaken(y, x, yx, xy, yDown, false, buffered);
      OneBefore(x, y, xy, yx, yDown, buffered);
      ReceiveReady(y, buffered, xy[0]);
      if out.st.attached {
        Flip(out.st, x, yx + Emit(yDown, out.sent), xy[1..], yDown, false);
        RaceLosesTheChunk(x, out.st, xy[1..], yx + Emit(yDown, out.sent), yDown, out.buffered);
      } else {
        GoneStays(out.st, out.buffered, rest);
        RefusedIsLost(out.st, x);
      }
    }
  }

  lemma SenderPunctual(x: Stream)
    requires Sane(x) && !x.tx.closeAfterFlush
    ensures !x.tx.localClosed && !x.tx.early
  {
  }

  lemma ReceiveReady(y: Stream, buffered: int, m: AppMsg)
    requires Ready(y, buffered) && y.attached
    ensures Ready(Receive(y, buffered, m).st, Receive(y, buffered, m).buffered)
  {
    hide Receive, Sane, Evolves;
    ReceiveKeeps(y, buffered, m);
  }

  lemma RefusedIsLost(y: Stream, x: Stream)
    requires y.life.reset == Some(SessionBufferExceeded)
    ensures ChunkLost(y, x)
  {
  }

  lemma ViolationResets(y: Stream, buffered: int, chunk: Bytes)
    requires y.rx.remoteClosed && y.life.reset.None? && !y.hs.accepting && !y.hs.opening
    requires 1 <= |chunk| <= AppMaxDataBytes
    ensures Deliver(y, buffered, chunk).st.life.reset == Some(Violation("data after close"))
  {
  }

  // ---- In every run ----

  predicate OvertakesAt(sys: System, side: bool, id: nat) {
    id in End(sys, side).streams && Overtakes(End(sys, side).streams[id])
  }

  lemma OvertakerPaired(sys: System, side: bool, id: nat)
    requires SysInv(sys) && OvertakesAt(sys, side, id)
    ensures Paired(sys, id)
  {
    hide SysInv;
    HandlePaired(sys, side, id);
  }

  /** What a receiver whose peer is about to overtake itself looks like. */
  predicate Facing(y: Stream, w: seq<AppMsg>) {
    if !y.attached then y.life.reset.Some?
    else
      && !y.hs.accepting
      && if y.hs.opening then w != [] && w[0].AppAccept? && NoAnswers(w[1..]) && y.tx.sndCredit == 0 else NoAnswers(w)
  }

  lemma OvertakerFaces(sys: System, side: bool, id: nat)
    requires SysInv(sys) && Paired(sys, id) && Overtakes(StreamAt(sys, side, id))
    ensures StreamAt(sys, side, id).attached && !End(sys, side).closed
    ensures Facing(StreamAt(sys, !side, id), InFlight(sys, side, id))
  {
    hide SessionInv, Proj, Told;
    FlowAt(sys, side, id);
    FlowAt(sys, !side, id);
    assert PairAt(sys, id);
    if End(sys, side).closed {
      GoneWhenClosed(End(sys, side), id);
    }
  }

  /** The accept that a receiver still in the open handshake takes first. */
  lemma AcceptFirst(x: Stream, y: Stream, xy: seq<AppMsg>, yx: seq<AppMsg>, yDown: bool, buffered: int)
    requires Duplex(x, y, xy, yx, false, yDown) && Ready(y, buffered) && y.attached && y.hs.opening
    requires Facing(y, xy)
    ensures var out := Receive(y, buffered, xy[0]);
            && Duplex(x, out.st, xy[1..], yx, false, yDown) && Ready(out.st, out.buffered)
            && out.st.attached && !out.st.hs.accepting && !out.st.hs.opening
  {
    hide Sane, Linked;
    var out := Receive(y, buffered, xy[0]);
    Flip(x, y, xy, yx, false, yDown);
    AcceptTaken(y, x, yx, xy, yDown, false, buffered);
    ReceiveReady(y, buffered, xy[0]);
    assert yx + Emit(yDown, out.sent) == yx;
    Flip(out.st, x, yx, xy[1..], yDown, false);
  }

  /** The receiver has been reset, or has seen the close and not the chunk. */
  predicate ChunkMissed(y: Stream, x: Stream) {
    y.life.reset.Some? || (y.rx.remoteClosed && y.rx.got + Flat(y.rx.inQ) + x.tx.held == x.tx.wrote)
  }

  lemma RaceFacing(x: Stream, y: Stream, xy: seq<AppMsg>, yx: seq<AppMsg>, yDown: bool, buffered: int)
    requires Duplex(x, y, xy, yx, false, yDown) && Ready(y, buffered) && Facing(y, xy)
    requires Overtakes(x) && x.attached
    ensures ChunkMissed(Arrivals(y, buffered, xy + CloseAndChunk(x)), x)
  {
    hide Linked, Sane, Receive, CloseAndChunk, Ready;
    var w := xy + CloseAndChunk(x);
    if !y.attached {
      GoneStays(y, buffered, w);
    } else if y.hs.opening {
      AcceptFirst(x, y, xy, yx, yDown, buffered);
      var out := Receive(y, buffered, xy[0]);
      assert w[0] == xy[0] && w[1..] == xy[1..] + CloseAndChunk(x);
      RaceLosesTheChunk(x, out.st, xy[1..], yx, yDown, out.buffered);
    } else {
      RaceLosesTheChunk(x, y, xy, yx, yDown, buffered);
    }
  }

  lemma EndReady(sys: System, side: bool, id: nat)
    requires SysInv(sys) && id in End(sys, side).streams
    ensures Ready(End(sys, side).streams[id], End(sys, side).buffered)
  {
    hide SessionInv, PairAt, Ready;
    StreamReady(End(sys, side), id);
  }

  /**
   In every run, wherever the receiver is: once everything under way, the overtaking close and the
   overtaken chunk have arrived, it has been reset or has seen the close without the chunk.
   */
  lemma RaceInRuns(evs: seq<Event>, side: bool, id: nat)
    requires OvertakesAt(Run(Start(), evs), side, id)
    ensures Paired(Run(Start(), evs), id)
    ensures var sys := Run(Start(), evs);
            var x, y := StreamAt(sys, side, id), StreamAt(sys, !side, id);
            ChunkMissed(Arrivals(y, End(sys, !side).buffered, InFlight(sys, side, id) + CloseAndChunk(x)), x)
  {
    hide SysInv, Overtakes, Facing, Run, Duplex, ChunkMissed;
    StartInv();
    RunInv(Start(), evs);
    var sys := Run(Start(), evs);
    OvertakerPaired(sys, side, id);
    OvertakerFaces(sys, side, id);
    DuplexAt(sys, side, id);
    EndReady(sys, !side, id);
    RaceFacing(StreamAt(sys, side, id), StreamAt(sys, !side, id), InFlight(sys, side, id), InFlight(sys, !side, id),
               End(sys, !side).closed, End(sys, !side).buffered);
  }

  /**
   In every run: an end that has closed early has written bytes that its peer has not read and never
   will; and once its messages have been taken, its peer has been reset or has seen the close.
   */
  lemma EarlyLosesBytes(evs: seq<Event>, side: bool, id: nat)
    requires EarlyAt(Run(Start(), evs), side, id)
    ensures Paired(Run(Start(), evs), id)
    ensures var sys := Run(Start(), evs);
            var s, r := StreamAt(sys, side, id), StreamAt(sys, !side, id);
            && s.tx.localClosed && |r.rx.got| < |s.tx.wrote|
            && (InFlight(sys, side, id) == [] ==> r.life.reset.Some? || r.rx.remoteClosed)
  {
    hide SysInv, Told;
    StartInv();
    RunInv(Start(), evs);
    var sys := Run(Start(), evs);
    EarlyPaired(sys, side, id);
    FlowAt(sys, side, id);
    FlowAt(sys, !side, id);
    assert !Closing([]);
    EndedHow(sys, side, id);
  }

  lemma EarlyPaired(sys: System, side: bool, id: nat)
    requires SysInv(sys) && EarlyAt(sys, side, id)
    ensures Paired(sys, id)
  {
    hide SessionInv, PairAt;
    OwnSane(End(sys, side), id);
    HandlePaired(sys, side, id);
  }

  /** A peer of an early closer that has left its table unreset has seen a close. */
  lemma EndedHow(sys: System, side: bool, id: nat)
    requires SysInv(sys) && Paired(sys, id) && StreamAt(sys, side, id).tx.early
    ensures var r := StreamAt(sys, !side, id); r.life.reset.None? && !r.attached ==> r.rx.remoteClosed
  {
    hide SessionInv, Linked, Proj;
    assert PairAt(sys, id);
  }

  /**
   So an overtaking CloseWrite is a loss for good: from any state of any run, whatever happens
   after it, the peer never reads the stream to its end.
   */
  lemma OvertakenForGood(evs: seq<Event>, side: bool, id: nat, more: seq<Event>)
    requires OvertakesAt(Run(Start(), evs), side, id)
    ensures var sys := Run(StepTo(Run(Start(), evs), Local(side, CloseCall(id))), more);
            && Paired(sys, id) && StreamAt(sys, side, id).tx.early
            && |StreamAt(sys, !side, id).rx.got| < |StreamAt(sys, side, id).tx.wrote|
  {
    hide SysInv, Run, StepTo;
    var sys, close := Run(Start(), evs), Local(side, CloseCall(id));
    StartInv();
    RunInv(Start(), evs);
    OvertakerPaired(sys, side, id);
    EarlyAfter(sys, side, id);
    StepInv(sys, close);
    StepOnward(sys, close, !side);
    RunOnward(StepTo(sys, close), more, side);
    RunOnward(StepTo(sys, close), more, !side);
    RunTwice(Start(), evs, [close] + more);
    RunOnce(sys, close, more);
    EarlyLosesBytes(evs + ([close] + more), side, id);
  }

  lemma EarlyAfter(sys: System, side: bool, id: nat)
    requires SysInv(sys) && Paired(sys, id) && Overtakes(StreamAt(sys, side, id))
    ensures EarlyAt(StepTo(sys, Local(side, CloseCall(id))), side, id)
  {
    hide StreamCall, SessionInv, PairAt, Sane;
    var s := End(sys, side);
    OwnSane(s, id);
    CallEarly(s.streams[id], s.buffered, s.closed, CloseCall(id));
  }

  lemma RunOnce(sys: System, ev: Event, more: seq<Event>)
    ensures Run(sys, [ev] + more) == Run(StepTo(sys, ev), more)
  {
    assert ([ev] + more)[1..] == more;
  }

  lemma {:induction false} RunTwice(sys: System, evs: seq<Event>, more: seq<Event>)
    ensures Run(sys, evs + more) == Run(Run(sys, evs), more)
    decreases |evs|
  {
    hide StepTo;
    if evs == [] {
      assert evs + more == more;
    } else {
      assert (evs + more)[1..] == evs[1..] + more;
      RunTwice(StepTo(sys, evs[0]), evs[1..], more);
    }
  }
}
