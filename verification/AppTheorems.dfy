/** What holds in every run of a host and a guest, in terms of bytes, credit and errors. */
module AppTheorems {
  import opened Basics
  import opened AppLimits
  import opened AppMessages
  import opened AppStream
  import opened AppStreamProofs
  import opened AppSession
  import opened AppSessionProofs
  import opened AppPair
  import opened AppPhase
  import opened AppContracts
  import opened AppSystem

  /** Both ends of stream `id` exist. */
  predicate Paired(sys: System, id: nat) {
    id in sys.host.streams && id in sys.guest.streams
  }

  function StreamAt(sys: System, side: bool, id: nat): Stream
    requires Paired(sys, id)
  {
    End(sys, side).streams[id]
  }

  /** What one side has put on the wire about a stream and the other has not taken yet. */
  function InFlight(sys: System, side: bool, id: nat): seq<AppMsg> {
    Proj(Sent(sys, side), id)
  }

  lemma FlowAt(sys: System, side: bool, id: nat)
    requires SysInv(sys) && Paired(sys, id)
    ensures Sane(StreamAt(sys, side, id))
    ensures Flow(StreamAt(sys, side, id), StreamAt(sys, !side, id), InFlight(sys, side, id), InFlight(sys, !side, id))
    ensures Told(StreamAt(sys, side, id), StreamAt(sys, !side, id), InFlight(sys, side, id), End(sys, side).closed)
  {
    hide Sane, Flow, Told, SessionInv;
    assert PairAt(sys, id);
  }

  /**
   Bytes: in every run, for each direction of each stream, what has been read is a prefix of what
   was written; while the receiver is in its table and the sender is too, or has at least not been
   reset and not closed early, the written bytes are the read ones, the receive queue, the wire, the
   chunk in the write loop's hands and the send queue, in this order; and a receiver that has seen
   the close has everything exactly if the close did not overtake a chunk.
   */
  lemma Fidelity(evs: seq<Event>, side: bool, id: nat)
    requires Paired(Run(Start(), evs), id)
    ensures var sys := Run(Start(), evs);
            var s, r := StreamAt(sys, side, id), StreamAt(sys, !side, id);
            && r.rx.got <= s.tx.wrote
            && (r.attached && s.life.reset.None? && (s.attached || !s.tx.early) ==>
                  s.tx.wrote ==
                  r.rx.got + Flat(r.rx.inQ) + Payload(InFlight(sys, side, id)) + s.tx.held + Flat(s.tx.sendQ))
            && (r.life.reset.None? && r.rx.remoteClosed ==>
                  s.tx.localClosed && (s.tx.wrote == r.rx.got + Flat(r.rx.inQ) <==> !s.tx.early))
  {
    hide Sane, Told;
    StartInv();
    RunInv(Start(), evs);
    FlowAt(Run(Start(), evs), side, id);
  }

  /**
   A Read that returns EOF means that the peer has closed; it has returned everything the peer's
   Write accepted exactly if the peer's CloseWrite did not overtake a chunk in its write loop.
   */
  lemma EofComplete(evs: seq<Event>, side: bool, id: nat, room: nat)
    requires Next(End(Run(Start(), evs), side), ReadCall(id, room)).res.Eof?
    ensures Paired(Run(Start(), evs), id)
    ensures var sys := Run(Start(), evs);
            var r, s := StreamAt(sys, side, id), StreamAt(sys, !side, id);
            s.tx.localClosed && (r.rx.got == s.tx.wrote <==> !s.tx.early)
  {
    hide Run, Read;
    var sys := Run(Start(), evs);
    StartInv();
    RunInv(Start(), evs);
    HandleSeen(End(sys, side), id, room);
    HandlePaired(sys, side, id);
    var r := StreamAt(sys, side, id);
    EofSeen(r, End(sys, side).buffered, room);
    Fidelity(evs, !side, id);
    assert r.rx.got + [] == r.rx.got;
  }

  lemma HandleSeen(s: Session, id: nat, room: nat)
    requires Next(s, ReadCall(id, room)).res.Eof?
    ensures id in s.streams && s.streams[id].handle && Read(s.streams[id], s.buffered, room).res.Eof?
  {
    hide Read;
  }

  lemma EofSeen(r: Stream, buffered: int, room: nat)
    requires Read(r, buffered, room).res.Eof?
    ensures r.life.reset.None? && r.rx.inQ == [] && r.rx.remoteClosed
  {
    hide MaybeFinish, DropFront;
  }

  /** A stream the application holds has its other end. */
  lemma HandlePaired(sys: System, side: bool, id: nat)
    requires SysInv(sys) && id in End(sys, side).streams && End(sys, side).streams[id].handle
    ensures Paired(sys, id)
  {
    hide SessionInv, GuestID;
    assert PairAt(sys, id);
  }

  /**
   Credit: between two ends in their tables the sender's credit, the bytes in its hands and on the
   wire and the credit on its way back make up the receiver's window, and the window and the unread
   bytes make up the initial window.
   */
  lemma CreditConserved(evs: seq<Event>, side: bool, id: nat)
    requires Paired(Run(Start(), evs), id)
    ensures var sys := Run(Start(), evs);
            var s, r := StreamAt(sys, side, id), StreamAt(sys, !side, id);
            s.attached && r.attached && !s.hs.accepting && !r.hs.accepting ==>
              && s.tx.sndCredit + |s.tx.held| + |Payload(InFlight(sys, side, id))| + Grants(InFlight(sys, !side, id))
                 == r.rx.rcvWindow
              && r.rx.rcvWindow + |Flat(r.rx.inQ)| == AppInitialWindow
  {
    StartInv();
    RunInv(Start(), evs);
    FlowAt(Run(Start(), evs), side, id);
    FlowAt(Run(Start(), evs), !side, id);
  }

  /**
   Flow control never deadlocks: a sender without credit has bytes in its hands, or bytes or
   credit are under way, or its peer has bytes to read.
   */
  lemma NoCreditDeadlock(evs: seq<Event>, side: bool, id: nat)
    requires Paired(Run(Start(), evs), id)
    ensures var sys := Run(Start(), evs);
            var s, r := StreamAt(sys, side, id), StreamAt(sys, !side, id);
            s.attached && r.attached && !s.hs.accepting && !r.hs.accepting && s.tx.sndCredit == 0 ==>
              || s.tx.held != [] || Payload(InFlight(sys, side, id)) != [] || Grants(InFlight(sys, !side, id)) > 0
              || r.rx.inQ != []
  {
    CreditConserved(evs, side, id);
  }

  /**
   In every run a message of a correct peer is taken, ignored, or refused for want of room or of
   memory. The one exception is data behind a close that overtook it: it is refused as data after
   close, and no other protocol-error branch ever fires.
   */
  lemma NoProtocolViolation(evs: seq<Event>, side: bool)
    ensures var sys := Run(Start(), evs);
            !End(sys, side).closed && Sent(sys, !side) != [] ==> CivilArrival(sys, side)
  {
    hide SysInv, CivilArrival, Run;
    StartInv();
    RunInv(Start(), evs);
    var sys := Run(Start(), evs);
    if !End(sys, side).closed && Sent(sys, !side) != [] {
      ArriveCivil(sys, side);
    }
  }

  lemma ArriveCivil(sys: System, side: bool)
    requires SysInv(sys) && !End(sys, side).closed && Sent(sys, !side) != []
    ensures CivilArrival(sys, side)
  {
    hide SysInv;
    if Fits(Sent(sys, !side)[0]) {
      DeliverInv(sys, side);
    }
  }

  /** A stream ID given out by Open is non-zero, carries the local bit and is new to both sides and both wires. */
  lemma OpenedIsNew(evs: seq<Event>, side: bool, service: Bytes, meta: Bytes)
    ensures var sys := Run(Start(), evs);
            var e := Next(End(sys, side), OpenCall(service, meta));
            e.res.Opened? ==>
              && 0 < e.res.id < Uint32Space && GuestID(e.res.id) == side
              && e.res.id !in sys.host.streams && e.res.id !in sys.guest.streams
              && InFlight(sys, false, e.res.id) == [] && InFlight(sys, true, e.res.id) == []
  {
    hide SessionInv, PairInv;
    StartInv();
    RunInv(Start(), evs);
    var sys := Run(Start(), evs);
    var e := Next(End(sys, side), OpenCall(service, meta));
    if e.res.Opened? {
      OpenFresh(End(sys, side));
      assert PairAt(sys, e.res.id);
    }
  }

  // ---- Nothing left to do ----

  /** Steps that carry bytes and closes along: the write loop, Read, and the return of Open. */
  predicate Carrying(c: Call) {
    c.LoopTake? || c.LoopSend? || c.ReadCall? || c.OpenReady?
  }

  ghost predicate Stuck(sys: System) {
    forall ev: Event :: ev.Arrive? || Carrying(ev.c) ==> StepTo(sys, ev) == sys
  }

  lemma ArriveShortens(sys: System, side: bool)
    requires !End(sys, !side).closed && Sent(sys, side) != []
    ensures StepTo(sys, Arrive(!side)) != sys
  {
    hide Next;
    assert |Sent(StepTo(sys, Arrive(!side)), side)| < |Sent(sys, side)|;
  }

  lemma StuckWires(sys: System, side: bool)
    requires Stuck(sys) && !End(sys, !side).closed
    ensures Sent(sys, side) == []
  {
    hide StepTo;
    if Sent(sys, side) != [] {
      ArriveShortens(sys, side);
    }
  }

  /** A stream of a stuck open session answers no carrying call. */
  lemma StuckStream(sys: System, side: bool, id: nat, c: Call)
    requires Stuck(sys) && !End(sys, side).closed && id in End(sys, side).streams && Carrying(c) && c.id == id
    ensures StreamCall(End(sys, side).streams[id], End(sys, side).buffered, false, c).st == End(sys, side).streams[id]
  {
    hide StreamCall;
    var s := End(sys, side);
    var sys' := StepTo(sys, Local(side, c));
    assert sys' == sys;
    assert End(sys', side).streams[id] == StreamCall(s.streams[id], s.buffered, false, c).st;
  }

  lemma StuckSender(st: Stream, buffered: int)
    requires Sane(st) && st.handle && st.life.reset.None?
    requires StreamCall(st, buffered, false, LoopTake(st.id)).st == st
    requires StreamCall(st, buffered, false, LoopSend(st.id)).st == st
    ensures st.tx.held == [] && (st.tx.sndCredit > 0 ==> st.tx.sendQ == [])
    ensures st.tx.closeAfterFlush && st.tx.sendQ == [] ==> st.tx.localClosed
  {
    var out := StreamCall(st, buffered, false, LoopTake(st.id)).st;
    assert st.tx.held == [] && st.writer && st.tx.sendQ != [] && st.tx.sndCredit > 0 ==> out.tx.held != [];
  }

  lemma StuckReceiver(st: Stream, buffered: int)
    requires Sane(st) && st.handle && st.life.reset.None?
    requires StreamCall(st, buffered, false, ReadCall(st.id, 1)).st == st
    ensures st.rx.inQ == []
  {
    var out := StreamCall(st, buffered, false, ReadCall(st.id, 1)).st;
    assert st.rx.inQ != [] ==> |out.rx.got| == |st.rx.got| + 1;
  }

  /** The pair form: two unreset ends, empty wires, nothing in hand, nothing to read. */
  lemma DrainedPair(s: Stream, r: Stream)
    requires Sane(s) && Sane(r) && Flow(s, r, [], [])
    requires s.handle && r.handle && s.life.reset.None? && r.life.reset.None?
    requires s.tx.held == [] && (s.tx.sndCredit > 0 ==> s.tx.sendQ == []) && r.rx.inQ == []
    requires s.tx.closeAfterFlush && s.tx.sendQ == [] ==> s.tx.localClosed
    ensures r.rx.got == s.tx.wrote <==> !s.tx.early
    ensures s.tx.closeAfterFlush ==> r.rx.remoteClosed && s.tx.localClosed && s.tx.sendQ == []
  {
    assert Payload([]) == [] && Grants([]) == 0 && !Closing([]);
    assert r.rx.got + [] == r.rx.got && r.rx.got + [] + [] + [] + [] == r.rx.got;
  }

  /**
   Delivery: when in an open system no message is under way, no write loop can go on and no Read
   can return, then on every stream that neither end has reset every half-close has been sent and seen,
   everything written has been read exactly if the close did not overtake a chunk, and an end whose
   stream both have closed has left its table and reported StreamClosed.
   */
  lemma Drained(evs: seq<Event>, side: bool, id: nat)
    requires Stuck(Run(Start(), evs)) && Paired(Run(Start(), evs), id)
    requires !Run(Start(), evs).host.closed && !Run(Start(), evs).guest.closed
    ensures var sys := Run(Start(), evs);
            var s, r := StreamAt(sys, side, id), StreamAt(sys, !side, id);
            s.handle && r.handle && s.life.reset.None? && r.life.reset.None? ==>
              && (r.rx.got == s.tx.wrote <==> !s.tx.early)
              && (s.tx.closeAfterFlush ==> s.tx.localClosed && r.rx.remoteClosed)
              && (s.tx.closeAfterFlush && r.tx.closeAfterFlush ==> EndedCleanly(End(sys, side), id))
  {
    hide Flow, Sane, Told, StreamCall, SysInv;
    StartInv();
    RunInv(Start(), evs);
    var sys := Run(Start(), evs);
    var s, r := StreamAt(sys, side, id), StreamAt(sys, !side, id);
    if s.handle && r.handle && s.life.reset.None? && r.life.reset.None? {
      FlowAt(sys, side, id);
      FlowAt(sys, !side, id);
      StuckWires(sys, side);
      StuckWires(sys, !side);
      IDs(sys, side, id);
      IDs(sys, !side, id);
      StuckStream(sys, side, id, LoopTake(id));
      StuckStream(sys, side, id, LoopSend(id));
      StuckStream(sys, !side, id, ReadCall(id, 1));
      StuckSender(s, End(sys, side).buffered);
      StuckReceiver(r, End(sys, !side).buffered);
      StuckStream(sys, !side, id, LoopTake(id));
      StuckStream(sys, !side, id, LoopSend(id));
      StuckStream(sys, side, id, ReadCall(id, 1));
      StuckSender(r, End(sys, !side).buffered);
      StuckReceiver(s, End(sys, side).buffered);
      DrainedPair(s, r);
      DrainedPair(r, s);
      if s.tx.closeAfterFlush && r.tx.closeAfterFlush {
        StuckEnded(End(sys, side), id);
      }
    }
  }

  /** A stream that is over and at which a Read changes nothing has ended. */
  lemma StuckEnded(s: Session, id: nat)
    requires id in s.streams && Sane(s.streams[id]) && s.streams[id].handle && Over(s.streams[id])
    requires StreamCall(s.streams[id], s.buffered, false, ReadCall(id, 1)).st == s.streams[id]
    ensures EndedCleanly(s, id)
  {
    hide Sane, MaybeFinish;
    EofEnds(s.streams[id], s.buffered, 1);
  }

  lemma IDs(sys: System, side: bool, id: nat)
    requires SysInv(sys) && Paired(sys, id)
    ensures StreamAt(sys, side, id).id == id
  {
    NamedByKey(End(sys, side), id);
  }
}
