/** If the write loop sent each chunk in the same breath as it dequeues it, every run would be calm. */
module AppAtomic {
  import opened Basics
  import opened AppLimits
  import opened AppMessages
  import opened AppStream
  import opened AppSession
  import opened AppSystem
  import opened AppTheorems
  import opened AppLifecycle
  import opened AppCalm

  /** Every dequeue is directly followed by the send of its chunk. */
  predicate AtomicRun(evs: seq<Event>)
    decreases |evs|
  {
    if evs == [] then true
    else if evs[0].Local? && evs[0].c.LoopTake? then
      |evs| > 1 && evs[1] == Local(evs[0].side, LoopSend(evs[0].c.id)) && AtomicRun(evs[2..])
    else AtomicRun(evs[1..])
  }

  /** No write loop has a chunk in its hands, except perhaps that of one stream. */
  predicate EmptyHanded(s: Session, but: set<nat>) {
    forall id :: id in s.streams && id !in but ==> s.streams[id].tx.held == []
  }

  predicate AllEmptyHanded(sys: System) {
    EmptyHanded(sys.host, {}) && EmptyHanded(sys.guest, {})
  }

  lemma TeardownHolds()
    ensures forall st: Stream, b: int, f: Fault :: ResetRemote(st, b, f).st.tx == st.tx
    ensures forall st: Stream, b: int, f: Fault :: RemoteReset(st, b, f).st.tx == st.tx
    ensures forall st: Stream, b: int :: MaybeFinish(st, b).st.tx == st.tx
  {
  }

  lemma WriteHolds(st: Stream, b: int, p: Bytes)
    ensures Write(st, b, p).st.tx.held == st.tx.held
  {
    hide ResetRemote;
    TeardownHolds();
  }

  lemma ReadHolds(st: Stream, b: int, room: nat)
    ensures Read(st, b, room).st.tx.held == st.tx.held && CloseWrite(st, b).st.tx.held == st.tx.held
  {
    hide MaybeFinish, DropFront;
    TeardownHolds();
  }

  lemma OpenHolds(st: Stream, b: int, closed: bool)
    ensures OpenReturn(st, b, closed).st.tx.held == OpenExpire(st, b).st.tx.held == st.tx.held
  {
    hide ResetRemote;
    TeardownHolds();
  }

  lemma AcceptHolds(st: Stream, b: int, meta: Bytes, closed: bool, fault: Fault)
    ensures AcceptOk(st, b, meta, closed).st.tx.held == AcceptFail(st, b, fault).st.tx.held == st.tx.held
  {
  }

  lemma CallHolds(st: Stream, b: int, closed: bool, c: Call)
    requires !c.LoopTake? && st.tx.held == []
    ensures StreamCall(st, b, closed, c).st.tx.held == []
  {
    hide ResetRemote, Write, Read, CloseWrite, OpenReturn, OpenExpire, AcceptOk, AcceptFail;
    match c
    case OpenReady(_) => OpenHolds(st, b, closed);
    case OpenTimeout(_) => OpenHolds(st, b, closed);
    case WriteCall(_, p) => WriteHolds(st, b, p);
    case ReadCall(_, room) => ReadHolds(st, b, room);
    case CloseCall(_) => ReadHolds(st, b, 0);
    case ResetCall(_, fault) => TeardownHolds();
    case HandlerAccept(_, meta) => AcceptHolds(st, b, meta, closed, OpenContextDone);
    case HandlerReject(_, fault) => AcceptHolds(st, b, [], closed, fault);
    case _ =>
  }

  lemma DeliverHolds(st: Stream, b: int, data: Bytes)
    ensures Deliver(st, b, data).st.tx.held == st.tx.held
  {
    hide ResetRemote;
    TeardownHolds();
  }

  lemma CreditHolds(st: Stream, b: int, n: nat)
    ensures AddCredit(st, b, n).st.tx.held == st.tx.held
  {
    hide ResetRemote;
    TeardownHolds();
  }

  lemma AnswerHolds(st: Stream, b: int, meta: Bytes, grant: nat, fault: Fault)
    ensures HandleAccept(st, b, meta, grant).st.tx.held == HandleReject(st, b, fault).st.tx.held == st.tx.held
  {
    hide ResetRemote, Violation, Release;
    TeardownHolds();
  }

  lemma ReceiveHolds(st: Stream, b: int, m: AppMsg)
    ensures Receive(st, b, m).st.tx.held == st.tx.held
  {
    hide RemoteReset, MaybeFinish, Deliver, AddCredit, HandleAccept, HandleReject;
    match m
    case AppAccept(_, meta, grant) => AnswerHolds(st, b, meta, grant, OpenContextDone);
    case AppReject(_, code, message) => AnswerHolds(st, b, [], 0, Fault(code, message));
    case AppData(_, data) => DeliverHolds(st, b, data);
    case AppCredit(_, n) => CreditHolds(st, b, n);
    case _ => TeardownHolds();
  }

  lemma MessageHolds(s: Session, m: AppMsg)
    requires EmptyHanded(s, {})
    ensures EmptyHanded(HandleMessage(s, m).s, {})
  {
    hide Receive, ValidAppService, Fail;
    if s.closed || !Fits(m) {
      LostHolds(s);
    } else if !m.AppOpen? && m.streamID in Table(s) {
      ReceiveHolds(s.streams[m.streamID], s.buffered, m);
    }
  }

  lemma LostHolds(s: Session)
    requires EmptyHanded(s, {})
    ensures EmptyHanded(Fail(s), {})
  {
    hide RemoteReset;
    TeardownHolds();
  }

  lemma NextHolds(s: Session, c: Call)
    requires EmptyHanded(s, {}) && !c.LoopTake?
    ensures EmptyHanded(Next(s, c).s, {})
  {
    hide StreamCall, HandleMessage, Fail, ValidAppService;
    LostHolds(s);
    if c.Incoming? {
      MessageHolds(s, c.m);
    } else if !c.OpenCall? && !c.ConnectionLost? && c.id in s.streams {
      CallHolds(s.streams[c.id], s.buffered, s.closed, c);
    }
  }

  /** A whole pass of the write loop. */
  lemma PassHolds(s: Session, id: nat)
    requires EmptyHanded(s, {})
    ensures EmptyHanded(Next(Next(s, LoopTake(id)).s, LoopSend(id)).s, {})
  {
    hide WriterTake;
    var t := Next(s, LoopTake(id)).s;
    assert EmptyHanded(t, {id});
  }

  lemma StepHolds(sys: System, ev: Event)
    requires AllEmptyHanded(sys) && !(ev.Local? && ev.c.LoopTake?)
    ensures AllEmptyHanded(StepTo(sys, ev)) && CalmEvent(sys, ev)
  {
    hide Next;
    if ev.Local? {
      NextHolds(End(sys, ev.side), ev.c);
    } else if Sent(sys, !ev.side) != [] {
      NextHolds(End(sys, ev.side), Incoming(Sent(sys, !ev.side)[0]));
    }
  }

  lemma {:induction false} AtomicFrom(sys: System, evs: seq<Event>)
    requires AllEmptyHanded(sys) && AtomicRun(evs)
    ensures CalmRun(sys, evs)
    decreases |evs|
  {
    hide StepTo;
    if evs != [] {
      if evs[0].Local? && evs[0].c.LoopTake? {
        var after := StepTo(sys, evs[0]);
        PassSteps(sys, evs[0].side, evs[0].c.id);
        AtomicFrom(StepTo(after, evs[1]), evs[2..]);
        assert evs[1..][1..] == evs[2..];
        assert CalmRun(after, evs[1..]);
      } else {
        StepHolds(sys, evs[0]);
        AtomicFrom(StepTo(sys, evs[0]), evs[1..]);
      }
    }
  }

  lemma PassSteps(sys: System, side: bool, id: nat)
    requires AllEmptyHanded(sys)
    ensures AllEmptyHanded(StepTo(StepTo(sys, Local(side, LoopTake(id))), Local(side, LoopSend(id))))
    ensures CalmEvent(sys, Local(side, LoopTake(id)))
    ensures CalmEvent(StepTo(sys, Local(side, LoopTake(id))), Local(side, LoopSend(id)))
  {
    hide Next;
    PassHolds(End(sys, side), id);
  }

  /** Then no CloseWrite overtakes a chunk, and no end of any stream closes early. */
  lemma AtomicIsCalm(evs: seq<Event>)
    requires AtomicRun(evs)
    ensures CalmRun(Start(), evs) && AllPunctual(Run(Start(), evs))
  {
    AtomicFrom(Start(), evs);
    CalmIffPunctual(evs);
  }

  /** So with dequeue and send as one step, EOF always means that everything written has been read. */
  lemma AtomicEof(evs: seq<Event>, side: bool, id: nat, room: nat)
    requires AtomicRun(evs)
    requires Next(End(Run(Start(), evs), side), ReadCall(id, room)).res.Eof?
    ensures Paired(Run(Start(), evs), id)
    ensures var sys := Run(Start(), evs);
            StreamAt(sys, side, id).rx.got == StreamAt(sys, !side, id).tx.wrote
  {
    hide Next, Run, AtomicRun;
    AtomicIsCalm(evs);
    EofComplete(evs, side, id, room);
  }

  /** And no stream is ever reset with PROTOCOL_ERROR, unless an application asks for that code. */
  lemma AtomicReset(evs: seq<Event>, side: bool, id: nat)
    requires AtomicRun(evs)
    requires forall i :: 0 <= i < |evs| && evs[i].Local? && evs[i].c.ResetCall? ==>
               evs[i].c.fault.code != AppProtocolError
    requires id in End(Run(Start(), evs), side).streams
    ensures var reset := End(Run(Start(), evs), side).streams[id].life.reset;
            reset.Some? ==> reset.value.code != AppProtocolError
  {
    hide Run, AtomicRun, CalmRun, AllPunctual, Suspect;
    AtomicIsCalm(evs);
    PunctualClear(Run(Start(), evs), id);
    NoProtocolErrorReset(evs, side, id);
  }

  lemma PunctualClear(sys: System, id: nat)
    requires AllPunctual(sys)
    ensures !Suspect(sys, id)
  {
  }
}
