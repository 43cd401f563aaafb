/** A run from the start in which a CloseWrite overtakes a chunk. */
module AppRaceRun {
  import opened Basics
  import opened AppLimits
  import opened AppMessages
  import opened AppStream
  import opened AppSession
  import opened AppSystem
  import opened AppCalm
  import opened AppRace

  /** A system whose two sessions know one stream of the host. */
  function Two(a: Stream, b: Option<Stream>, ab: seq<AppMsg>, ba: seq<AppMsg>, buffered: int): System {
    System(Session(false, map[1 := a], 1, false, buffered),
           Session(true, if b.Some? then map[1 := b.value] else map[], 0, false, 0), ab, ba)
  }

  const Service: Bytes := [97]
  const A0 := NewStream(1, false)
  const A1 := HandleAccept(A0, 0, [], AppInitialWindow).st
  const A2 := OpenReturn(A1, 0, false).st
  const A3 := Write(A2, 0, [0]).st
  const A4 := WriterTake(A3, 1).st
  const A5 := CloseWrite(A4, 0).st
  const B0 := NewStream(1, true)
  const B1 := AcceptOk(B0, 0, [], false).st
  const B2 := RemoteClose(B1, 0).st

  lemma OpenSteps()
    ensures StepTo(Start(), Local(false, OpenCall(Service, []))) == Two(A0, None, [AppOpen(1, Service, [])], [], 0)
    ensures StepTo(Two(A0, None, [AppOpen(1, Service, [])], [], 0), Arrive(true)) == Two(A0, Some(B0), [], [], 0)
  {
    assert Table(Start().host) == {} && Table(Start().guest) == {};
    assert ValidAppService(Service);
  }

  lemma AcceptSteps()
    ensures StepTo(Two(A0, Some(B0), [], [], 0), Local(true, HandlerAccept(1, [])))
         == Two(A0, Some(B1), [], [AppAccept(1, [], AppInitialWindow)], 0)
    ensures StepTo(Two(A0, Some(B1), [], [AppAccept(1, [], AppInitialWindow)], 0), Arrive(false))
            == Two(A1, Some(B1), [], [], 0)
    ensures StepTo(Two(A1, Some(B1), [], [], 0), Local(false, OpenReady(1))) == Two(A2, Some(B1), [], [], 0)
  {
  }

  lemma WriteSteps()
    ensures A2.handle && A2.writer && A2.attached && A2.life.reset.None? && A2.tx.sndCredit == AppInitialWindow
    ensures A4.tx.held == [0] && A4.tx.sendQ == [] && Overtakes(A4)
    ensures StepTo(Two(A2, Some(B1), [], [], 0), Local(false, WriteCall(1, [0]))) == Two(A3, Some(B1), [], [], 1)
    ensures StepTo(Two(A3, Some(B1), [], [], 1), Local(false, LoopTake(1))) == Two(A4, Some(B1), [], [], 0)
  {
    assert A3.tx.sendQ == [[0]];
    assert [[0]][1..] == [];
  }

  lemma CloseSteps()
    ensures A5.tx.held == [0]
    ensures StepTo(Two(A4, Some(B1), [], [], 0), Local(false, CloseCall(1))) == Two(A5, Some(B1), [AppClose(1)], [], 0)
    ensures StepTo(Two(A5, Some(B1), [AppClose(1)], [], 0), Local(false, LoopSend(1)))
         == Two(WriterSend(A5, 0).st, Some(B1), [AppClose(1), AppData(1, [0])], [], 0)
  {
    hide StepTo, StreamCall;
    WriteSteps();
    HostStep(A4, Some(B1), [], 0, CloseCall(1));
    HostStep(A5, Some(B1), [AppClose(1)], 0, LoopSend(1));
    ClosesEarly(A4);
  }

  lemma HostStep(a: Stream, b: Option<Stream>, ab: seq<AppMsg>, buffered: int, c: Call)
    requires (c.CloseCall? || c.LoopSend?) && c.id == 1
    ensures var out := StreamCall(a, buffered, false, c);
            StepTo(Two(a, b, ab, [], buffered), Local(false, c)) == Two(out.st, b, ab + out.sent, [], out.buffered)
  {
    hide StreamCall;
  }

  lemma ClosesEarly(a: Stream)
    requires a.id == 1 && Overtakes(a) && !a.rx.remoteClosed && !a.tx.localClosed
    ensures var out := StreamCall(a, 0, false, CloseCall(1));
            && out == CloseWrite(a, 0) && out.sent == [AppClose(1)] && out.buffered == 0
            && out.st.tx.held == a.tx.held
            && StreamCall(out.st, 0, false, LoopSend(1)) == WriterSend(out.st, 0)
            && WriterSend(out.st, 0).sent == [AppData(1, a.tx.held)] && WriterSend(out.st, 0).buffered == 0
  {
  }

  lemma ArriveSteps(a: Stream)
    ensures B2.attached && B2.rx.remoteClosed && B2.life.reset.None?
    ensures StepTo(Two(a, Some(B1), [AppClose(1), AppData(1, [0])], [], 0), Arrive(true))
         == Two(a, Some(B2), [AppData(1, [0])], [], 0)
    ensures 1 in StepTo(Two(a, Some(B2), [AppData(1, [0])], [], 0), Arrive(true)).guest.streams
    ensures StepTo(Two(a, Some(B2), [AppData(1, [0])], [], 0), Arrive(true)).guest.streams[1].life.reset
         == Some(Violation("data after close"))
  {
    assert 1 in Table(Two(a, Some(B1), [AppClose(1), AppData(1, [0])], [], 0).guest);
    assert 1 in Table(Two(a, Some(B2), [AppData(1, [0])], [], 0).guest);
    ViolationResets(B2, 0, [0]);
  }

  lemma RunStep(sys: System, ev: Event, evs: seq<Event>)
    ensures Run(sys, [ev] + evs) == Run(StepTo(sys, ev), evs)
  {
    assert ([ev] + evs)[1..] == evs;
  }

  /** The last six steps: write, dequeue, close, send, and two deliveries. */
  const Tail: seq<Event> := [Local(false, CloseCall(1))] + SendAndArrive
  const SendAndArrive: seq<Event> := [Local(false, LoopSend(1))] + ([Arrive(true)] + ([Arrive(true)] + []))
  const Head: seq<Event> :=
    [Local(false, OpenReady(1))] + ([Local(false, WriteCall(1, [0]))] + ([Local(false, LoopTake(1))] + Tail))
  const RacingRun: seq<Event> :=
    [Local(false, OpenCall(Service, []))]
    + ([Arrive(true)] + ([Local(true, HandlerAccept(1, []))] + ([Arrive(false)] + Head)))

  lemma TailRun()
    ensures 1 in Run(Two(A4, Some(B1), [], [], 0), Tail).guest.streams
    ensures Run(Two(A4, Some(B1), [], [], 0), Tail).guest.streams[1].life.reset == Some(Violation("data after close"))
  {
    hide StepTo, Run;
    CloseSteps();
    var a := WriterSend(A5, 0).st;
    ArriveSteps(a);
    RunStep(Two(A4, Some(B1), [], [], 0), Local(false, CloseCall(1)), SendAndArrive);
    RunStep(Two(A5, Some(B1), [AppClose(1)], [], 0), Local(false, LoopSend(1)), [Arrive(true)] + ([Arrive(true)] + []));
    RunStep(Two(a, Some(B1), [AppClose(1), AppData(1, [0])], [], 0), Arrive(true), [Arrive(true)] + []);
    RunStep(Two(a, Some(B2), [AppData(1, [0])], [], 0), Arrive(true), []);
    RunEnds(StepTo(Two(a, Some(B2), [AppData(1, [0])], [], 0), Arrive(true)));
  }

  lemma RunEnds(sys: System)
    ensures Run(sys, []) == sys
  {
  }

  lemma HeadRun()
    ensures Run(Two(A1, Some(B1), [], [], 0), Head) == Run(Two(A4, Some(B1), [], [], 0), Tail)
  {
    hide StepTo, Run;
    AcceptSteps();
    WriteSteps();
    RunStep(Two(A1, Some(B1), [], [], 0), Local(false, OpenReady(1)),
            [Local(false, WriteCall(1, [0]))] + ([Local(false, LoopTake(1))] + Tail));
    RunStep(Two(A2, Some(B1), [], [], 0), Local(false, WriteCall(1, [0])), [Local(false, LoopTake(1))] + Tail);
    RunStep(Two(A3, Some(B1), [], [], 1), Local(false, LoopTake(1)), Tail);
  }

  /**
   A host that opens a stream, writes one byte and closes, without a Reset call anywhere, gets it
   reset by the guest.
   */
  lemma RaceRun()
    ensures 1 in Run(Start(), RacingRun).guest.streams
    ensures Run(Start(), RacingRun).guest.streams[1].life.reset == Some(Violation("data after close"))
  {
    hide StepTo, Run;
    OpenSteps();
    AcceptSteps();
    var w := [AppAccept(1, [], AppInitialWindow)];
    RunStep(Start(), Local(false, OpenCall(Service, [])),
            [Arrive(true)] + ([Local(true, HandlerAccept(1, []))] + ([Arrive(false)] + Head)));
    RunStep(Two(A0, None, [AppOpen(1, Service, [])], [], 0), Arrive(true),
            [Local(true, HandlerAccept(1, []))] + ([Arrive(false)] + Head));
    RunStep(Two(A0, Some(B0), [], [], 0), Local(true, HandlerAccept(1, [])), [Arrive(false)] + Head);
    RunStep(Two(A0, Some(B1), [], w, 0), Arrive(false), Head);
    HeadRun();
    TailRun();
  }
}
