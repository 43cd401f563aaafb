/**
 When a CloseWrite overtakes a chunk in the hands of the write loop. That an end has
 closed early is recorded in its sender, and it is recorded exactly for these calls.
 */
module AppCalm {
  import opened Basics
  import opened AppLimits
  import opened AppMessages
  import opened AppStream
  import opened AppStreamProofs
  import opened AppSession
  import opened AppSessionProofs
  import opened AppPhase
  import opened AppSystem
  import opened AppLifecycle

  /** The application's CloseWrite would send APP_CLOSE ahead of a chunk the write loop has in hand. */
  predicate Overtakes(st: Stream) {
    st.handle && st.life.reset.None? && !st.tx.closeAfterFlush && st.tx.sendQ == [] && st.tx.held != []
  }

  predicate CalmEvent(sys: System, ev: Event) {
    ev.Local? && ev.c.CloseCall? && ev.c.id in End(sys, ev.side).streams ==>
      !Overtakes(End(sys, ev.side).streams[ev.c.id])
  }

  /** Along the run no CloseWrite overtakes a chunk in the write loop's hands. */
  predicate CalmRun(sys: System, evs: seq<Event>)
    decreases |evs|
  {
    evs == [] || (CalmEvent(sys, evs[0]) && CalmRun(StepTo(sys, evs[0]), evs[1..]))
  }

  // ---- Which operations close early ----

  lemma TeardownPunctual(st: Stream, b: int, f: Fault)
    ensures ResetRemote(st, b, f).st.tx == RemoteReset(st, b, f).st.tx == MaybeFinish(st, b).st.tx == st.tx
  {
  }

  lemma WritePunctual(st: Stream, b: int, p: Bytes)
    ensures Write(st, b, p).st.tx.early == st.tx.early
  {
    hide ResetRemote;
    var out := Write(st, b, p);
    if out.res.Failed? && st.life.reset.None? {
      assert out == ResetRemote(st, b, out.res.fault);
      TeardownPunctual(st, b, out.res.fault);
    }
  }

  lemma CloseEarly(st: Stream, b: int)
    requires Sane(st) && st.handle
    ensures CloseWrite(st, b).st.tx.early <==> st.tx.early || Overtakes(st)
  {
    hide MaybeFinish;
    TeardownPunctual(st.(tx := st.tx.(closeAfterFlush := true, localClosed := true, early := st.tx.held != [])), b,
                     ConnectionClosed);
  }

  lemma ReadPunctual(st: Stream, b: int, room: nat)
    ensures Read(st, b, room).st.tx.early == st.tx.early
  {
    hide MaybeFinish, DropFront;
    TeardownPunctual(st, b, ConnectionClosed);
  }

  lemma LoopPunctual(st: Stream, b: int)
    ensures WriterTake(st, b).st.tx.early == st.tx.early
  {
    hide MaybeFinish, DropFront;
    TeardownPunctual(st.(tx := st.tx.(localClosed := true), writer := false), b, ConnectionClosed);
  }

  lemma OpenPunctual(st: Stream, b: int, closed: bool)
    ensures OpenReturn(st, b, closed).st.tx.early == OpenExpire(st, b).st.tx.early == st.tx.early
  {
    hide ResetRemote;
    TeardownPunctual(st.(hs := st.hs.(waiting := false)), b, OpenContextDone);
  }

  lemma AcceptPunctual(st: Stream, b: int, meta: Bytes, closed: bool, fault: Fault)
    ensures AcceptOk(st, b, meta, closed).st.tx.early == AcceptFail(st, b, fault).st.tx.early == st.tx.early
  {
  }

  lemma CallEarly(st: Stream, b: int, closed: bool, c: Call)
    requires Sane(st)
    ensures StreamCall(st, b, closed, c).st.tx.early <==> st.tx.early || (c.CloseCall? && Overtakes(st))
  {
    hide ResetRemote, Write, Read, CloseWrite, WriterTake, OpenReturn, OpenExpire, AcceptOk, AcceptFail, Sane;
    match c
    case OpenReady(_) => OpenPunctual(st, b, closed);
    case OpenTimeout(_) => OpenPunctual(st, b, closed);
    case WriteCall(_, p) => WritePunctual(st, b, p);
    case ReadCall(_, room) => ReadPunctual(st, b, room);
    case CloseCall(_) => if st.handle { CloseEarly(st, b); }
    case ResetCall(_, fault) => TeardownPunctual(st, b, fault);
    case LoopTake(_) => LoopPunctual(st, b);
    case HandlerAccept(_, meta) => AcceptPunctual(st, b, meta, closed, OpenContextDone);
    case HandlerReject(_, fault) => AcceptPunctual(st, b, [], closed, fault);
    case _ =>
  }

  lemma ReceivePunctual(st: Stream, b: int, m: AppMsg)
    ensures Receive(st, b, m).st.tx.early == st.tx.early
  {
    hide ResetRemote, RemoteReset, MaybeFinish, Receive;
    ReceiveResets(st, b, m);
    var out := Receive(st, b, m);
    if out.sent != [] {
      TeardownPunctual(st, b, out.res.fault);
    } else {
      SilentPunctual(st, b, m);
    }
  }

  lemma SilentPunctual(st: Stream, b: int, m: AppMsg)
    requires Receive(st, b, m).sent == []
    ensures Receive(st, b, m).st.tx.early == st.tx.early
  {
    hide MaybeFinish, RemoteReset;
    TeardownPunctual(st.(rx := st.rx.(remoteClosed := true)), b, ConnectionClosed);
    if m.AppReset? {
      TeardownPunctual(st, b, Fault(m.code, m.message));
    }
  }

  // ---- Runs ----

  predicate Punctual(s: Session) {
    forall id :: id in s.streams ==> !s.streams[id].tx.early
  }

  /** No end of any stream has closed early. */
  predicate AllPunctual(sys: System) {
    Punctual(sys.host) && Punctual(sys.guest)
  }

  lemma FailPunctual(s: Session)
    requires Punctual(s)
    ensures Punctual(Fail(s))
  {
    hide RemoteReset;
    forall id | id in s.streams ensures !Lost(s.streams[id]).tx.early {
      TeardownPunctual(s.streams[id], 0, ConnectionClosed);
    }
  }

  lemma MessagePunctual(s: Session, m: AppMsg)
    requires Punctual(s)
    ensures Punctual(HandleMessage(s, m).s)
  {
    hide Receive, ValidAppService, Fail;
    if s.closed || !Fits(m) {
      FailPunctual(s);
    } else if !m.AppOpen? && m.streamID in Table(s) {
      ReceivePunctual(s.streams[m.streamID], s.buffered, m);
    }
  }

  lemma NextPunctual(s: Session, c: Call)
    requires SessionInv(s) && Punctual(s)
    ensures Punctual(Next(s, c).s) <==> !(c.CloseCall? && c.id in s.streams && Overtakes(s.streams[c.id]))
  {
    hide StreamCall, HandleMessage, Fail, ValidAppService, SessionInv, Sane, Overtakes;
    FailPunctual(s);
    if c.Incoming? {
      MessagePunctual(s, c.m);
    } else if AboutStream(c) && c.id in s.streams {
      OwnPunctual(s, c);
    }
  }

  lemma OwnPunctual(s: Session, c: Call)
    requires SessionInv(s) && Punctual(s) && AboutStream(c) && c.id in s.streams
    ensures Punctual(Next(s, c).s) <==> !(c.CloseCall? && Overtakes(s.streams[c.id]))
  {
    hide StreamCall, HandleMessage, Fail, ValidAppService, SessionInv, Sane, Overtakes;
    OwnSane(s, c.id);
    var out := StreamCall(s.streams[c.id], s.buffered, s.closed, c);
    CallEarly(s.streams[c.id], s.buffered, s.closed, c);
    assert Next(s, c).s.streams == s.streams[c.id := out.st];
    assert out.st.tx.early ==> Next(s, c).s.streams[c.id].tx.early;
  }

  lemma OwnSane(s: Session, id: nat)
    requires SessionInv(s) && id in s.streams
    ensures Sane(s.streams[id])
  {
    assert StreamOk(s, id);
  }

  lemma StepPunctual(sys: System, ev: Event)
    requires SysInv(sys) && AllPunctual(sys)
    ensures AllPunctual(StepTo(sys, ev)) <==> CalmEvent(sys, ev)
  {
    hide Next, SessionInv, PairAt, Overtakes, Punctual;
    if ev.Local? {
      if !ev.c.Incoming? {
        NextPunctual(End(sys, ev.side), ev.c);
      }
    } else if !End(sys, ev.side).closed && Sent(sys, !ev.side) != [] {
      NextPunctual(End(sys, ev.side), Incoming(Sent(sys, !ev.side)[0]));
    }
  }

  /** Once early, always early. */
  lemma EarlyStays(sys: System, evs: seq<Event>)
    requires SysInv(sys) && !AllPunctual(sys)
    ensures !AllPunctual(Run(sys, evs))
  {
    hide SysInv, Run;
    RunOnward(sys, evs, false);
    RunOnward(sys, evs, true);
  }

  lemma {:induction false} CalmFrom(sys: System, evs: seq<Event>)
    requires SysInv(sys) && AllPunctual(sys)
    ensures CalmRun(sys, evs) <==> AllPunctual(Run(sys, evs))
    decreases |evs|
  {
    hide SysInv, StepTo, AllPunctual, CalmEvent;
    if evs != [] {
      var next := StepTo(sys, evs[0]);
      StepInv(sys, evs[0]);
      StepPunctual(sys, evs[0]);
      if CalmEvent(sys, evs[0]) {
        CalmFrom(next, evs[1..]);
      } else {
        EarlyStays(next, evs[1..]);
      }
    }
  }

  /** A run is calm exactly if at its end no end of any stream has closed early. */
  lemma CalmIffPunctual(evs: seq<Event>)
    ensures CalmRun(Start(), evs) <==> AllPunctual(Run(Start(), evs))
  {
    StartInv();
    CalmFrom(Start(), evs);
  }
}
