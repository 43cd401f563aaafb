/** The life of streams over whole runs: what is never taken back, what is reported, and why streams are reset. */
module AppLifecycle {
  import opened Basics
  import opened AppLimits
  import opened AppMessages
  import opened AppStream
  import opened AppStreamProofs
  import opened AppSession
  import opened AppSessionProofs
  import opened AppPhase
  import opened AppSystem
  import opened AppProgress
  import opened AppTheorems

  // ---- Nothing is taken back ----

  /** Every stream is still there, further along. */
  ghost predicate Onward(s: Session, s': Session) {
    forall id :: id in s.streams ==> id in s'.streams && Evolves(s.streams[id], s'.streams[id])
  }

  lemma SameOnward(s: Session, s': Session, id: nat)
    requires id in s'.streams && s'.streams == s.streams[id := s'.streams[id]]
    requires id in s.streams ==> Evolves(s.streams[id], s'.streams[id])
    ensures Onward(s, s')
  {
    hide Evolves;
    forall j | j in s.streams ensures j in s'.streams && Evolves(s.streams[j], s'.streams[j]) {
      EvolvesReflexive(s.streams[j]);
    }
  }

  lemma EvolvesReflexive(st: Stream)
    ensures Evolves(st, st)
  {
  }

  lemma StillOnward(s: Session)
    ensures Onward(s, s)
  {
    hide Evolves;
    forall j | j in s.streams ensures Evolves(s.streams[j], s.streams[j]) {
      EvolvesReflexive(s.streams[j]);
    }
  }

  lemma KeepsEvolves(st: Stream, buffered: int, out: Out)
    requires Keeps(st, buffered, out)
    ensures Evolves(st, out.st)
  {
  }

  lemma CallOnward(s: Session, c: Call)
    requires SessionInv(s) && !c.Incoming?
    ensures Onward(s, Next(s, c).s)
  {
    hide Onward, SessionInv, Evolves, Keeps;
    StillOnward(s);
    if c.OpenCall? {
      if Next(s, c).sent != [] {
        OpenFresh(s);
        SameOnward(s, Next(s, c).s, LocalBit(s.guest) + s.nextID + 1);
      }
    } else if c.ConnectionLost? {
      FailOnward(s);
    } else if c.id in s.streams {
      StreamCallKeeps(s, c);
      KeepsEvolves(s.streams[c.id], s.buffered, StreamCall(s.streams[c.id], s.buffered, s.closed, c));
      SameOnward(s, Next(s, c).s, c.id);
    }
  }

  lemma FailOnward(s: Session)
    requires SessionInv(s)
    ensures Onward(s, Fail(s))
  {
    if s.closed {
      StillOnward(s);
    } else {
      forall j | j in s.streams ensures Evolves(s.streams[j], Fail(s).streams[j]) {
        assert StreamOk(s, j);
        LostSane(s.streams[j]);
      }
    }
  }

  /** A message that opens no stream under a known ID. */
  lemma MessageOnward(s: Session, m: AppMsg)
    requires SessionInv(s) && (m.AppOpen? ==> m.streamID !in s.streams)
    ensures Onward(s, HandleMessage(s, m).s)
  {
    hide Onward, SessionInv, Evolves, Keeps, Ready;
    StillOnward(s);
    if !s.closed {
      if !Fits(m) {
        FailOnward(s);
      } else if m.AppOpen? {
        if HandleMessage(s, m).sent == [] {
          SameOnward(s, HandleMessage(s, m).s, m.streamID);
        }
      } else if m.streamID in Table(s) {
        var st := s.streams[m.streamID];
        StreamReady(s, m.streamID);
        ReceiveKeeps(st, s.buffered, m);
        KeepsEvolves(st, s.buffered, Receive(st, s.buffered, m));
        SameOnward(s, HandleMessage(s, m).s, m.streamID);
      }
    }
  }

  lemma StepOnward(sys: System, ev: Event, side: bool)
    requires SysInv(sys)
    ensures Onward(End(sys, side), End(StepTo(sys, ev), side))
  {
    hide Onward, Next, SessionInv, PairAt;
    StillOnward(End(sys, side));
    if ev.side == side {
      match ev
      case Local(_, c) =>
        if !c.Incoming? {
          CallOnward(End(sys, side), c);
        }
      case Arrive(_) =>
        if !End(sys, side).closed && Sent(sys, !side) != [] {
          var m := Sent(sys, !side)[0];
          NextIncoming(End(sys, side), m);
          if m.AppOpen? {
            OpenWelcome(sys, side);
          }
          MessageOnward(End(sys, side), m);
        }
    }
  }

  lemma OnwardTransitive(a: Session, b: Session, c: Session)
    requires Onward(a, b) && Onward(b, c)
    ensures Onward(a, c)
  {
    hide Evolves;
    forall id | id in a.streams ensures id in c.streams && Evolves(a.streams[id], c.streams[id]) {
      EvolvesTransitive(a.streams[id], b.streams[id], c.streams[id]);
    }
  }

  /**
   Over every run: the first reset reason stays, a closed direction stays closed and its bytes final,
   a stream that left the table never returns, reports and histories only grow, and `ready` is closed
   exactly when `opening` falls.
   */
  lemma {:induction false} RunOnward(sys: System, evs: seq<Event>, side: bool)
    requires SysInv(sys)
    ensures Onward(End(sys, side), End(Run(sys, evs), side))
    decreases |evs|
  {
    hide Onward, SysInv, StepTo;
    if evs == [] {
      StillOnward(End(sys, side));
    } else {
      StepOnward(sys, evs[0], side);
      StepInv(sys, evs[0]);
      RunOnward(StepTo(sys, evs[0]), evs[1..], side);
      OnwardTransitive(End(sys, side), End(StepTo(sys, evs[0]), side), End(Run(sys, evs), side));
    }
  }

  // ---- Against an arbitrary peer ----

  /** An APP_OPEN that the session takes for a new stream, under the ID of one that has left its table. */
  predicate Reopens(s: Session, c: Call) {
    && c.Incoming? && c.m.AppOpen? && !s.closed && Fits(c.m)
    && c.m.streamID in s.streams && c.m.streamID !in Table(s)
    && c.m.streamID != 0 && GuestID(c.m.streamID) != s.guest
    && ValidAppService(c.m.service) && |c.m.meta| <= AppMaxMetaBytes && |Table(s)| < AppMaxStreams
  }

  lemma ReopenedBack(s: Session, c: Call)
    requires Reopens(s, c)
    ensures !Onward(s, Next(s, c).s)
  {
    hide ValidAppService, GuestID;
    var id := c.m.streamID;
    assert Next(s, c).s.streams[id] == NewStream(id, true);
    assert !Evolves(s.streams[id], NewStream(id, true));
  }

  lemma KnownRefused(s: Session, c: Call)
    requires c.Incoming? && c.m.AppOpen? && c.m.streamID in s.streams && !Reopens(s, c) && !s.closed && Fits(c.m)
    ensures Next(s, c).s == s
  {
    hide ValidAppService, GuestID, Table;
  }

  /** Whatever the peer sends, a call or message takes something back exactly if it reopens a known stream. */
  lemma OnwardIff(s: Session, c: Call)
    requires SessionInv(s)
    ensures Onward(s, Next(s, c).s) <==> !Reopens(s, c)
  {
    hide Onward, SessionInv, Reopens;
    if Reopens(s, c) {
      ReopenedBack(s, c);
    } else if !c.Incoming? {
      CallOnward(s, c);
    } else {
      NextIncoming(s, c.m);
      if c.m.AppOpen? && c.m.streamID in s.streams && !s.closed && Fits(c.m) {
        KnownRefused(s, c);
        StillOnward(s);
      } else if c.m.AppOpen? && c.m.streamID in s.streams {
        UnopenedOnward(s, c.m);
      } else {
        MessageOnward(s, c.m);
      }
    }
  }

  lemma UnopenedOnward(s: Session, m: AppMsg)
    requires SessionInv(s) && (s.closed || !Fits(m))
    ensures Onward(s, HandleMessage(s, m).s)
  {
    hide Onward, SessionInv;
    StillOnward(s);
    FailOnward(s);
  }

  predicate NoReopening(s: Session, cs: seq<Call>)
    decreases |cs|
  {
    cs == [] || (!Reopens(s, cs[0]) && NoReopening(Next(s, cs[0]).s, cs[1..]))
  }

  /** Every step of the session takes nothing back. */
  ghost predicate OnwardThroughout(s: Session, cs: seq<Call>)
    decreases |cs|
  {
    cs == [] || (Onward(s, Next(s, cs[0]).s) && OnwardThroughout(Next(s, cs[0]).s, cs[1..]))
  }

  /**
   For one session against an arbitrary peer: every step keeps the first reset reason, the closed
   directions and the streams that have left, exactly if the peer never reopens a known ID; and then
   so does the whole run.
   */
  lemma {:induction false} PeerOnward(s: Session, cs: seq<Call>)
    requires SessionInv(s)
    ensures OnwardThroughout(s, cs) <==> NoReopening(s, cs)
    ensures NoReopening(s, cs) ==> Onward(s, After(s, cs))
    decreases |cs|
  {
    hide Onward, SessionInv, Reopens, Next;
    if cs == [] {
      StillOnward(s);
    } else {
      var s' := Next(s, cs[0]).s;
      OnwardIff(s, cs[0]);
      NextInv(s, cs[0]);
      PeerOnward(s', cs[1..]);
      if NoReopening(s, cs) {
        OnwardTransitive(s, s', After(s, cs));
      }
    }
  }

  /** The peer opens a stream, its handler refuses it, and the peer opens it again. */
  function Reopening(service: Bytes, meta: Bytes, fault: Fault): seq<Call> {
    [Incoming(AppOpen(1, service, meta)), HandlerReject(1, fault), Incoming(AppOpen(1, service, meta))]
  }

  /** Such a peer exists: a stream that was refused and has left the table is back in it, as if new. */
  lemma ReopenedRun(service: Bytes, meta: Bytes, fault: Fault)
    requires ValidAppService(service) && |meta| <= AppMaxMetaBytes
    ensures var cs := Reopening(service, meta, fault);
            var before, after := After(NewSession(true), cs[..2]), After(NewSession(true), cs);
            && 1 in before.streams && 1 !in Table(before) && 1 in Table(after)
            && after.streams[1] == NewStream(1, true) && !Onward(before, after)
  {
    assert |service| <= 31;
    hide ValidAppService, Evolves;
    var cs := Reopening(service, meta, fault);
    var s1 := Session(true, map[1 := NewStream(1, true)], 0, false, 0);
    var s2 := Session(true, map[1 := AcceptFail(NewStream(1, true), 0, fault).st], 0, false, 0);
    assert Table(NewSession(true)) == {} && Table(s2) == {};
    assert Next(NewSession(true), cs[0]).s == s1;
    assert Next(s1, cs[1]).s == s2;
    assert Reopens(s2, cs[2]) && Next(s2, cs[2]).s == s1;
    ThreeCalls(NewSession(true), cs);
    ReopenedBack(s2, cs[2]);
  }

  lemma ThreeCalls(s: Session, cs: seq<Call>)
    requires |cs| == 3
    ensures After(s, cs[..2]) == Next(Next(s, cs[0]).s, cs[1]).s
    ensures After(s, cs) == Next(After(s, cs[..2]), cs[2]).s
  {
    hide Next;
    assert cs == [cs[0], cs[1], cs[2]] && cs[..2] == [cs[0], cs[1]] && cs[1..] == [cs[1], cs[2]];
    TwoCalls(s, cs[0], cs[1]);
    TwoCalls(Next(s, cs[0]).s, cs[1], cs[2]);
  }

  lemma TwoCalls(s: Session, a: Call, b: Call)
    ensures After(s, [a, b]) == Next(Next(s, a).s, b).s
  {
    hide Next;
    assert [a, b][1..] == [b] && [b][1..] == [];
    assert After(s, [a, b]) == After(Next(s, a).s, [b]);
    assert After(Next(s, a).s, [b]) == After(Next(Next(s, a).s, b).s, []);
  }

  // ---- Reports ----

  /** What the observer, `Open` and the application may rely on. */
  predicate WellReported(st: Stream) {
    && (st.life.reports == [] || st.life.reports == [StreamOpened] || st.life.reports == [StreamOpened, StreamClosed])
    && st.hs.readyCloses == (if st.inbound || st.hs.opening then 0 else 1)
    && (st.handle && !st.inbound ==> 1 <= st.hs.grant <= AppMaxCredit)
  }

  lemma SaneWellReported(st: Stream)
    requires Sane(st)
    ensures WellReported(st)
  {
  }

  /**
   In every run: StreamClosed is reported at most once and after StreamOpened, `ready` is closed at
   most once, the application holds a stream it opened only with a valid grant, and a failed
   session's table is empty.
   */
  lemma Lifecycle(evs: seq<Event>, side: bool, id: nat)
    requires id in End(Run(Start(), evs), side).streams
    ensures var s := End(Run(Start(), evs), side);
            WellReported(s.streams[id]) && (s.closed ==> Table(s) == {})
  {
    hide WellReported, SessionInv, Sane;
    NewSessionInv(false);
    NewSessionInv(true);
    AnyRunLocal(Start(), evs);
    var s := End(Run(Start(), evs), side);
    StreamSane(s, id);
    SaneWellReported(s.streams[id]);
    LedgerIsQueues(s);
  }

  /** So it is for one session against an arbitrary peer. */
  lemma PeerLifecycle(guest: bool, cs: seq<Call>, id: nat)
    requires id in After(NewSession(guest), cs).streams
    ensures WellReported(After(NewSession(guest), cs).streams[id])
  {
    hide WellReported, SessionInv, Sane;
    NewSessionInv(guest);
    AfterInv(NewSession(guest), cs);
    StreamSane(After(NewSession(guest), cs), id);
    SaneWellReported(After(NewSession(guest), cs).streams[id]);
  }

  // ---- Why streams are reset ----

  /** The CloseWrite of one of the two ends overtook a chunk. */
  predicate Suspect(sys: System, id: nat) {
    EarlyAt(sys, false, id) || EarlyAt(sys, true, id)
  }

  /** Not a protocol error, or the one that an early close leads to. */
  predicate Mild(fault: Fault, suspect: bool) {
    fault.code != AppProtocolError || (suspect && fault == Violation("data after close"))
  }

  predicate MildStream(st: Stream, suspect: bool) {
    st.life.reset.Some? ==> Mild(st.life.reset.value, suspect)
  }

  predicate MildMsg(m: AppMsg, suspect: bool) {
    m.AppReset? ==> Mild(Fault(m.code, m.message), suspect)
  }

  predicate MildCall(c: Call) {
    c.ResetCall? ==> c.fault.code != AppProtocolError
  }

  predicate MildOut(out: Out, suspect: bool) {
    MildStream(out.st, suspect) && (out.sent != [] ==> MildMsg(out.sent[0], suspect))
  }

  lemma ResetMild(st: Stream, buffered: int, fault: Fault, suspect: bool)
    requires MildStream(st, suspect) && Mild(fault, suspect)
    ensures MildOut(ResetRemote(st, buffered, fault), suspect)
    ensures MildStream(RemoteReset(st, buffered, fault).st, suspect)
  {
  }

  lemma FinishMild(st: Stream, buffered: int, suspect: bool)
    requires MildStream(st, suspect)
    ensures MildStream(MaybeFinish(st, buffered).st, suspect)
  {
  }

  lemma WriteMild(st: Stream, buffered: int, p: Bytes, suspect: bool)
    requires MildStream(st, suspect)
    ensures MildOut(Write(st, buffered, p), suspect)
  {
    hide ResetRemote;
    ResetMild(st, buffered, SendQueueOverflow, suspect);
    ResetMild(st, buffered, SessionBufferExceeded, suspect);
  }

  lemma ReadMild(st: Stream, buffered: int, room: nat, suspect: bool)
    requires MildStream(st, suspect)
    ensures MildOut(Read(st, buffered, room), suspect)
  {
    hide MaybeFinish, Mild, DropFront;
    FinishMild(st, buffered, suspect);
  }

  lemma CloseMild(st: Stream, buffered: int, suspect: bool)
    requires MildStream(st, suspect)
    ensures MildOut(CloseWrite(st, buffered), suspect)
  {
    hide MaybeFinish, Mild;
    FinishMild(st.(tx := st.tx.(closeAfterFlush := true, localClosed := true, early := st.tx.held != [])), buffered,
               suspect);
  }

  lemma TakeMild(st: Stream, buffered: int, suspect: bool)
    requires MildStream(st, suspect)
    ensures MildOut(WriterTake(st, buffered), suspect)
  {
    hide MaybeFinish, Mild, DropFront;
    FinishMild(st.(tx := st.tx.(localClosed := true), writer := false), buffered, suspect);
  }

  lemma OpeningMild(st: Stream, buffered: int, closed: bool, suspect: bool)
    requires MildStream(st, suspect)
    ensures MildOut(OpenReturn(st, buffered, closed), suspect) && MildOut(OpenExpire(st, buffered), suspect)
  {
    hide ResetRemote;
    ResetMild(st.(hs := st.hs.(waiting := false)), buffered, OpenContextDone, suspect);
  }

  lemma AcceptingMild(st: Stream, buffered: int, closed: bool, meta: Bytes, suspect: bool)
    requires MildStream(st, suspect)
    ensures MildOut(AcceptOk(st, buffered, meta, closed), suspect)
  {
    hide Mild;
  }

  lemma RejectingMild(st: Stream, buffered: int, fault: Fault, suspect: bool)
    requires MildStream(st, suspect)
    ensures MildOut(AcceptFail(st, buffered, fault), suspect)
  {
    hide Mild;
  }

  lemma CallMild(st: Stream, buffered: int, closed: bool, c: Call, suspect: bool)
    requires AboutStream(c) && MildStream(st, suspect) && MildCall(c)
    ensures MildOut(StreamCall(st, buffered, closed, c), suspect)
  {
    hide Write, Read, CloseWrite, WriterTake, OpenReturn, OpenExpire, AcceptOk, AcceptFail, ResetRemote;
    match c
    case WriteCall(_, p) => WriteMild(st, buffered, p, suspect);
    case ReadCall(_, room) => ReadMild(st, buffered, room, suspect);
    case CloseCall(_) => CloseMild(st, buffered, suspect);
    case LoopTake(_) => TakeMild(st, buffered, suspect);
    case ResetCall(_, fault) => ResetMild(st, buffered, fault, suspect);
    case HandlerAccept(_, meta) => AcceptingMild(st, buffered, closed, meta, suspect);
    case HandlerReject(_, fault) => RejectingMild(st, buffered, fault, suspect);
    case OpenReady(_) => OpeningMild(st, buffered, closed, suspect);
    case OpenTimeout(_) => OpeningMild(st, buffered, closed, suspect);
    case _ =>
  }

  /** A message resets a stream with the fault it carries, or with the fault it is answered with. */
  lemma ReceiveResets(st: Stream, buffered: int, m: AppMsg)
    ensures var out := Receive(st, buffered, m);
            if out.sent != [] then
              && out.res.Failed? && out == ResetRemote(st, buffered, out.res.fault)
              && out.sent[0] == AppReset(st.id, out.res.fault.code, out.res.fault.message)
            else out.st.life.reset == st.life.reset
                 || (m.AppReset? && out.st.life.reset == Some(Fault(m.code, m.message)))
  {
    hide MaybeFinish, Finish, Violation, Deliver;
    QuietClose(st.(rx := st.rx.(remoteClosed := true)), buffered);
    if m.AppData? {
      DeliverResets(st, buffered, m.data);
    }
    if m.AppReset? {
      QuietFinish(SetReset(st, Fault(m.code, m.message)), buffered);
    }
  }

  lemma DeliverResets(st: Stream, buffered: int, data: Bytes)
    ensures var out := Deliver(st, buffered, data);
            if out.sent != [] then out.res.Failed? && out == ResetRemote(st, buffered, out.res.fault)
            else out.st.life.reset == st.life.reset
  {
    hide Finish, Violation;
  }

  lemma QuietFinish(st: Stream, buffered: int)
    ensures Finish(st, buffered).st.life.reset == st.life.reset && Finish(st, buffered).sent == []
  {
  }

  lemma QuietClose(st: Stream, buffered: int)
    ensures MaybeFinish(st, buffered).st.life.reset == st.life.reset
  {
  }

  lemma ReceiveMild(st: Stream, buffered: int, m: AppMsg, suspect: bool)
    requires MildStream(st, suspect) && MildMsg(m, suspect)
    requires var out := Receive(st, buffered, m); out.sent != [] ==> MildMsg(out.sent[0], suspect)
    ensures MildOut(Receive(st, buffered, m), suspect)
  {
    hide Receive, ResetRemote, Mild;
    ReceiveResets(st, buffered, m);
    var out := Receive(st, buffered, m);
    if out.sent != [] {
      ResetMild(st, buffered, out.res.fault, suspect);
    }
  }

  // ---- The system ----

  ghost predicate MildSession(sys: System, s: Session) {
    forall id :: id in s.streams ==> MildStream(s.streams[id], Suspect(sys, id))
  }

  predicate MildWire(sys: System, w: seq<AppMsg>) {
    forall i :: 0 <= i < |w| ==> MildMsg(w[i], Suspect(sys, w[i].streamID))
  }

  ghost predicate MildSys(sys: System) {
    && MildSession(sys, sys.host) && MildSession(sys, sys.guest)
    && MildWire(sys, sys.toGuest) && MildWire(sys, sys.toHost)
  }

  lemma FailMild(sys: System, s: Session)
    requires MildSession(sys, s)
    ensures MildSession(sys, Fail(s))
  {
    forall id | id in s.streams ensures MildStream(Lost(s.streams[id]), Suspect(sys, id)) {
    }
  }

  lemma NextMild(sys: System, s: Session, c: Call)
    requires SessionInv(s) && MildSession(sys, s) && MildCall(c) && !c.Incoming?
    ensures MildSession(sys, Next(s, c).s) && MildWire(sys, Next(s, c).sent)
  {
    hide SessionInv, Suspect, Mild, ValidAppService, Fail;
    if c.ConnectionLost? {
      FailMild(sys, s);
    } else if !c.OpenCall? && c.id in s.streams {
      OwnCallMild(sys, s, c);
    }
  }

  lemma OwnCallMild(sys: System, s: Session, c: Call)
    requires SessionInv(s) && MildSession(sys, s) && MildCall(c) && AboutStream(c) && c.id in s.streams
    ensures MildSession(sys, Next(s, c).s) && MildWire(sys, Next(s, c).sent)
  {
    hide SessionInv, Suspect, Mild, StreamCall, MildStream, MildMsg, Keeps;
    var st := s.streams[c.id];
    NamedByKey(s, c.id);
    CallMild(st, s.buffered, s.closed, c, Suspect(sys, c.id));
    StreamCallKeeps(s, c);
    SentAbout(st, s.buffered, StreamCall(st, s.buffered, s.closed, c));
  }

  lemma MessageMild(sys: System, s: Session, m: AppMsg)
    requires SessionInv(s) && MildSession(sys, s) && MildMsg(m, Suspect(sys, m.streamID))
    requires Civil(s, m, Suspect(sys, m.streamID))
    ensures MildSession(sys, HandleMessage(s, m).s) && MildWire(sys, HandleMessage(s, m).sent)
  {
    hide SessionInv, Suspect;
    var suspect := Suspect(sys, m.streamID);
    if !s.closed {
      if !Fits(m) {
        FailMild(sys, s);
      } else if m.AppOpen? {
      } else if m.streamID in Table(s) {
        hide Receive, MildStream;
        var st := s.streams[m.streamID];
        NamedByKey(s, m.streamID);
        ReceiveResets(st, s.buffered, m);
        ReceiveMild(st, s.buffered, m, suspect);
      }
    }
  }

  lemma SuspectStays(sys: System, sys': System)
    requires Onward(sys.host, sys'.host) && Onward(sys.guest, sys'.guest)
    ensures forall id :: Suspect(sys, id) ==> Suspect(sys', id)
  {
  }

  lemma MildStays(sys: System, sys': System, s: Session, w: seq<AppMsg>)
    requires forall id :: Suspect(sys, id) ==> Suspect(sys', id)
    ensures MildSession(sys, s) ==> MildSession(sys', s)
    ensures MildWire(sys, w) ==> MildWire(sys', w)
  {
    hide Suspect;
  }

  lemma StepMild(sys: System, ev: Event)
    requires SysInv(sys) && MildSys(sys) && (ev.Local? ==> MildCall(ev.c))
    ensures MildSys(StepTo(sys, ev))
  {
    hide SessionInv, PairAt, Next, MildSession, MildMsg, Civil, Fits, Suspect, Onward;
    var sys' := StepTo(sys, ev);
    match ev {
      case Local(side, c) =>
        if !c.Incoming? {
          NextMild(sys, End(sys, side), c);
        }
      case Arrive(side) =>
        if !End(sys, side).closed && Sent(sys, !side) != [] {
          var m := Sent(sys, !side)[0];
          NextIncoming(End(sys, side), m);
          ArriveSuspect(sys, side);
          MessageMild(sys, End(sys, side), m);
        }
    }
    assert MildSession(sys, sys'.host) && MildSession(sys, sys'.guest);
    assert MildWire(sys, sys'.toGuest) && MildWire(sys, sys'.toHost);
    StepOnward(sys, ev, false);
    StepOnward(sys, ev, true);
    SuspectStays(sys, sys');
    MildStays(sys, sys', sys'.host, sys'.toGuest);
    MildStays(sys, sys', sys'.guest, sys'.toHost);
  }

  lemma ArriveSuspect(sys: System, side: bool)
    requires SysInv(sys) && !End(sys, side).closed && Sent(sys, !side) != []
    ensures var m := Sent(sys, !side)[0]; Civil(End(sys, side), m, Suspect(sys, m.streamID))
  {
    hide SysInv, HandleMessage;
    ArriveCivil(sys, side);
  }

  lemma {:induction false} RunMild(sys: System, evs: seq<Event>)
    requires SysInv(sys) && MildSys(sys)
    requires forall i :: 0 <= i < |evs| && evs[i].Local? ==> MildCall(evs[i].c)
    ensures MildSys(Run(sys, evs))
    decreases |evs|
  {
    hide SysInv, MildSys, MildCall, StepTo;
    if evs != [] {
      StepMild(sys, evs[0]);
      StepInv(sys, evs[0]);
      RunMild(StepTo(sys, evs[0]), evs[1..]);
    }
  }

  /**
   Between two correct sessions a stream is reset with PROTOCOL_ERROR only as data after close, and
   only if the CloseWrite of one of its ends overtook a chunk, unless an application asks for that code.
   */
  lemma NoProtocolErrorReset(evs: seq<Event>, side: bool, id: nat)
    requires forall i :: 0 <= i < |evs| && evs[i].Local? && evs[i].c.ResetCall? ==>
               evs[i].c.fault.code != AppProtocolError
    requires id in End(Run(Start(), evs), side).streams
    ensures var sys := Run(Start(), evs);
            var reset := End(sys, side).streams[id].life.reset;
            reset.Some? && reset.value.code == AppProtocolError ==>
              reset.value == Violation("data after close") && Suspect(sys, id)
  {
    hide SysInv, Run, Suspect;
    StartInv();
    RunMild(Start(), evs);
  }
}
