/**
 Progress: a measure that every event decreases which is not a new demand of the
 application, and what the system looks like when nothing is left to happen.
 */
module AppProgress {
  import opened Basics
  import opened AppLimits
  import opened AppMessages
  import opened AppStream
  import opened AppStreamProofs
  import opened AppSession
  import opened AppSessionProofs
  import opened AppPhase
  import opened AppSystem

  function MsgWork(m: AppMsg): nat {
    match m
    case AppOpen(_, _, _) => 8
    case AppAccept(_, _, _) => 2
    case AppData(_, data) => 2 + 3 * |data|
    case AppCredit(_, _) => 2
    case _ => 1
  }

  function WireWork(w: seq<AppMsg>): nat {
    if w == [] then 0 else MsgWork(w[0]) + WireWork(w[1..])
  }

  /** Queued bytes weigh more than bytes in hand, those more than bytes on the wire, those more than unread ones. */
  function StreamWork(st: Stream): nat {
    (if st.hs.waiting then 4 else 0) + (if st.hs.handling then 6 else 0) + (if st.writer then 3 else 0)
    + (if st.attached then 1 else 0) + (if st.tx.held != [] then 3 + 3 * |st.tx.held| else 0)
    + (if st.life.reset.None? then 7 * |Flat(st.tx.sendQ)| + 3 * |Flat(st.rx.inQ)| else 0)
  }

  function StreamWorks(streams: map<nat, Stream>): map<nat, int> {
    map id | id in streams :: StreamWork(streams[id])
  }

  ghost function SessionWork(s: Session): int {
    Total(StreamWorks(s.streams)) + if s.closed then 0 else 1
  }

  ghost function Work(sys: System): int {
    SessionWork(sys.host) + SessionWork(sys.guest) + WireWork(sys.toGuest) + WireWork(sys.toHost)
  }

  lemma {:induction false} WireWorkAppend(w: seq<AppMsg>, m: AppMsg)
    ensures WireWork(w + [m]) == WireWork(w) + MsgWork(m)
  {
    if w == [] {
      assert w + [m] == [m] && [m][1..] == [];
    } else {
      assert (w + [m])[1..] == w[1..] + [m];
      WireWorkAppend(w[1..], m);
    }
  }

  lemma WireWorkSent(w: seq<AppMsg>, sent: seq<AppMsg>)
    requires |sent| <= 1
    ensures WireWork(w + sent) == WireWork(w) + WireWork(sent)
  {
    if sent == [] {
      assert w + sent == w;
    } else {
      assert sent == [sent[0]];
      assert WireWork(sent) == MsgWork(sent[0]) + WireWork(sent[1..]);
      WireWorkAppend(w, sent[0]);
    }
  }

  lemma SingleWork(sent: seq<AppMsg>)
    requires |sent| == 1
    ensures WireWork(sent) == MsgWork(sent[0])
  {
    assert WireWork(sent[1..]) == 0;
  }

  // ---- One stream ----

  /** Not a new demand: Open, Write, CloseWrite and Reset are. */
  predicate Internal(c: Call) {
    !c.OpenCall? && !c.WriteCall? && !c.CloseCall? && !c.ResetCall?
  }

  /** Nothing happens, or the work left shrinks. */
  predicate Settles(st: Stream, out: Out, credit: int) {
    |out.sent| <= 1 && StreamWork(out.st) + WireWork(out.sent) < StreamWork(st) + credit
  }

  predicate SettlesOrStill(st: Stream, out: Out) {
    (out.st == st && out.sent == []) || Settles(st, out, 0)
  }

  lemma KilledWork(st: Stream, buffered: int, fault: Fault)
    ensures StreamWork(RemoteReset(st, buffered, fault).st) <= StreamWork(st)
  {
  }

  lemma ResetSettles(st: Stream, buffered: int, fault: Fault, credit: int)
    requires credit > 1
    ensures Settles(st, ResetRemote(st, buffered, fault), credit)
  {
    KilledWork(st, buffered, fault);
    var sent := ResetRemote(st, buffered, fault).sent;
    SingleWork(sent);
  }

  lemma FinishWork(st: Stream, buffered: int)
    ensures StreamWork(MaybeFinish(st, buffered).st) <= StreamWork(st)
    ensures MaybeFinish(st, buffered).sent == []
    ensures Sane(st) ==> MaybeFinish(st, buffered).st == st || StreamWork(MaybeFinish(st, buffered).st) < StreamWork(st)
  {
  }

  lemma ReadSettles(st: Stream, buffered: int, room: nat)
    requires Sane(st)
    ensures SettlesOrStill(st, Read(st, buffered, room))
  {
    FinishWork(st, buffered);
    if room > 0 && st.life.reset.None? && st.rx.inQ != [] {
      var out := Read(st, buffered, room);
      DropFrontFlat(st.rx.inQ, |out.res.data|);
      SingleWork(out.sent);
    }
  }

  lemma TakeSettles(st: Stream, buffered: int)
    requires Sane(st)
    ensures SettlesOrStill(st, WriterTake(st, buffered))
  {
    if st.writer && st.tx.held == [] && st.life.reset.None? {
      var out := WriterTake(st, buffered);
      if st.tx.sendQ != [] && st.tx.sndCredit > 0 {
        DropFrontFlat(st.tx.sendQ, TakeSize(st));
      } else if out.sent != [] {
        FinishWork(st.(tx := st.tx.(localClosed := true), writer := false), buffered);
        SingleWork(out.sent);
      }
    }
  }

  lemma SendSettles(st: Stream, buffered: int, closed: bool)
    ensures SettlesOrStill(st, StreamCall(st, buffered, closed, LoopSend(st.id)))
  {
    var out := StreamCall(st, buffered, closed, LoopSend(st.id));
    if out.sent != [] {
      SingleWork(out.sent);
    }
  }

  lemma HandlerSettles(st: Stream, buffered: int, closed: bool, meta: Bytes, fault: Fault)
    requires Sane(st)
    ensures SettlesOrStill(st, AcceptOk(st, buffered, meta, closed))
    ensures SettlesOrStill(st, AcceptFail(st, buffered, fault))
  {
    var ok, no := AcceptOk(st, buffered, meta, closed), AcceptFail(st, buffered, fault);
    if st.hs.handling {
      SingleWork(ok.sent);
      SingleWork(no.sent);
    }
  }

  lemma OpenSettles(st: Stream, buffered: int, closed: bool)
    requires Sane(st)
    ensures SettlesOrStill(st, OpenReturn(st, buffered, closed))
    ensures SettlesOrStill(st, OpenExpire(st, buffered))
    ensures SettlesOrStill(st, StreamCall(st, buffered, closed, OpenAborted(st.id)))
  {
    if st.hs.waiting {
      ResetSettles(st.(hs := st.hs.(waiting := false)), buffered, OpenContextDone, 2);
    }
  }

  lemma CallSettles(st: Stream, buffered: int, closed: bool, c: Call)
    requires Sane(st) && Internal(c) && AboutStream(c)
    ensures SettlesOrStill(st, StreamCall(st, buffered, closed, c))
  {
    hide SettlesOrStill, Sane;
    StillSettles(st, buffered);
    match c
    case ReadCall(_, room) => ReadSettles(st, buffered, room);
    case LoopTake(_) => TakeSettles(st, buffered);
    case LoopSend(_) => SendSettles(st, buffered, closed);
    case HandlerAccept(_, meta) => HandlerSettles(st, buffered, closed, meta, OpenContextDone);
    case HandlerReject(_, fault) => HandlerSettles(st, buffered, closed, [], fault);
    case _ => OpenSettles(st, buffered, closed);
  }

  lemma StillSettles(st: Stream, buffered: int)
    ensures SettlesOrStill(st, Out(st, buffered, [], Blocked))
  {
  }

  lemma DataSettles(st: Stream, buffered: int, data: Bytes)
    ensures Settles(st, Deliver(st, buffered, data), 2 + 3 * |data|)
  {
    var out := Deliver(st, buffered, data);
    if out.res.Failed? {
      assert out == ResetRemote(st, buffered, out.res.fault);
      ResetSettles(st, buffered, out.res.fault, 2 + 3 * |data|);
    } else if data != [] {
      FlatAppend(st.rx.inQ, data);
    }
  }

  lemma CreditSettles(st: Stream, buffered: int, n: nat)
    ensures Settles(st, AddCredit(st, buffered, n), 2)
  {
    var out := AddCredit(st, buffered, n);
    if out.res.Failed? {
      assert out == ResetRemote(st, buffered, out.res.fault);
      ResetSettles(st, buffered, out.res.fault, 2);
    } else {
      hide AddCredit;
      assert out.sent == [] && out.st == st.(tx := st.tx.(sndCredit := out.st.tx.sndCredit));
    }
  }

  /** Taking a message leaves less work than the message was. */
  lemma ReceiveSettles(st: Stream, buffered: int, m: AppMsg)
    ensures Settles(st, Receive(st, buffered, m), MsgWork(m))
  {
    hide Deliver, AddCredit, HandleAccept, HandleReject, RemoteClose, StreamWork;
    match m
    case AppOpen(_, _, _) =>
    case AppAccept(_, meta, grant) => AcceptMsgSettles(st, buffered, meta, grant);
    case AppReject(_, code, message) => RejectSettles(st, buffered, Fault(code, message));
    case AppData(_, data) => DataSettles(st, buffered, data);
    case AppCredit(_, n) => CreditSettles(st, buffered, n);
    case AppClose(_) => CloseSettles(st, buffered);
    case AppReset(_, code, message) => KilledWork(st, buffered, Fault(code, message));
  }

  lemma RejectSettles(st: Stream, buffered: int, fault: Fault)
    ensures Settles(st, HandleReject(st, buffered, fault), 1)
  {
  }

  lemma CloseSettles(st: Stream, buffered: int)
    ensures Settles(st, RemoteClose(st, buffered), 1)
  {
    FinishWork(st.(rx := st.rx.(remoteClosed := true)), buffered);
  }

  lemma AcceptMsgSettles(st: Stream, buffered: int, meta: Bytes, grant: nat)
    ensures Settles(st, HandleAccept(st, buffered, meta, grant), 2)
  {
    var out := HandleAccept(st, buffered, meta, grant);
    if out.res.Failed? {
      assert out == ResetRemote(st, buffered, out.res.fault);
      ResetSettles(st, buffered, out.res.fault, 2);
    }
  }

  // ---- The system ----

  ghost predicate BothKept(sys: System) {
    SessionInv(sys.host) && SessionInv(sys.guest)
  }

  lemma {:induction false} AnyRunLocal(sys: System, evs: seq<Event>)
    requires BothKept(sys)
    ensures BothKept(Run(sys, evs))
    decreases |evs|
  {
    hide SessionInv;
    if evs != [] {
      AnyStepLocal(sys, evs[0]);
      AnyRunLocal(StepTo(sys, evs[0]), evs[1..]);
    }
  }

  lemma AnyStepLocal(sys: System, ev: Event)
    requires BothKept(sys)
    ensures BothKept(StepTo(sys, ev))
  {
    hide SessionInv, Next;
    if ev.Local? {
      NextInv(End(sys, ev.side), ev.c);
    } else if Sent(sys, !ev.side) != [] {
      NextInv(End(sys, ev.side), Incoming(Sent(sys, !ev.side)[0]));
    }
  }

  predicate InternalEvent(ev: Event) {
    ev.Arrive? || Internal(ev.c)
  }

  lemma OneStreamWork(s: Session, s': Session, id: nat)
    requires id in s'.streams && s'.streams == s.streams[id := s'.streams[id]] && s'.closed == s.closed
    ensures SessionWork(s') - SessionWork(s) == StreamWork(s'.streams[id]) - At(StreamWorks(s.streams), id)
  {
    assert StreamWorks(s'.streams) == StreamWorks(s.streams)[id := StreamWork(s'.streams[id])];
    TotalUpdate(StreamWorks(s.streams), id, StreamWork(s'.streams[id]));
  }

  lemma LostWork(s: Session)
    ensures SessionWork(Fail(s)) <= SessionWork(s)
    ensures !s.closed ==> SessionWork(Fail(s)) < SessionWork(s)
  {
    if !s.closed {
      var s' := Fail(s);
      forall id | id in s.streams ensures StreamWork(s'.streams[id]) <= StreamWork(s.streams[id]) {
        KilledWork(s.streams[id], 0, ConnectionClosed);
      }
      TotalMonotone(StreamWorks(s'.streams), StreamWorks(s.streams));
    }
  }

  /** A goroutine step of a session. */
  lemma NextSettles(s: Session, c: Call)
    requires SessionInv(s) && Internal(c) && !c.Incoming?
    ensures |Next(s, c).sent| <= 1
    ensures (Next(s, c).s == s && Next(s, c).sent == [])
         || SessionWork(Next(s, c).s) + WireWork(Next(s, c).sent) < SessionWork(s)
  {
    hide SessionInv, StreamCall, SessionWork, StreamWork;
    if c.ConnectionLost? {
      LostWork(s);
    } else if c.id in s.streams {
      StreamSane(s, c.id);
      CallSettles(s.streams[c.id], s.buffered, s.closed, c);
      CallLedger(s, c);
      var out := StreamCall(s.streams[c.id], s.buffered, s.closed, c);
      if out.st == s.streams[c.id] && out.sent == [] {
        assert s.streams[c.id := out.st] == s.streams;
      } else {
        OneStreamWork(s, Next(s, c).s, c.id);
      }
    }
  }

  lemma StreamSane(s: Session, id: nat)
    requires SessionInv(s) && id in s.streams
    ensures Sane(s.streams[id])
  {
    assert StreamOk(s, id);
  }

  lemma CallLedger(s: Session, c: Call)
    requires SessionInv(s) && AboutStream(c) && c.id in s.streams
    ensures var st, out := s.streams[c.id], StreamCall(s.streams[c.id], s.buffered, s.closed, c);
            out.st == st ==> out.buffered == s.buffered
  {
    StreamCallKeeps(s, c);
  }

  /** Taking a message. */
  lemma MessageSettles(s: Session, m: AppMsg)
    requires SessionInv(s) && !s.closed
    ensures |HandleMessage(s, m).sent| <= 1
    ensures SessionWork(HandleMessage(s, m).s) + WireWork(HandleMessage(s, m).sent) < SessionWork(s) + MsgWork(m)
  {
    hide SessionInv, Receive, SessionWork, StreamWork;
    var e := HandleMessage(s, m);
    if !Fits(m) {
      LostWork(s);
    } else if m.AppOpen? {
      OpenSettlesIn(s, m);
    } else if m.streamID in Table(s) {
      ReceiveSettles(s.streams[m.streamID], s.buffered, m);
      OneStreamWork(s, e.s, m.streamID);
    }
  }

  lemma OpenSettlesIn(s: Session, m: AppMsg)
    requires m.AppOpen?
    ensures var e := HandleOpen(s, m.streamID, m.service, m.meta);
            |e.sent| <= 1 && SessionWork(e.s) + WireWork(e.sent) < SessionWork(s) + MsgWork(m)
  {
    hide SessionWork;
    var e := HandleOpen(s, m.streamID, m.service, m.meta);
    if e.sent == [] {
      OneStreamWork(s, e.s, m.streamID);
    } else {
      SingleWork(e.sent);
    }
  }

  /**
   Quiescence, in every run whatever the interleaving: an event that is not an Open, Write,
   CloseWrite or Reset call changes nothing or leaves strictly less work.
   */
  lemma StepSettles(sys: System, ev: Event)
    requires BothKept(sys) && InternalEvent(ev)
    ensures StepTo(sys, ev) == sys || Work(StepTo(sys, ev)) < Work(sys)
  {
    hide SessionInv, Next, SessionWork;
    var s := End(sys, ev.side);
    match ev
    case Local(side, c) =>
      if !c.Incoming? {
        NextSettles(s, c);
        WireWorkSent(Sent(sys, side), Next(s, c).sent);
        assert Sent(sys, side) + [] == Sent(sys, side);
      }
    case Arrive(side) =>
      if !s.closed && Sent(sys, !side) != [] {
        var m := Sent(sys, !side)[0];
        MessageSettles(s, m);
        NextIncoming(s, m);
        WireWorkSent(Sent(sys, side), HandleMessage(s, m).sent);
      }
  }

  /**
   There are no reset storms: a session never answers a RESET, a REJECT or a CLOSE about a stream. It
   answers one with ERROR, which ends it, exactly if its reason is too long for its length field.
   */
  lemma NoReply(s: Session, m: AppMsg)
    requires m.AppReset? || m.AppReject? || m.AppClose?
    ensures HandleMessage(s, m).sent == []
    ensures HandleMessage(s, m).errors == (if s.closed || Fits(m) then [] else [BadPayload])
  {
    hide MaybeFinish;
    if m.streamID in s.streams {
      assert Receive(s.streams[m.streamID], s.buffered, m).sent == [];
    }
  }

  lemma NextIncoming(s: Session, m: AppMsg)
    ensures Next(s, Incoming(m)) == HandleMessage(s, m)
  {
  }

  /** How many events of a run change the system. */
  function Changes(sys: System, evs: seq<Event>): nat
    decreases |evs|
  {
    if evs == [] then 0 else (if StepTo(sys, evs[0]) == sys then 0 else 1) + Changes(StepTo(sys, evs[0]), evs[1..])
  }

  lemma {:induction false} WorkNonNegative(sys: System)
    ensures Work(sys) >= 0
  {
    forall s: Session ensures Total(StreamWorks(s.streams)) >= 0 {
      var zero := map id | id in s.streams :: 0;
      TotalZero(zero);
      TotalMonotone(zero, StreamWorks(s.streams));
    }
  }

  /** Once the application makes no new demands, the system changes at most as often as there is work left. */
  lemma {:induction false} Quiescence(sys: System, evs: seq<Event>)
    requires BothKept(sys)
    requires forall i :: 0 <= i < |evs| ==> InternalEvent(evs[i])
    ensures Changes(sys, evs) <= Work(sys)
    decreases |evs|
  {
    hide SessionInv, Work;
    WorkNonNegative(sys);
    if evs != [] {
      AnyStepLocal(sys, evs[0]);
      StepSettles(sys, evs[0]);
      Quiescence(StepTo(sys, evs[0]), evs[1..]);
    }
  }

  /**
   In every run, whatever the interleaving: a pass of the write loop that has bytes and
   credit takes at least one byte and at most a frame's worth, and a Read that finds a
   queued chunk returns at least one byte.
   */
  lemma StepsMoveBytes(evs: seq<Event>, side: bool, id: nat, room: nat)
    requires id in End(Run(Start(), evs), side).streams && room > 0
    ensures var s := End(Run(Start(), evs), side);
            var st := s.streams[id];
            && (st.writer && st.tx.held == [] && st.life.reset.None? && st.tx.sendQ != [] && st.tx.sndCredit > 0 ==>
                  1 <= |WriterTake(st, s.buffered).st.tx.held| <= AppMaxDataBytes)
            && (st.life.reset.None? && st.rx.inQ != [] ==>
                  Read(st, s.buffered, room).res.Got? && 1 <= |Read(st, s.buffered, room).res.data| <= room)
  {
    hide SessionInv;
    NewSessionInv(false);
    NewSessionInv(true);
    AnyRunLocal(Start(), evs);
    StreamSane(End(Run(Start(), evs), side), id);
  }
}
