/**
 The streams as their users see them: the bytes that Write calls accept and Read calls
 return, and the data that messages bring in, over whole runs.
 */
module AppHistory {
  import opened Basics
  import opened AppLimits
  import opened AppMessages
  import opened AppStream
  import opened AppStreamProofs
  import opened AppSession
  import opened AppSessionProofs
  import opened AppPhase
  import opened AppSystem
  import opened AppProgress
  import opened AppTheorems
  import opened AppLifecycle

  // ---- What one call accepts, returns or brings in ----

  /** The bytes a Read of stream `id` returned to its caller. */
  function ReadBy(c: Call, res: Result, id: nat): Bytes {
    if c.ReadCall? && c.id == id && res.Got? then res.data else []
  }

  /** The bytes a Write to stream `id` reported as accepted. */
  function WrittenBy(c: Call, res: Result, id: nat): Bytes {
    if c.WriteCall? && c.id == id && res.Wrote? && 0 <= res.n <= |c.p| then c.p[..res.n] else []
  }

  /** The data a message brings to stream `id` while it is in the table. */
  function BroughtBy(s: Session, c: Call, id: nat): Bytes {
    if c.Incoming? && c.m.AppData? && c.m.streamID == id && !s.closed && id in Table(s) && Fits(c.m) then c.m.data
    else []
  }

  function GotOf(s: Session, id: nat): Bytes {
    if id in s.streams then s.streams[id].rx.got else []
  }

  function WroteOf(s: Session, id: nat): Bytes {
    if id in s.streams then s.streams[id].tx.wrote else []
  }

  /** Read or waiting to be read. */
  function InOf(s: Session, id: nat): Bytes {
    if id in s.streams then s.streams[id].rx.got + Flat(s.streams[id].rx.inQ) else []
  }

  /** Not reset, as far as it exists. */
  predicate Clear(s: Session, id: nat) {
    id in s.streams ==> s.streams[id].life.reset.None?
  }

  // ---- One stream ----

  predicate SameBytes(st: Stream, st': Stream) {
    st'.rx.got == st.rx.got && st'.rx.inQ == st.rx.inQ && st'.tx.wrote == st.tx.wrote
  }

  lemma FinishBytes(st: Stream, b: int)
    ensures SameBytes(st, Finish(st, b).st)
  {
  }

  lemma MaybeFinishBytes(st: Stream, b: int)
    ensures SameBytes(st, MaybeFinish(st, b).st)
  {
    hide Finish;
    FinishBytes(st, b);
  }

  lemma ResetBytes(st: Stream, b: int, fault: Fault)
    ensures SameBytes(st, RemoteReset(st, b, fault).st) && SameBytes(st, ResetRemote(st, b, fault).st)
    ensures RemoteReset(st, b, fault).st.life.reset.Some? && ResetRemote(st, b, fault).st.life.reset.Some?
  {
    FinishBytes(SetReset(st, fault), b);
  }

  /** A Read returns exactly the bytes it takes off the front of the queue. */
  lemma ReadBytes(st: Stream, b: int, room: nat)
    ensures var out := Read(st, b, room);
            && out.st.tx.wrote == st.tx.wrote
            && out.st.rx.got == st.rx.got + (if out.res.Got? then out.res.data else [])
            && out.st.rx.got + Flat(out.st.rx.inQ) == st.rx.got + Flat(st.rx.inQ)
  {
    hide MaybeFinish, DropFront;
    MaybeFinishBytes(st, b);
    if room > 0 && st.life.reset.None? && st.rx.inQ != [] {
      DropFrontFlat(st.rx.inQ, Min(room, |st.rx.inQ[0]|));
    }
  }

  /** A Write takes all of its bytes, or none. */
  lemma WriteBytes(st: Stream, b: int, p: Bytes)
    ensures var out := Write(st, b, p);
            && out.st.rx.got == st.rx.got && out.st.rx.inQ == st.rx.inQ && (out.res.Wrote? ==> out.res.n == |p|)
            && out.st.tx.wrote == st.tx.wrote + (if out.res.Wrote? then p else [])
  {
    hide ResetRemote;
    var out := Write(st, b, p);
    if out.res.Failed? && st.life.reset.None? {
      ResetBytes(st, b, out.res.fault);
    }
  }

  lemma CloseBytes(st: Stream, b: int)
    ensures SameBytes(st, CloseWrite(st, b).st)
  {
    hide MaybeFinish;
    MaybeFinishBytes(st.(tx := st.tx.(closeAfterFlush := true, localClosed := true, early := st.tx.held != [])), b);
  }

  lemma TakeBytes(st: Stream, b: int)
    ensures SameBytes(st, WriterTake(st, b).st)
  {
    hide MaybeFinish, DropFront, TakeSize;
    MaybeFinishBytes(st.(tx := st.tx.(localClosed := true), writer := false), b);
  }

  lemma OpenBytes(st: Stream, b: int, closed: bool)
    ensures SameBytes(st, OpenReturn(st, b, closed).st) && SameBytes(st, OpenExpire(st, b).st)
  {
    hide ResetRemote;
    ResetBytes(st.(hs := st.hs.(waiting := false)), b, OpenContextDone);
  }

  lemma AcceptBytes(st: Stream, b: int, closed: bool, meta: Bytes, fault: Fault)
    ensures SameBytes(st, AcceptOk(st, b, meta, closed).st) && SameBytes(st, AcceptFail(st, b, fault).st)
  {
  }

  lemma CallBytes(st: Stream, b: int, closed: bool, c: Call)
    requires AboutStream(c)
    ensures var out := StreamCall(st, b, closed, c);
            && out.st.rx.got == st.rx.got + ReadBy(c, out.res, c.id)
            && out.st.tx.wrote == st.tx.wrote + WrittenBy(c, out.res, c.id)
            && out.st.rx.got + Flat(out.st.rx.inQ) == st.rx.got + Flat(st.rx.inQ)
  {
    hide Write, Read, CloseWrite, WriterTake, OpenReturn, OpenExpire, AcceptOk, AcceptFail, ResetRemote;
    match c
    case WriteCall(_, p) =>
      WriteBytes(st, b, p);
      assert p[..|p|] == p;
    case ReadCall(_, room) => ReadBytes(st, b, room);
    case CloseCall(_) => CloseBytes(st, b);
    case LoopTake(_) => TakeBytes(st, b);
    case ResetCall(_, fault) => ResetBytes(st, b, fault);
    case HandlerAccept(_, meta) => AcceptBytes(st, b, closed, meta, ConnectionClosed);
    case HandlerReject(_, fault) => AcceptBytes(st, b, closed, [], fault);
    case OpenReady(_) => OpenBytes(st, b, closed);
    case OpenTimeout(_) => OpenBytes(st, b, closed);
    case _ =>
  }

  /** Data is queued whole, behind what is queued, or the stream is reset. */
  lemma DeliverBytes(st: Stream, b: int, data: Bytes)
    ensures var out := Deliver(st, b, data);
            && out.st.rx.got == st.rx.got && out.st.tx.wrote == st.tx.wrote
            && (out.st.life.reset.None? ==> Flat(out.st.rx.inQ) == Flat(st.rx.inQ) + data)
  {
    hide ResetRemote, Violation;
    var out := Deliver(st, b, data);
    if out.res.Failed? {
      ResetBytes(st, b, out.res.fault);
    } else if data != [] {
      FlatAppend(st.rx.inQ, data);
    } else {
      assert Flat(st.rx.inQ) + [] == Flat(st.rx.inQ);
    }
  }

  lemma OtherBytes(st: Stream, b: int, m: AppMsg)
    requires !m.AppData?
    ensures SameBytes(st, Receive(st, b, m).st)
  {
    hide MaybeFinish, ResetRemote, RemoteReset, Violation;
    MaybeFinishBytes(st.(rx := st.rx.(remoteClosed := true)), b);
    if m.AppReset? {
      ResetBytes(st, b, Fault(m.code, m.message));
    } else if Receive(st, b, m).res.Failed? {
      ResetBytes(st, b, Receive(st, b, m).res.fault);
    }
  }

  lemma ReceiveBytes(st: Stream, b: int, m: AppMsg)
    ensures var out := Receive(st, b, m);
            && out.st.rx.got == st.rx.got && out.st.tx.wrote == st.tx.wrote
            && (out.st.life.reset.None? ==>
                  Flat(out.st.rx.inQ) == Flat(st.rx.inQ) + (if m.AppData? then m.data else []))
  {
    assert Flat(st.rx.inQ) + [] == Flat(st.rx.inQ);
    if m.AppData? {
      hide Deliver;
      DeliverBytes(st, b, m.data);
    } else {
      hide Receive;
      OtherBytes(st, b, m);
    }
  }

  // ---- One session ----

  lemma OpenKeepsBytes(s: Session, c: Call, id: nat)
    requires SessionInv(s) && c.OpenCall?
    ensures GotOf(Next(s, c).s, id) == GotOf(s, id) && WroteOf(Next(s, c).s, id) == WroteOf(s, id)
    ensures InOf(Next(s, c).s, id) == InOf(s, id)
  {
    hide SessionInv, ValidAppService, Table;
    if Next(s, c).sent != [] {
      OpenFresh(s);
    }
  }

  lemma FailKeepsBytes(s: Session, id: nat)
    ensures GotOf(Fail(s), id) == GotOf(s, id) && WroteOf(Fail(s), id) == WroteOf(s, id)
    ensures InOf(Fail(s), id) == InOf(s, id)
  {
    hide RemoteReset;
    if id in s.streams {
      ResetBytes(s.streams[id], 0, ConnectionClosed);
    }
  }

  lemma MessageKeepsBytes(s: Session, c: Call, id: nat)
    requires c.Incoming? && !Reopens(s, c)
    ensures GotOf(Next(s, c).s, id) == GotOf(s, id) && WroteOf(Next(s, c).s, id) == WroteOf(s, id)
    ensures Clear(Next(s, c).s, id) ==> InOf(Next(s, c).s, id) == InOf(s, id) + BroughtBy(s, c, id)
  {
    hide Receive, Fail, ValidAppService, GuestID;
    FailKeepsBytes(s, id);
    assert InOf(s, id) + [] == InOf(s, id);
    if !s.closed && Fits(c.m) && !c.m.AppOpen? && c.m.streamID in Table(s) {
      OneMessage(s, c, id);
    }
  }

  lemma OneMessage(s: Session, c: Call, id: nat)
    requires c.Incoming? && !s.closed && Fits(c.m) && !c.m.AppOpen? && c.m.streamID in Table(s)
    ensures GotOf(Next(s, c).s, id) == GotOf(s, id) && WroteOf(Next(s, c).s, id) == WroteOf(s, id)
    ensures Clear(Next(s, c).s, id) ==> InOf(Next(s, c).s, id) == InOf(s, id) + BroughtBy(s, c, id)
  {
    hide Receive, Fail, HandleOpen, Fits;
    var st := s.streams[c.m.streamID];
    var out := Receive(st, s.buffered, c.m);
    ReceiveBytes(st, s.buffered, c.m);
    assert InOf(s, id) + [] == InOf(s, id);
    if id == c.m.streamID && out.st.life.reset.None? {
      assert st.rx.got + (Flat(st.rx.inQ) + BroughtBy(s, c, id)) == InOf(s, id) + BroughtBy(s, c, id);
    }
  }

  lemma CallKeepsBytes(s: Session, c: Call, id: nat)
    requires AboutStream(c)
    ensures GotOf(Next(s, c).s, id) == GotOf(s, id) + ReadBy(c, Next(s, c).res, id)
    ensures WroteOf(Next(s, c).s, id) == WroteOf(s, id) + WrittenBy(c, Next(s, c).res, id)
    ensures InOf(Next(s, c).s, id) == InOf(s, id)
  {
    hide StreamCall;
    if c.id in s.streams {
      CallBytes(s.streams[c.id], s.buffered, s.closed, c);
    }
  }

  /** Every call and message, as far as it does not start a stream anew under a known ID. */
  lemma NextBytes(s: Session, c: Call, id: nat)
    requires SessionInv(s) && !Reopens(s, c)
    ensures GotOf(Next(s, c).s, id) == GotOf(s, id) + ReadBy(c, Next(s, c).res, id)
    ensures WroteOf(Next(s, c).s, id) == WroteOf(s, id) + WrittenBy(c, Next(s, c).res, id)
    ensures Clear(Next(s, c).s, id) ==> InOf(Next(s, c).s, id) == InOf(s, id) + BroughtBy(s, c, id)
  {
    hide SessionInv, Reopens, Fail, InOf, GotOf, WroteOf, StreamCall, HandleMessage, OpenStream;
    assert GotOf(s, id) + [] == GotOf(s, id) && WroteOf(s, id) + [] == WroteOf(s, id);
    assert InOf(s, id) + [] == InOf(s, id);
    if c.OpenCall? {
      OpenKeepsBytes(s, c, id);
    } else if c.ConnectionLost? {
      FailKeepsBytes(s, id);
    } else if c.Incoming? {
      MessageKeepsBytes(s, c, id);
    } else {
      CallKeepsBytes(s, c, id);
    }
  }

  /** The bytes that Read calls of stream `id` returned along a run of one session. */
  function Returned(s: Session, cs: seq<Call>, id: nat): Bytes
    decreases |cs|
  {
    if cs == [] then []
    else ReadBy(cs[0], Next(s, cs[0]).res, id) + Returned(Next(s, cs[0]).s, cs[1..], id)
  }

  /** The bytes that Write calls on it accepted. */
  function Accepted(s: Session, cs: seq<Call>, id: nat): Bytes
    decreases |cs|
  {
    if cs == [] then []
    else WrittenBy(cs[0], Next(s, cs[0]).res, id) + Accepted(Next(s, cs[0]).s, cs[1..], id)
  }

  /** The data that messages brought to it. */
  function Brought(s: Session, cs: seq<Call>, id: nat): Bytes
    decreases |cs|
  {
    if cs == [] then [] else BroughtBy(s, cs[0], id) + Brought(Next(s, cs[0]).s, cs[1..], id)
  }

  lemma {:induction false} AfterBytes(s: Session, cs: seq<Call>, id: nat)
    requires SessionInv(s) && NoReopening(s, cs)
    ensures GotOf(After(s, cs), id) == GotOf(s, id) + Returned(s, cs, id)
    ensures WroteOf(After(s, cs), id) == WroteOf(s, id) + Accepted(s, cs, id)
    ensures Clear(After(s, cs), id) ==> InOf(After(s, cs), id) == InOf(s, id) + Brought(s, cs, id)
    decreases |cs|
  {
    hide SessionInv, Reopens, Next, InOf, GotOf, WroteOf, ReadBy, WrittenBy, BroughtBy, Onward, Clear;
    if cs == [] {
      assert GotOf(s, id) + [] == GotOf(s, id) && WroteOf(s, id) + [] == WroteOf(s, id);
      assert InOf(s, id) + [] == InOf(s, id);
    } else {
      var s' := Next(s, cs[0]).s;
      NextBytes(s, cs[0], id);
      NextInv(s, cs[0]);
      AfterBytes(s', cs[1..], id);
      PeerOnward(s', cs[1..]);
      if Clear(After(s, cs), id) {
        StayedClear(s', After(s, cs), id);
      }
    }
  }

  lemma StayedClear(s: Session, s': Session, id: nat)
    requires Onward(s, s') && Clear(s', id)
    ensures Clear(s, id)
  {
  }

  /**
   Against an arbitrary peer that reopens nothing: the Read calls have returned what the history
   records, the Write calls have accepted what it records, and on a stream that is not reset every
   byte of data that came for it has been read or waits to be read, in order: none is dropped in
   silence.
   */
  lemma PeerBytes(guest: bool, cs: seq<Call>, id: nat)
    requires NoReopening(NewSession(guest), cs) && id in After(NewSession(guest), cs).streams
    ensures var st := After(NewSession(guest), cs).streams[id];
            && st.rx.got == Returned(NewSession(guest), cs, id) && st.tx.wrote == Accepted(NewSession(guest), cs, id)
            && (st.life.reset.None? ==> st.rx.got + Flat(st.rx.inQ) == Brought(NewSession(guest), cs, id))
  {
    hide SessionInv, Next, NoReopening;
    NewSessionInv(guest);
    AfterBytes(NewSession(guest), cs, id);
  }

  // ---- Two sessions ----

  /** What an event makes one side's Read calls return. */
  function ReadAt(sys: System, ev: Event, side: bool, id: nat): Bytes {
    if ev.Local? && ev.side == side then ReadBy(ev.c, Next(End(sys, side), ev.c).res, id) else []
  }

  function WrittenAt(sys: System, ev: Event, side: bool, id: nat): Bytes {
    if ev.Local? && ev.side == side then WrittenBy(ev.c, Next(End(sys, side), ev.c).res, id) else []
  }

  /** Everything one side's Read calls on stream `id` have returned along a run. */
  function AllRead(sys: System, evs: seq<Event>, side: bool, id: nat): Bytes
    decreases |evs|
  {
    if evs == [] then [] else ReadAt(sys, evs[0], side, id) + AllRead(StepTo(sys, evs[0]), evs[1..], side, id)
  }

  /** Everything its Write calls have accepted. */
  function AllWritten(sys: System, evs: seq<Event>, side: bool, id: nat): Bytes
    decreases |evs|
  {
    if evs == [] then [] else WrittenAt(sys, evs[0], side, id) + AllWritten(StepTo(sys, evs[0]), evs[1..], side, id)
  }

  /** A correct peer reopens nothing. */
  lemma NeverReopens(sys: System, side: bool)
    requires SysInv(sys) && !End(sys, side).closed && Sent(sys, !side) != []
    ensures !Reopens(End(sys, side), Incoming(Sent(sys, !side)[0]))
  {
    hide SysInv;
    if Sent(sys, !side)[0].AppOpen? {
      OpenWelcome(sys, side);
    }
  }

  lemma StepBytes(sys: System, ev: Event, side: bool, id: nat)
    requires SysInv(sys)
    ensures GotOf(End(StepTo(sys, ev), side), id) == GotOf(End(sys, side), id) + ReadAt(sys, ev, side, id)
    ensures WroteOf(End(StepTo(sys, ev), side), id) == WroteOf(End(sys, side), id) + WrittenAt(sys, ev, side, id)
  {
    hide Next, SessionInv, PairAt, GotOf, WroteOf, Reopens;
    var s := End(sys, side);
    assert GotOf(s, id) + [] == GotOf(s, id) && WroteOf(s, id) + [] == WroteOf(s, id);
    if ev.side == side {
      match ev
      case Local(_, c) =>
        if !c.Incoming? {
          assert !Reopens(s, c) by {
            OwnCall(s, c);
          }
          NextBytes(s, c, id);
        }
      case Arrive(_) =>
        if !s.closed && Sent(sys, !side) != [] {
          NeverReopens(sys, side);
          NextBytes(s, Incoming(Sent(sys, !side)[0]), id);
        }
    }
  }

  lemma OwnCall(s: Session, c: Call)
    requires !c.Incoming?
    ensures !Reopens(s, c)
  {
  }

  lemma {:induction false} RunBytes(sys: System, evs: seq<Event>, side: bool, id: nat)
    requires SysInv(sys)
    ensures GotOf(End(Run(sys, evs), side), id) == GotOf(End(sys, side), id) + AllRead(sys, evs, side, id)
    ensures WroteOf(End(Run(sys, evs), side), id) == WroteOf(End(sys, side), id) + AllWritten(sys, evs, side, id)
    decreases |evs|
  {
    hide SysInv, StepTo, GotOf, WroteOf, ReadAt, WrittenAt;
    if evs == [] {
      assert GotOf(End(sys, side), id) + [] == GotOf(End(sys, side), id);
      assert WroteOf(End(sys, side), id) + [] == WroteOf(End(sys, side), id);
    } else {
      StepBytes(sys, evs[0], side, id);
      StepInv(sys, evs[0]);
      RunBytes(StepTo(sys, evs[0]), evs[1..], side, id);
    }
  }

  lemma StartBytes(evs: seq<Event>, side: bool, id: nat)
    ensures GotOf(End(Run(Start(), evs), side), id) == AllRead(Start(), evs, side, id)
    ensures WroteOf(End(Run(Start(), evs), side), id) == AllWritten(Start(), evs, side, id)
  {
    hide Run;
    StartInv();
    RunBytes(Start(), evs, side, id);
  }

  /** A stream that has been read has its other end. */
  lemma ReadPaired(sys: System, side: bool, id: nat)
    requires SysInv(sys) && GotOf(End(sys, side), id) != []
    ensures Paired(sys, id)
  {
    hide SessionInv, PairAt;
    StreamSane(End(sys, side), id);
    HandlePaired(sys, side, id);
  }

  /**
   End to end, in terms of the calls alone: in every run, what one side's Read calls on a stream have
   returned is a prefix of what the other side's Write calls on it have accepted.
   */
  lemma EndToEnd(evs: seq<Event>, side: bool, id: nat)
    ensures AllRead(Start(), evs, side, id) <= AllWritten(Start(), evs, !side, id)
  {
    hide SysInv, Run;
    StartInv();
    RunInv(Start(), evs);
    StartBytes(evs, side, id);
    StartBytes(evs, !side, id);
    if AllRead(Start(), evs, side, id) != [] {
      ReadPaired(Run(Start(), evs), side, id);
      Fidelity(evs, !side, id);
    }
  }

  /** So a Read returns the next bytes the peer wrote, at least one and no more than it has room for. */
  lemma ReadReturnsNext(evs: seq<Event>, side: bool, id: nat, room: nat)
    requires room > 0 && Next(End(Run(Start(), evs), side), ReadCall(id, room)).res.Got?
    ensures var data := Next(End(Run(Start(), evs), side), ReadCall(id, room)).res.data;
            && 1 <= |data| <= room
            && AllRead(Start(), evs, side, id) + data <= AllWritten(Start(), evs, !side, id)
  {
    hide SysInv, Run, Next, AllRead, AllWritten, SessionInv;
    var sys, ev := Run(Start(), evs), Local(side, ReadCall(id, room));
    OneMore(evs, ev, side, id);
    OneMore(evs, ev, !side, id);
    EndToEnd(evs + [ev], side, id);
    assert AllWritten(Start(), evs, !side, id) + [] == AllWritten(Start(), evs, !side, id);
    RunSession(evs, side);
    SomeRead(End(sys, side), id, room);
  }

  lemma RunSession(evs: seq<Event>, side: bool)
    ensures SessionInv(End(Run(Start(), evs), side))
  {
    hide Run, SessionInv, PairAt;
    StartInv();
    RunInv(Start(), evs);
  }

  /** And at EOF everything the peer wrote has been returned, exactly if its close did not overtake a chunk. */
  lemma EofReturnsAll(evs: seq<Event>, side: bool, id: nat, room: nat)
    requires Next(End(Run(Start(), evs), side), ReadCall(id, room)).res.Eof?
    ensures AllRead(Start(), evs, side, id) == AllWritten(Start(), evs, !side, id)
       <==> !EarlyAt(Run(Start(), evs), !side, id)
  {
    hide SysInv, Run, Next, AllRead, AllWritten;
    StartBytes(evs, side, id);
    StartBytes(evs, !side, id);
    EofComplete(evs, side, id, room);
  }

  lemma SomeRead(s: Session, id: nat, room: nat)
    requires room > 0 && Next(s, ReadCall(id, room)).res.Got? && SessionInv(s)
    ensures 1 <= |Next(s, ReadCall(id, room)).res.data| <= room
  {
    hide SessionInv, MaybeFinish, DropFront;
    StreamSane(s, id);
  }

  lemma {:induction false} MoreRead(sys: System, evs: seq<Event>, ev: Event, side: bool, id: nat)
    ensures AllRead(sys, evs + [ev], side, id) == AllRead(sys, evs, side, id) + ReadAt(Run(sys, evs), ev, side, id)
    ensures AllWritten(sys, evs + [ev], side, id)
         == AllWritten(sys, evs, side, id) + WrittenAt(Run(sys, evs), ev, side, id)
    decreases |evs|
  {
    hide StepTo, ReadAt, WrittenAt;
    if evs == [] {
      assert evs + [ev] == [ev] && [ev][1..] == [];
      assert ReadAt(sys, ev, side, id) + [] == ReadAt(sys, ev, side, id);
      assert WrittenAt(sys, ev, side, id) + [] == WrittenAt(sys, ev, side, id);
    } else {
      assert (evs + [ev])[1..] == evs[1..] + [ev];
      MoreRead(StepTo(sys, evs[0]), evs[1..], ev, side, id);
    }
  }

  lemma OneMore(evs: seq<Event>, ev: Event, side: bool, id: nat)
    ensures AllRead(Start(), evs + [ev], side, id)
         == AllRead(Start(), evs, side, id) + ReadAt(Run(Start(), evs), ev, side, id)
    ensures AllWritten(Start(), evs + [ev], side, id)
         == AllWritten(Start(), evs, side, id) + WrittenAt(Run(Start(), evs), ev, side, id)
  {
    hide AllRead, AllWritten, Run;
    MoreRead(Start(), evs, ev, side, id);
  }
}
