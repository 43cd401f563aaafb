/**
 What each call and each message does to a session that any peer may have driven here:
 the result its caller gets, the messages it sends, and when it resets a stream and with
 which code. Sizes are those of the queues, not of the counters the code keeps.
 */
module AppContracts {
  import opened Basics
  import opened AppLimits
  import opened AppMessages
  import opened AppStream
  import opened AppStreamProofs
  import opened AppSession
  import opened AppSessionProofs
  import opened AppPhase

  const KiB: int := 1024
  const MiB: int := 1024 * 1024

  /** Stream `id` has been reset with this reason and has left the table; the peer is told while there is one. */
  predicate ResetWith(s: Session, e: Effect, id: nat, fault: Fault) {
    && id in e.s.streams && e.s.streams[id].life.reset == Some(fault) && id !in Table(e.s)
    && e.sent == Said(s, AppReset(id, fault.code, fault.message))
  }

  predicate ResetCoded(s: Session, e: Effect, id: nat, code: nat) {
    && id in e.s.streams && e.s.streams[id].life.reset.Some? && e.s.streams[id].life.reset.value.code == code
    && ResetWith(s, e, id, e.s.streams[id].life.reset.value)
  }

  /** A session whose connection is gone says nothing. */
  function Said(s: Session, m: AppMsg): seq<AppMsg> {
    if s.closed then [] else [m]
  }

  /** Nothing has changed but stream `id` and the ledger. */
  predicate OnlyAt(s: Session, s': Session, id: nat) {
    && s'.guest == s.guest && s'.nextID == s.nextID && s'.closed == s.closed
    && s'.streams.Keys == s.streams.Keys && forall j :: j in s.streams && j != id ==> s'.streams[j] == s.streams[j]
  }

  /** The stream of a valid session: its counters are what its queues hold. */
  predicate Own(s: Session, id: nat, st: Stream) {
    && id in s.streams && s.streams[id] == st && st.id == id && Sane(st)
    && (st.attached <==> id in Table(s)) && (st.attached ==> !s.closed)
  }

  lemma OwnStream(s: Session, id: nat)
    requires SessionInv(s) && id in s.streams
    ensures Own(s, id, s.streams[id])
  {
    assert StreamOk(s, id);
  }

  /** How the session takes a call about one of its streams. */
  lemma AsCall(s: Session, c: Call)
    requires SessionInv(s) && AboutStream(c) && c.id in s.streams
    ensures var e, out := Next(s, c), StreamCall(s.streams[c.id], s.buffered, s.closed, c);
            && Own(s, c.id, s.streams[c.id]) && OnlyAt(s, e.s, c.id)
            && e.s.streams[c.id] == out.st && e.s.buffered == out.buffered && e.res == out.res
            && e.sent == (if s.closed then [] else out.sent) && (c.id in Table(e.s) <==> out.st.attached)
  {
    hide StreamCall, SessionInv, Own;
    OwnStream(s, c.id);
  }

  /** How it takes a message about a stream in its table. */
  lemma AsMessage(s: Session, m: AppMsg)
    requires SessionInv(s) && Fits(m) && !m.AppOpen? && m.streamID in Table(s)
    ensures var e, out := Next(s, Incoming(m)), Receive(s.streams[m.streamID], s.buffered, m);
            && Own(s, m.streamID, s.streams[m.streamID]) && OnlyAt(s, e.s, m.streamID) && !s.closed
            && e.s.streams[m.streamID] == out.st && e.s.buffered == out.buffered
            && e.sent == out.sent && (m.streamID in Table(e.s) <==> out.st.attached)
  {
    hide Receive, SessionInv, Own, Fits;
    OwnStream(s, m.streamID);
    TableOpen(s, m.streamID);
  }

  lemma TableOpen(s: Session, id: nat)
    requires SessionInv(s) && id in Table(s)
    ensures !s.closed
  {
    assert StreamOk(s, id);
  }

  // ---- Teardown ----

  lemma ResetDone(st: Stream, b: int, fault: Fault)
    requires Sane(st) && st.life.reset.None?
    ensures var out := ResetRemote(st, b, fault);
            && out.st.life.reset == Some(fault) && !out.st.attached
            && out.sent == [AppReset(st.id, fault.code, fault.message)]
    ensures var out := RemoteReset(st, b, fault); out.st.life.reset == Some(fault) && !out.st.attached && out.sent == []
  {
  }

  /** Reset resets a stream with the reason it is given, the first time, and tells the peer. */
  lemma ResetContract(s: Session, id: nat, fault: Fault)
    requires SessionInv(s) && id in s.streams && s.streams[id].handle
    ensures var e := Next(s, ResetCall(id, fault));
            && OnlyAt(s, e.s, id) && id !in Table(e.s) && e.res == Failed(fault)
            && e.sent == Said(s, AppReset(id, fault.code, fault.message))
            && e.s.streams[id].life.reset ==
               (if s.streams[id].life.reset.Some? then s.streams[id].life.reset else Some(fault))
  {
    hide SessionInv;
    AsCall(s, ResetCall(id, fault));
  }

  // ---- Write and Read ----

  /**
   Write takes everything or nothing. On a stream that is not reset and not closed it is refused only
   if the bytes queued on the stream would exceed 1 MiB or those of the session 8 MiB, and then the
   stream is reset.
   */
  lemma WriteContract(s: Session, id: nat, p: Bytes)
    requires SessionInv(s) && id in s.streams && s.streams[id].handle
    ensures var st, e := s.streams[id], Next(s, WriteCall(id, p));
            if p == [] then e == Idle(s, Wrote(0))
            else if st.life.reset.Some? then e == Idle(s, Failed(st.life.reset.value))
            else if st.tx.closeAfterFlush then e == Idle(s, Closed)
            else if |Flat(st.tx.sendQ)| + |p| > MiB then ResetCoded(s, e, id, 0x25)
            else if s.buffered + |p| > 8 * MiB then ResetCoded(s, e, id, 0x23)
            else
              && OnlyAt(s, e.s, id) && e.res == Wrote(|p|) && e.sent == [] && e.s.buffered == s.buffered + |p|
              && Flat(e.s.streams[id].tx.sendQ) == Flat(st.tx.sendQ) + p && id in Table(e.s)
  {
    hide SessionInv, ResetRemote;
    var st, c := s.streams[id], WriteCall(id, p);
    AsCall(s, c);
    assert s.streams[id := st] == s.streams;
    if p != [] && st.life.reset.None? && !st.tx.closeAfterFlush {
      ResetDone(st, s.buffered, SendQueueOverflow);
      ResetDone(st, s.buffered, SessionBufferExceeded);
      FlatAppend(st.tx.sendQ, p);
    }
  }

  /**
   Read returns from the first chunk as much as there is room for, and gives its credit back; it waits
   exactly while there is nothing to read and no reset, close or end of room.
   */
  lemma ReadContract(s: Session, id: nat, room: nat)
    requires SessionInv(s) && id in s.streams && s.streams[id].handle
    ensures var st, e := s.streams[id], Next(s, ReadCall(id, room));
            if room == 0 then e == Idle(s, Got([]))
            else if st.life.reset.Some? then e == Idle(s, Failed(st.life.reset.value))
            else if st.rx.inQ == [] then
              if st.rx.remoteClosed then OnlyAt(s, e.s, id) && e.res == Eof && e.sent == [] else e == Idle(s, Blocked)
            else
              && OnlyAt(s, e.s, id) && e.res.Got? && e.res.data <= st.rx.inQ[0]
              && |e.res.data| == Min(room, |st.rx.inQ[0]|)
              && e.res.data + Flat(e.s.streams[id].rx.inQ) == Flat(st.rx.inQ)
              && e.s.buffered == s.buffered - |e.res.data| && e.sent == [AppCredit(id, |e.res.data|)]
  {
    hide SessionInv, DropFront, MaybeFinish;
    var st := s.streams[id];
    AsCall(s, ReadCall(id, room));
    assert s.streams[id := st] == s.streams;
    if room > 0 && st.life.reset.None? && st.rx.inQ != [] {
      var n := Min(room, |st.rx.inQ[0]|);
      DropFrontFlat(st.rx.inQ, n);
      ReadLedger(s, id, n);
    }
  }

  /** Bytes in a queue are in the ledger. */
  lemma ReadLedger(s: Session, id: nat, n: nat)
    requires SessionInv(s) && id in s.streams && s.streams[id].life.reset.None? && s.streams[id].rx.inQ != []
    requires n <= |s.streams[id].rx.inQ[0]|
    ensures Release(s.buffered, n) == s.buffered - n && !s.closed
  {
    var st := s.streams[id];
    hide SessionInv, Sane;
    StreamReady(s, id);
    OwnStream(s, id);
    assert Flat(st.rx.inQ) == st.rx.inQ[0] + Flat(st.rx.inQ[1..]);
    QueuedWeight(st);
  }

  lemma QueuedWeight(st: Stream)
    requires Sane(st) && st.life.reset.None? && st.rx.inQ != []
    ensures st.attached && |Flat(st.rx.inQ)| <= Weight(st)
  {
  }

  // ---- Closing ----

  /** CloseWrite closes an unreset stream for good; it sends APP_CLOSE itself exactly if nothing is queued. */
  lemma CloseContract(s: Session, id: nat)
    requires SessionInv(s) && id in s.streams && s.streams[id].handle
    ensures var st, e := s.streams[id], Next(s, CloseCall(id));
            if st.life.reset.Some? then e == Idle(s, Failed(st.life.reset.value))
            else if st.tx.closeAfterFlush then e == Idle(s, Done)
            else
              && OnlyAt(s, e.s, id) && e.res == Done && e.s.streams[id].tx.closeAfterFlush
              && e.sent == (if st.tx.sendQ == [] then [AppClose(id)] else [])
              && (e.s.streams[id].tx.localClosed <==> st.tx.sendQ == [])
  {
    hide SessionInv, MaybeFinish;
    var st := s.streams[id];
    AsCall(s, CloseCall(id));
    assert s.streams[id := st] == s.streams;
    var st1 := st.(tx := st.tx.(closeAfterFlush := true, localClosed := true, early := st.tx.held != []));
    FinishedTx(st1, s.buffered);
  }

  lemma FinishedTx(st: Stream, b: int)
    ensures MaybeFinish(st, b).st.tx == st.tx
  {
  }

  /** A stream that has ended cleanly has left the table, and its observer has been told. */
  predicate EndedCleanly(s: Session, id: nat) {
    && id in s.streams && id !in Table(s) && s.streams[id].life.reset.None?
    && s.streams[id].life.reports == [StreamOpened, StreamClosed]
  }

  /** Both directions closed, nothing left to send or to read, and no reset. */
  predicate Over(st: Stream) {
    && st.life.reset.None? && st.tx.localClosed && st.rx.remoteClosed && st.tx.sendQ == [] && st.rx.inQ == []
  }

  predicate EndedStream(st: Stream) {
    !st.attached && st.life.reset.None? && st.life.reports == [StreamOpened, StreamClosed]
  }

  lemma OverEnds(st: Stream, b: int)
    requires Over(MaybeFinish(st, b).st) && st.life.announced && (st.life.finished ==> !st.attached)
    requires st.life.reports == [StreamOpened] + (if st.life.finished then [StreamClosed] else [])
    ensures EndedStream(MaybeFinish(st, b).st)
  {
    assert [StreamOpened] + [StreamClosed] == [StreamOpened, StreamClosed];
    assert [StreamOpened] + [] == [StreamOpened];
  }

  /** What an unreset stream that the application holds has reported. */
  lemma HeldReports(st: Stream)
    requires Sane(st) && st.handle && st.life.reset.None?
    ensures st.life.announced && (st.life.finished ==> !st.attached)
    ensures st.life.reports == [StreamOpened] + (if st.life.finished then [StreamClosed] else [])
  {
  }

  lemma CloseEnds(st: Stream, b: int)
    requires Sane(st) && st.handle && !st.tx.localClosed && Over(CloseWrite(st, b).st)
    ensures EndedStream(CloseWrite(st, b).st)
  {
    hide Sane, MaybeFinish, Over;
    var st1 := st.(tx := st.tx.(closeAfterFlush := true, localClosed := true, early := st.tx.held != []));
    if st.life.reset.None? && !st.tx.closeAfterFlush && st.tx.sendQ == [] {
      HeldReports(st);
      OverEnds(st1, b);
    } else {
      NotOver(CloseWrite(st, b).st);
    }
  }

  lemma NotOver(st: Stream)
    requires Over(st)
    ensures st.life.reset.None? && st.tx.localClosed
  {
  }

  lemma TakeEnds(st: Stream, b: int)
    requires Sane(st) && st.handle && !st.tx.localClosed && Over(WriterTake(st, b).st)
    ensures EndedStream(WriterTake(st, b).st)
  {
    hide Sane, MaybeFinish, Over, DropFront;
    var st1 := st.(tx := st.tx.(localClosed := true), writer := false);
    NotOver(WriterTake(st, b).st);
    HeldReports(st);
    OverEnds(st1, b);
  }

  lemma EofEnds(st: Stream, b: int, room: nat)
    requires Sane(st) && st.handle && Read(st, b, room).res.Eof? && Over(Read(st, b, room).st)
    ensures EndedStream(Read(st, b, room).st)
  {
    hide Sane, MaybeFinish, Over, DropFront;
    HeldReports(st);
    OverEnds(st, b);
  }

  lemma RemoteCloseEnds(st: Stream, b: int)
    requires Sane(st) && st.attached && !st.rx.remoteClosed && Over(RemoteClose(st, b).st)
    ensures EndedStream(RemoteClose(st, b).st)
  {
    hide Sane, MaybeFinish;
    assert st.tx.localClosed ==> st.handle by {
      ClosedHeld(st);
    }
    var st1 := st.(rx := st.rx.(remoteClosed := true));
    FinishedTx(st1, b);
    NotOver(RemoteClose(st, b).st);
    FinishedReset(st1, b);
    HeldReports(st);
    OverEnds(st1, b);
  }

  lemma FinishedReset(st: Stream, b: int)
    ensures MaybeFinish(st, b).st.life.reset == st.life.reset
  {
  }

  lemma ClosedHeld(st: Stream)
    requires Sane(st)
    ensures st.tx.localClosed ==> st.handle
  {
  }

  /**
   The step of this side that closes the second direction, or the Read that sees the end, ends the
   stream: it leaves the table and StreamClosed is reported.
   */
  lemma CleanTeardown(s: Session, c: Call)
    requires SessionInv(s) && (c.CloseCall? || c.LoopTake? || c.ReadCall?) && c.id in s.streams
    requires s.streams[c.id].handle && Over(Next(s, c).s.streams[c.id])
    requires if c.ReadCall? then Next(s, c).res.Eof? else !s.streams[c.id].tx.localClosed
    ensures EndedCleanly(Next(s, c).s, c.id)
  {
    hide SessionInv, Over, Next, Table, CloseWrite, WriterTake, Read, Sane;
    var st := s.streams[c.id];
    AsCall(s, c);
    match c
    case CloseCall(_) => CloseEnds(st, s.buffered);
    case LoopTake(_) => TakeEnds(st, s.buffered);
    case ReadCall(_, room) => EofEnds(st, s.buffered, room);
  }

  /** So does the peer's close, if it is the second one and nothing is left to send or to read. */
  lemma RemoteTeardown(s: Session, id: nat)
    requires SessionInv(s) && id in Table(s) && !s.streams[id].rx.remoteClosed
    requires var st := s.streams[id]; st.tx.localClosed && st.tx.sendQ == [] && st.rx.inQ == []
    ensures EndedCleanly(Next(s, Incoming(AppClose(id))).s, id)
  {
    hide SessionInv, Next, Table, Sane;
    AsMessage(s, AppClose(id));
    var st := s.streams[id];
    AttachedUnreset(st);
    var st1 := st.(rx := st.rx.(remoteClosed := true));
    FinishedTx(st1, s.buffered);
    RemoteCloseEnds(st, s.buffered);
  }

  lemma OwnUnreset(s: Session, id: nat)
    requires SessionInv(s) && id in Table(s)
    ensures var st := s.streams[id]; Sane(st) && st.attached && st.id == id && st.life.reset.None?
  {
    hide SessionInv;
    OwnStream(s, id);
  }

  lemma AttachedUnreset(st: Stream)
    requires Sane(st) && st.attached
    ensures st.life.reset.None? && !st.life.finished
  {
  }

  // ---- The write loop ----

  /**
   A pass of a running write loop with empty hands: after a reset it ends; with bytes and credit it
   takes from the first chunk all that the credit and a frame of 64 KiB allow; with nothing queued
   and a close pending it sends APP_CLOSE and ends; otherwise it waits.
   */
  lemma TakeContract(s: Session, id: nat)
    requires SessionInv(s) && id in s.streams && s.streams[id].writer && s.streams[id].tx.held == []
    ensures var st, e := s.streams[id], Next(s, LoopTake(id));
            var st' := e.s.streams[id];
            && OnlyAt(s, e.s, id)
            && if st.life.reset.Some? then st' == st.(writer := false) && e.sent == [] && e.s.buffered == s.buffered
               else if st.tx.sendQ != [] && st.tx.sndCredit > 0 then
                 && st'.tx.held <= st.tx.sendQ[0] && st'.tx.held + Flat(st'.tx.sendQ) == Flat(st.tx.sendQ)
                 && |st'.tx.held| == Min(|st.tx.sendQ[0]|, Min(st.tx.sndCredit, 64 * KiB)) && e.sent == []
                 && st'.tx.sndCredit == st.tx.sndCredit - |st'.tx.held|
                 && e.s.buffered == s.buffered - |st'.tx.held|
               else if st.tx.sendQ == [] && st.tx.closeAfterFlush then
                 !st'.writer && st'.tx.localClosed && e.sent == Said(s, AppClose(id))
               else e == Idle(s, Blocked)
  {
    hide SessionInv, DropFront, MaybeFinish;
    var st := s.streams[id];
    AsCall(s, LoopTake(id));
    assert s.streams[id := st] == s.streams;
    FinishedTx(st.(tx := st.tx.(localClosed := true), writer := false), s.buffered);
    FinishedLoop(st.(tx := st.tx.(localClosed := true), writer := false), s.buffered);
    if st.life.reset.None? && st.tx.sendQ != [] && st.tx.sndCredit > 0 {
      DropFrontFlat(st.tx.sendQ, TakeSize(st));
      SendLedger(s, id, TakeSize(st));
    }
  }

  lemma FinishedLoop(st: Stream, b: int)
    ensures MaybeFinish(st, b).st.writer == st.writer
  {
  }

  lemma SendLedger(s: Session, id: nat, n: nat)
    requires SessionInv(s) && id in s.streams && s.streams[id].life.reset.None? && s.streams[id].tx.sendQ != []
    requires n <= |s.streams[id].tx.sendQ[0]|
    ensures Release(s.buffered, n) == s.buffered - n && !s.closed
  {
    var st := s.streams[id];
    hide SessionInv, Sane;
    StreamReady(s, id);
    OwnStream(s, id);
    assert Flat(st.tx.sendQ) == st.tx.sendQ[0] + Flat(st.tx.sendQ[1..]);
    SendWeight(st);
  }

  lemma SendWeight(st: Stream)
    requires Sane(st) && st.life.reset.None? && st.tx.sendQ != []
    ensures st.attached && |Flat(st.tx.sendQ)| <= Weight(st)
  {
  }

  /** Then the chunk goes out as it is; on a closed session it is lost and the loop ends. */
  lemma SendContract(s: Session, id: nat)
    requires SessionInv(s) && id in s.streams && s.streams[id].tx.held != []
    ensures var st, e := s.streams[id], Next(s, LoopSend(id));
            && OnlyAt(s, e.s, id) && e.s.buffered == s.buffered && e.sent == Said(s, AppData(id, st.tx.held))
            && e.s.streams[id] == st.(tx := st.tx.(held := []), writer := if s.closed then false else st.writer)
  {
    hide SessionInv;
    AsCall(s, LoopSend(id));
  }

  // ---- Messages about a stream in the table ----

  /** Why data is refused: the code of the reset, if there is one. */
  function Refusal(s: Session, st: Stream, data: Bytes): Option<nat> {
    if |data| <= 64 * KiB && !st.hs.accepting && !st.hs.opening && !st.rx.remoteClosed && |data| <= st.rx.rcvWindow then
      if s.buffered + |data| <= 8 * MiB then None else Some(0x23)
    else Some(0x27)
  }

  /**
   Data, from any peer: it is queued whole behind what is queued, with window and ledger adjusted, or
   the stream is reset. It is reset with PROTOCOL_ERROR exactly if the data is too big for a frame,
   comes before the open handshake has ended or after the close, or exceeds the window, and with
   QUOTA_EXCEEDED exactly if only the session's memory is missing.
   */
  lemma DataContract(s: Session, id: nat, data: Bytes)
    requires SessionInv(s) && id in Table(s) && data != [] && Fits(AppData(id, data))
    ensures var st, e := s.streams[id], Next(s, Incoming(AppData(id, data)));
            && OnlyAt(s, e.s, id)
            && match Refusal(s, st, data)
               case Some(code) => ResetCoded(s, e, id, code)
               case None =>
                 && e.sent == [] && e.s.buffered == s.buffered + |data| && id in Table(e.s)
                 && e.s.streams[id].life.reset.None?
                 && Flat(e.s.streams[id].rx.inQ) == Flat(st.rx.inQ) + data
                 && e.s.streams[id].rx.rcvWindow == st.rx.rcvWindow - |data|
  {
    var st := s.streams[id];
    hide SessionInv, Deliver, Sane, Next, Own, Refusal;
    AsMessage(s, AppData(id, data));
    OwnUnreset(s, id);
    DeliverExact(s, st, data);
  }

  lemma DeliverExact(s: Session, st: Stream, data: Bytes)
    requires Sane(st) && st.attached && st.life.reset.None? && data != []
    ensures var out := Deliver(st, s.buffered, data);
            match Refusal(s, st, data)
            case Some(code) =>
              && out.st.life.reset.Some? && out.st.life.reset.value.code == code && !out.st.attached
              && out.sent == [AppReset(st.id, code, out.st.life.reset.value.message)]
            case None =>
              && out.sent == [] && out.buffered == s.buffered + |data| && out.st.attached && out.st.life.reset.None?
              && Flat(out.st.rx.inQ) == Flat(st.rx.inQ) + data && out.st.rx.rcvWindow == st.rx.rcvWindow - |data|
  {
    hide ResetRemote, Sane;
    FlatAppend(st.rx.inQ, data);
    var out := Deliver(st, s.buffered, data);
    if out.res.Failed? {
      ResetDone(st, s.buffered, out.res.fault);
    }
  }

  /**
   Credit, from any peer: zero is ignored; otherwise the uint32 sum is the new credit if it is at most
   1 MiB, and the stream is reset with PROTOCOL_ERROR if it is more.
   */
  lemma CreditContract(s: Session, id: nat, n: nat)
    requires SessionInv(s) && id in Table(s)
    ensures var st, e := s.streams[id], Next(s, Incoming(AppCredit(id, n)));
            var sum := (st.tx.sndCredit + n) % 0x1_0000_0000;
            && OnlyAt(s, e.s, id)
            && if n > 0 && sum > MiB then ResetCoded(s, e, id, 0x27)
               else
                 && e.sent == [] && e.s.buffered == s.buffered
                 && e.s.streams[id] == st.(tx := st.tx.(sndCredit := if n == 0 then st.tx.sndCredit else sum))
  {
    hide SessionInv, ResetRemote, Sane;
    var st := s.streams[id];
    AsMessage(s, AppCredit(id, n));
    AttachedUnreset(st);
    var out := AddCredit(st, s.buffered, n);
    if out.res.Failed? {
      ResetDone(st, s.buffered, out.res.fault);
    }
  }

  /** A close ends the peer's direction, and draws no reply; a second one changes nothing. */
  lemma CloseArrives(s: Session, id: nat)
    requires SessionInv(s) && id in Table(s)
    ensures var e := Next(s, Incoming(AppClose(id)));
            && OnlyAt(s, e.s, id) && e.sent == [] && e.s.streams[id].rx.remoteClosed
            && e.s.streams[id].rx.inQ == s.streams[id].rx.inQ && e.s.streams[id].life.reset.None?
            && (s.streams[id].rx.remoteClosed ==> e.s == s)
  {
    hide SessionInv, MaybeFinish, Sane;
    var st := s.streams[id];
    AsMessage(s, AppClose(id));
    AttachedUnreset(st);
    var st1 := st.(rx := st.rx.(remoteClosed := true));
    FinishedRx(st1, s.buffered);
    FinishedReset(st1, s.buffered);
    assert s.streams[id := st] == s.streams;
  }

  lemma FinishedRx(st: Stream, b: int)
    ensures MaybeFinish(st, b).st.rx == st.rx
  {
  }

  /** A reset ends the stream with the peer's reason, and draws no reply; a waiting Open is woken. */
  lemma ResetArrives(s: Session, id: nat, fault: Fault)
    requires SessionInv(s) && id in Table(s) && |fault.message| < Uint16Space
    ensures var e := Next(s, Incoming(AppReset(id, fault.code, fault.message)));
            && OnlyAt(s, e.s, id) && e.sent == [] && id !in Table(e.s)
            && e.s.streams[id].life.reset == Some(fault) && !e.s.streams[id].hs.opening
  {
    hide SessionInv, Sane;
    AsMessage(s, AppReset(id, fault.code, fault.message));
    AttachedUnreset(s.streams[id]);
    ResetDone(s.streams[id], s.buffered, fault);
  }

  /**
   An accept, from any peer: with meta over 1 KiB or a grant that is zero or over 1 MiB the stream is
   reset with PROTOCOL_ERROR. Otherwise it gives an opening stream its credit and wakes Open, and is
   ignored by any other.
   */
  lemma AcceptArrives(s: Session, id: nat, meta: Bytes, grant: nat)
    requires SessionInv(s) && id in Table(s) && |meta| < Uint32Space
    ensures var st, e := s.streams[id], Next(s, Incoming(AppAccept(id, meta, grant)));
            && OnlyAt(s, e.s, id)
            && if |meta| > KiB || grant == 0 || grant > MiB then ResetCoded(s, e, id, 0x27)
               else
                 && e.sent == [] && e.s.buffered == s.buffered && id in Table(e.s)
                 && if st.hs.opening then
                      && !e.s.streams[id].hs.opening && e.s.streams[id].hs.openErr.None?
                      && e.s.streams[id].tx.sndCredit == e.s.streams[id].hs.grant == grant
                    else e.s.streams[id] == st
  {
    hide SessionInv, ResetRemote;
    var st := s.streams[id];
    AsMessage(s, AppAccept(id, meta, grant));
    var out := HandleAccept(st, s.buffered, meta, grant);
    if out.res.Failed? {
      ResetDone(st, s.buffered, out.res.fault);
    }
  }

  /** A reject ends an opening stream with the peer's reason and wakes Open, and is ignored by any other. */
  lemma RejectArrives(s: Session, id: nat, fault: Fault)
    requires SessionInv(s) && id in Table(s) && |fault.message| < Uint16Space
    ensures var st, e := s.streams[id], Next(s, Incoming(AppReject(id, fault.code, fault.message)));
            && OnlyAt(s, e.s, id) && e.sent == []
            && if st.hs.opening then
                 && id !in Table(e.s) && !e.s.streams[id].hs.opening && e.s.streams[id].hs.openErr == Some(fault)
                 && e.s.streams[id].life.reset.None?
               else e.s == s
  {
    hide SessionInv;
    var st := s.streams[id];
    AsMessage(s, AppReject(id, fault.code, fault.message));
    assert s.streams[id := st] == s.streams;
  }

  /** A message about a stream that is not in the table changes nothing and draws no reply. */
  lemma StrangerIgnored(s: Session, m: AppMsg)
    requires !m.AppOpen? && m.streamID !in Table(s) && Fits(m)
    ensures Next(s, Incoming(m)).s == s && Next(s, Incoming(m)).sent == []
  {
  }

  // ---- The open handshake ----

  /** A service is a lower-case letter and up to 30 lower-case letters, digits and dashes. */
  lemma ServiceFormat(service: Bytes)
    ensures ValidAppService(service) <==>
              && 1 <= |service| <= 31 && 'a' as int <= service[0] <= 'z' as int
              && forall i :: 0 <= i < |service| ==>
                   || 'a' as int <= service[i] <= 'z' as int || '0' as int <= service[i] <= '9' as int
                   || service[i] == '-' as int
  {
    assert 'a' as int == 97 && 'z' as int == 122 && '0' as int == 48 && '9' as int == 57 && '-' as int == 45;
    if ValidAppService(service) {
      assert ServiceChar(service[0], true);
    }
  }

  /** The guest's IDs are those with bit 31. */
  lemma InitiatorFormat(id: nat)
    requires id < 0x1_0000_0000
    ensures GuestID(id) <==> id >= 0x8000_0000
  {
  }

  /**
   Open allocates the next ID and sends APP_OPEN with the service and meta it was given. It is refused
   exactly for an invalid service, meta over 1 KiB, a closed session, 64 streams in the table, or when
   the IDs are used up, in this order, and a refusal changes nothing.
   */
  lemma OpenContract(s: Session, service: Bytes, meta: Bytes)
    requires SessionInv(s)
    ensures var e := Next(s, OpenCall(service, meta));
            if !ValidAppService(service) || |meta| > KiB then e == Idle(s, Invalid)
            else if s.closed then e == Idle(s, Closed)
            else if |Table(s)| >= 64 then e.s == s && e.sent == [] && e.res.Failed? && e.res.fault.code == 0x23
            else if s.nextID >= 0x7FFF_FFFF then e == Idle(s, Exhausted)
            else
              && e.res.Opened? && e.res.id == s.nextID + 1 + (if s.guest then 0x8000_0000 else 0)
              && e.sent == [AppOpen(e.res.id, service, meta)] && e.s.nextID == s.nextID + 1 && !e.s.closed
              && e.res.id !in s.streams && Table(e.s) == Table(s) + {e.res.id} && e.s.buffered == s.buffered
              && (forall j :: j in s.streams ==> j in e.s.streams && e.s.streams[j] == s.streams[j])
              && e.s.streams[e.res.id].hs.opening && e.s.streams[e.res.id].hs.waiting
              && !e.s.streams[e.res.id].handle && !e.s.streams[e.res.id].inbound
  {
    hide SessionInv, ValidAppService;
    if !s.closed && s.nextID < MaxLocalStreamID {
      OpenFresh(s);
    }
  }

  /**
   APP_OPEN, from any peer: refused with PROTOCOL_ERROR exactly if the ID is zero or carries this
   side's bit, the service or meta is invalid, or the ID is in the table; refused with QUOTA_EXCEEDED
   exactly if otherwise the table is full; and else the handler is asked. A refusal changes nothing.
   */
  lemma OpenArrives(s: Session, id: nat, service: Bytes, meta: Bytes)
    requires !s.closed && Fits(AppOpen(id, service, meta))
    ensures var e := Next(s, Incoming(AppOpen(id, service, meta)));
            var bad := id == 0 || GuestID(id) == s.guest || !ValidAppService(service) || |meta| > KiB || id in Table(s);
            if bad || |Table(s)| >= 64 then
              && e.s == s && |e.sent| == 1 && e.sent[0].AppReject? && e.sent[0].streamID == id
              && e.sent[0].code == (if bad then 0x27 else 0x23)
            else
              && e.sent == [] && Table(e.s) == Table(s) + {id} && e.s.buffered == s.buffered
              && (forall j :: j in s.streams && j != id ==> j in e.s.streams && e.s.streams[j] == s.streams[j])
              && e.s.streams[id].inbound && e.s.streams[id].hs.accepting && e.s.streams[id].hs.handling
  {
    hide ValidAppService, GuestID;
  }

  /**
   The return of Open. It waits until `ready` is closed, which happens exactly when the opening ends.
   Then it fails with the peer's reason for a refusal or a reset, and else the application has the
   stream, StreamOpened is reported and the write loop runs.
   */
  lemma ReturnContract(s: Session, id: nat)
    requires SessionInv(s) && id in s.streams && s.streams[id].hs.waiting
    ensures var st, e := s.streams[id], Next(s, OpenReady(id));
            && OnlyAt(s, e.s, id) && e.sent == [] && e.s.buffered == s.buffered
            && if st.hs.opening then e == Idle(s, Blocked)
               else
                 && !e.s.streams[id].hs.waiting && e.s.streams[id].attached == st.attached
                 && if st.hs.openErr.Some? then e.res == Failed(st.hs.openErr.value) && !e.s.streams[id].handle
                    else if st.life.reset.Some? then e.res == Failed(st.life.reset.value) && !e.s.streams[id].handle
                    else
                      && e.res == Opened(id) && e.s.streams[id].handle && (e.s.streams[id].writer <==> !s.closed)
                      && e.s.streams[id].life.reports == [StreamOpened]
  {
    hide SessionInv;
    var st := s.streams[id];
    AsCall(s, OpenReady(id));
    assert s.streams[id := st] == s.streams;
  }

  /** If its context ends first, the stream is reset with TIMEOUT. */
  lemma ExpiryContract(s: Session, id: nat)
    requires SessionInv(s) && id in s.streams && s.streams[id].hs.waiting
    ensures var st, e := s.streams[id], Next(s, OpenTimeout(id));
            && OnlyAt(s, e.s, id) && !e.s.streams[id].hs.waiting && !e.s.streams[id].handle && id !in Table(e.s)
            && (st.life.reset.None? ==> ResetCoded(s, e, id, 0x26))
  {
    hide SessionInv;
    AsCall(s, OpenTimeout(id));
  }

  /** If the session ends first, Open just returns. */
  lemma AbortContract(s: Session, id: nat)
    requires SessionInv(s) && id in s.streams && s.streams[id].hs.waiting
    ensures var st, e := s.streams[id], Next(s, OpenAborted(id));
            if s.closed then
              && OnlyAt(s, e.s, id) && e.res == Closed && e.sent == []
              && e.s.streams[id] == st.(hs := st.hs.(waiting := false))
            else e == Idle(s, Blocked)
  {
    hide SessionInv;
    AsCall(s, OpenAborted(id));
    assert s.streams[id := s.streams[id]] == s.streams;
  }

  /**
   The handler takes an open that is still pending: APP_ACCEPT goes out with the initial window of
   256 KiB, both windows are open, StreamOpened is reported and the bridge runs. Meta over 1 KiB turns
   it into a refusal.
   */
  lemma AcceptContract(s: Session, id: nat, meta: Bytes)
    requires SessionInv(s) && id in s.streams && s.streams[id].hs.handling
    ensures var st, e := s.streams[id], Next(s, HandlerAccept(id, meta));
            var st' := e.s.streams[id];
            && OnlyAt(s, e.s, id) && !st'.hs.handling
            && if |meta| > KiB then e == Next(s, HandlerReject(id, Violation("accept meta too large")))
               else
                 && e.sent == Said(s, AppAccept(id, meta, 256 * KiB)) && !st'.hs.accepting
                 && st'.tx.sndCredit == st'.rx.rcvWindow == 256 * KiB && st'.attached == st.attached
                 && (st'.handle <==> !s.closed) && (st'.writer <==> !s.closed)
                 && (st.life.reset.None? ==> st'.life.reports == [StreamOpened])
  {
    hide SessionInv, Violation, Table;
    AsCall(s, HandlerAccept(id, meta));
    AsCall(s, HandlerReject(id, Violation("accept meta too large")));
  }

  /** The handler refuses it: APP_REJECT goes out with the reason, and the stream leaves the table. */
  lemma RejectContract(s: Session, id: nat, fault: Fault)
    requires SessionInv(s) && id in s.streams && s.streams[id].hs.handling
    ensures var e := Next(s, HandlerReject(id, fault));
            && OnlyAt(s, e.s, id) && !e.s.streams[id].hs.handling && !e.s.streams[id].handle && id !in Table(e.s)
            && e.sent == Said(s, AppReject(id, fault.code, fault.message))
    ensures Violation("accept meta too large").code == 0x27
  {
    hide SessionInv;
    AsCall(s, HandlerReject(id, fault));
  }

  // ---- Losing the connection ----

  /** Every stream in the table is reset with PEER_GONE, the others stay as they are, and the ledger is empty. */
  lemma LossContract(s: Session)
    requires SessionInv(s) && !s.closed
    ensures var s' := Next(s, ConnectionLost).s;
            && s'.closed && Table(s') == {} && s'.buffered == 0 && s'.streams.Keys == s.streams.Keys
            && Next(s, ConnectionLost).sent == []
            && forall id :: id in s.streams ==>
                 if id in Table(s) then s'.streams[id].life.reset == Some(ConnectionClosed)
                 else s'.streams[id] == s.streams[id]
    ensures ConnectionClosed.code == 0x24
  {
    hide SessionInv;
    forall id | id in s.streams
      ensures !Fail(s).streams[id].attached
      ensures id in Table(s) ==> Fail(s).streams[id].life.reset == Some(ConnectionClosed)
    {
      OwnStream(s, id);
      if s.streams[id].attached {
        AttachedUnreset(s.streams[id]);
        ResetDone(s.streams[id], 0, ConnectionClosed);
      }
    }
  }
}
