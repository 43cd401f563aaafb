/**
 What every operation on a stream keeps, whatever the peer sends: the local
 invariant `Sane`, the one-way evolution `Evolves` and the ledger equation.
 */
module AppStreamProofs {
  import opened Basics
  import opened AppLimits
  import opened AppMessages
  import opened AppStream

  /** The byte counters describe the queues, and no chunk is empty. */
  predicate Counted(st: Stream) {
    && Chunked(st.tx.sendQ) && Chunked(st.rx.inQ)
    && (st.attached ==> st.sendBytes == |Flat(st.tx.sendQ)| && st.inBytes == |Flat(st.rx.inQ)|)
    && (!st.attached ==> st.sendBytes == 0 && st.inBytes == 0)
    && st.sendBytes <= AppMaxSendQueue
  }

  /** Credit stays under the cap; window and unread bytes always add up to the initial window. */
  predicate Windowed(st: Stream) {
    && 0 <= st.tx.sndCredit <= AppMaxCredit
    && 0 <= st.rx.rcvWindow <= AppInitialWindow
    && |st.tx.held| <= AppMaxDataBytes
    && (st.life.reset.None? ==> st.rx.rcvWindow + |Flat(st.rx.inQ)| == if st.hs.accepting then 0 else AppInitialWindow)
  }

  /** The open handshake: who may hold the stream, and what is still untouched. */
  predicate Staged(st: Stream) {
    && (st.inbound ==> !st.hs.opening && !st.hs.waiting && st.hs.openErr.None? && st.hs.grant == 0)
    && (!st.inbound ==> !st.hs.accepting && !st.hs.handling)
    && (st.hs.opening ==> st.hs.waiting && st.attached && st.hs.grant == 0)
    && (st.hs.handling ==> st.hs.accepting)
    && (st.hs.accepting && st.attached ==> st.hs.handling)
    && (st.hs.handling && !st.attached ==> st.life.reset.Some?)
    && (st.hs.opening || st.hs.accepting || st.hs.openErr.Some? ==> st.rx.inQ == [])
    && (st.handle ==> !st.hs.waiting && !st.hs.accepting && !st.hs.opening && st.hs.openErr.None?)
    && (!st.handle ==> !st.writer && st.tx.held == [] && st.tx.sendQ == [] && st.tx.wrote == [] && st.rx.got == []
                       && !st.tx.closeAfterFlush && !st.tx.localClosed)
    && (!st.inbound && (st.handle || (!st.hs.opening && st.life.reset.None? && st.hs.openErr.None?)) ==>
          1 <= st.hs.grant <= AppMaxCredit)
  }

  /** A stream leaves the table only reset, cleanly drained, or before it was ever open. */
  predicate Torn(st: Stream) {
    && (st.life.reset.Some? ==> st.life.finished && !st.hs.opening)
    && (st.life.finished ==> !st.attached)
    && (st.hs.openErr.Some? ==> !st.attached)
    && (st.tx.localClosed ==> st.tx.closeAfterFlush && (st.life.reset.None? ==> st.tx.sendQ == []))
    && (st.tx.early ==> st.tx.localClosed)
    && (st.handle && st.life.reset.None? ==> st.writer || st.tx.localClosed)
    && (!st.attached && st.life.reset.None? ==>
          && st.tx.sendQ == [] && st.rx.inQ == []
          && ((st.tx.localClosed && st.rx.remoteClosed && st.life.finished) || st.hs.openErr.Some?
              || (st.hs.accepting && !st.hs.handling)))
  }

  /** StreamClosed is reported once, after StreamOpened; `ready` is closed once, when `opening` falls. */
  predicate Reported(st: Stream) {
    && st.life.reports == (if st.life.announced then [StreamOpened] else [])
                     + (if st.life.announced && st.life.finished then [StreamClosed] else [])
    && st.hs.readyCloses == (if st.inbound || st.hs.opening then 0 else 1)
    && (st.handle ==> st.life.announced || (st.life.finished && st.life.reset.Some?))
  }

  predicate Sane(st: Stream) {
    Counted(st) && Windowed(st) && Staged(st) && Torn(st) && Reported(st)
  }

  /** What no operation ever takes back. */
  predicate Evolves(st: Stream, st': Stream) {
    && st'.id == st.id && st'.inbound == st.inbound
    && (st.life.reset.Some? ==>
          st'.life.reset == st.life.reset && st'.rx.got == st.rx.got && st'.tx.wrote == st.tx.wrote)
    && (st.hs.openErr.Some? ==> st'.hs.openErr == st.hs.openErr)
    && (st'.attached ==> st.attached) && (st'.hs.opening ==> st.hs.opening) && (st'.hs.accepting ==> st.hs.accepting)
    && st.tx.wrote <= st'.tx.wrote && st.rx.got <= st'.rx.got && st.life.reports <= st'.life.reports
    && (st.tx.closeAfterFlush ==> st'.tx.closeAfterFlush && st'.tx.wrote == st.tx.wrote)
    && (st.tx.localClosed ==> st'.tx.localClosed) && (st.tx.early ==> st'.tx.early)
    && (st.rx.remoteClosed ==> st'.rx.remoteClosed)
    && (st.life.announced ==> st'.life.announced) && (st.life.finished ==> st'.life.finished)
    && (st.handle ==> st'.handle)
    && (st.hs.grant != 0 ==> st'.hs.grant == st.hs.grant)
    && st'.hs.readyCloses - st.hs.readyCloses == (if st.hs.opening && !st'.hs.opening then 1 else 0)
  }

  lemma EvolvesTransitive(a: Stream, b: Stream, c: Stream)
    requires Evolves(a, b) && Evolves(b, c)
    ensures Evolves(a, c)
  {
  }

  function Weight(st: Stream): int {
    st.sendBytes + st.inBytes
  }

  /** At most one message is sent, and it names this stream. */
  predicate About(sent: seq<AppMsg>, id: nat) {
    |sent| <= 1 && (sent != [] ==> sent[0].streamID == id)
  }

  /** The outcome of one operation on a sane stream of a session whose ledger covers it. */
  predicate Keeps(st: Stream, buffered: int, out: Out) {
    && Sane(out.st) && Evolves(st, out.st)
    && out.buffered - buffered == Weight(out.st) - Weight(st)
    && out.buffered <= AppMaxBuffered
    && About(out.sent, st.id)
  }

  predicate Ready(st: Stream, buffered: int) {
    Sane(st) && Weight(st) <= buffered <= AppMaxBuffered
  }

  lemma NewStreamSane(id: nat, inbound: bool)
    ensures Sane(NewStream(id, inbound)) && Weight(NewStream(id, inbound)) == 0
    ensures var st := NewStream(id, inbound); st.id == id && st.inbound == inbound && st.attached
  {
  }

  lemma IdleKeeps(st: Stream, buffered: int, res: Result)
    requires Ready(st, buffered)
    ensures Keeps(st, buffered, Out(st, buffered, [], res))
  {
  }

  lemma SplitFront(b: Bytes, n: nat, rest: Bytes)
    requires n <= |b|
    ensures b + rest == b[..n] + (b[n..] + rest)
  {
  }

  lemma DropFrontFlat(q: seq<Bytes>, n: int)
    requires q != [] && 0 <= n <= |q[0]|
    ensures Flat(q) == q[0][..n] + Flat(DropFront(q, n))
    ensures Chunked(q) ==> Chunked(DropFront(q, n))
  {
    if n == |q[0]| {
      assert q[0][..n] == q[0];
    } else {
      assert DropFront(q, n)[1..] == q[1..];
      SplitFront(q[0], n, Flat(q[1..]));
    }
  }

  lemma FinishKeeps(st: Stream, buffered: int)
    requires Counted(st) && Windowed(st) && Staged(st) && Reported(st) && !st.hs.opening
    requires Weight(st) <= buffered <= AppMaxBuffered
    requires st.life.finished ==> !st.attached
    requires st.hs.openErr.Some? ==> !st.attached
    requires st.tx.localClosed ==> st.tx.closeAfterFlush && (st.life.reset.None? ==> st.tx.sendQ == [])
    requires st.tx.early ==> st.tx.localClosed
    requires st.handle && st.life.reset.None? ==> st.writer || st.tx.localClosed
    requires st.life.reset.Some? || (st.tx.localClosed && st.rx.remoteClosed && st.tx.sendQ == [] && st.rx.inQ == [])
    ensures Keeps(st, buffered, Finish(st, buffered))
    ensures Finish(st, buffered).st.life.finished
  {
  }

  lemma RemoteResetKeeps(st: Stream, buffered: int, fault: Fault)
    requires Ready(st, buffered)
    ensures Keeps(st, buffered, RemoteReset(st, buffered, fault))
    ensures RemoteReset(st, buffered, fault).st.life.reset.Some?
  {
    FinishKeeps(SetReset(st, fault), buffered);
  }

  lemma ResetRemoteKeeps(st: Stream, buffered: int, fault: Fault)
    requires Ready(st, buffered)
    ensures Keeps(st, buffered, ResetRemote(st, buffered, fault))
  {
    RemoteResetKeeps(st, buffered, fault);
  }

  lemma MaybeFinishKeeps(st: Stream, buffered: int)
    requires Ready(st, buffered)
    ensures Keeps(st, buffered, MaybeFinish(st, buffered))
  {
    if st.tx.localClosed && st.rx.remoteClosed && st.tx.sendQ == [] && st.rx.inQ == [] {
      FinishKeeps(st, buffered);
    }
  }

  lemma WriteKeeps(st: Stream, buffered: int, p: Bytes)
    requires Ready(st, buffered) && st.handle
    ensures Keeps(st, buffered, Write(st, buffered, p))
  {
    if p != [] && st.life.reset.None? && !st.tx.localClosed && !st.tx.closeAfterFlush {
      if st.sendBytes + |p| > AppMaxSendQueue {
        ResetRemoteKeeps(st, buffered, SendQueueOverflow);
      } else if buffered + |p| > AppMaxBuffered {
        ResetRemoteKeeps(st, buffered, SessionBufferExceeded);
      } else {
        FlatAppend(st.tx.sendQ, p);
      }
    }
  }

  lemma ReadKeeps(st: Stream, buffered: int, room: nat)
    requires Ready(st, buffered) && st.handle
    ensures Keeps(st, buffered, Read(st, buffered, room))
  {
    if room > 0 && st.life.reset.None? {
      if st.rx.inQ != [] {
        DropFrontFlat(st.rx.inQ, Min(room, |st.rx.inQ[0]|));
      } else if st.rx.remoteClosed {
        MaybeFinishKeeps(st, buffered);
      }
    }
  }

  lemma CloseWriteKeeps(st: Stream, buffered: int)
    requires Ready(st, buffered) && st.handle
    ensures Keeps(st, buffered, CloseWrite(st, buffered))
  {
    if st.life.reset.None? && !st.tx.localClosed && !st.tx.closeAfterFlush && st.tx.sendQ == [] {
      var tx := st.tx.(closeAfterFlush := true, localClosed := true, early := st.tx.held != []);
      MaybeFinishKeeps(st.(tx := tx), buffered);
    }
  }

  lemma DequeueKeeps(st: Stream, buffered: int)
    requires Ready(st, buffered)
    requires st.writer && st.tx.held == [] && st.life.reset.None? && st.tx.sendQ != [] && st.tx.sndCredit > 0
    ensures Keeps(st, buffered, WriterTake(st, buffered))
  {
    var n := TakeSize(st);
    assert 0 < n <= |st.tx.sendQ[0]| && n <= st.tx.sndCredit;
    DropFrontFlat(st.tx.sendQ, n);
    var out := WriterTake(st, buffered);
    assert |Flat(out.st.tx.sendQ)| == |Flat(st.tx.sendQ)| - n;
    assert Counted(out.st);
    assert Windowed(out.st);
  }

  lemma WriterTakeKeeps(st: Stream, buffered: int)
    requires Ready(st, buffered)
    ensures Keeps(st, buffered, WriterTake(st, buffered))
  {
    hide Keeps;
    if !st.writer || st.tx.held != [] {
      IdleKeeps(st, buffered, Blocked);
    } else if st.life.reset.Some? {
      WriterEndsKeeps(st, buffered);
    } else if st.tx.sendQ != [] && st.tx.sndCredit > 0 {
      DequeueKeeps(st, buffered);
    } else if st.tx.sendQ == [] && st.tx.closeAfterFlush {
      WriterClosesKeeps(st, buffered);
    } else {
      IdleKeeps(st, buffered, Blocked);
    }
  }

  lemma WriterEndsKeeps(st: Stream, buffered: int)
    requires Ready(st, buffered) && st.life.reset.Some?
    ensures Keeps(st, buffered, Out(st.(writer := false), buffered, [], Done))
  {
  }

  lemma WriterClosesKeeps(st: Stream, buffered: int)
    requires Ready(st, buffered)
    requires st.writer && st.tx.held == [] && st.life.reset.None? && st.tx.sendQ == [] && st.tx.closeAfterFlush
    ensures Keeps(st, buffered, WriterTake(st, buffered))
  {
    MaybeFinishKeeps(st.(tx := st.tx.(localClosed := true), writer := false), buffered);
  }

  lemma SentKeeps(st: Stream)
    requires Sane(st)
    ensures Sane(st.(tx := st.tx.(held := []))) && Evolves(st, st.(tx := st.tx.(held := [])))
  {
  }

  lemma WriterSendKeeps(st: Stream, buffered: int)
    requires Ready(st, buffered)
    ensures Keeps(st, buffered, WriterSend(st, buffered))
  {
    if st.tx.held == [] {
      hide Keeps;
      IdleKeeps(st, buffered, Blocked);
    } else {
      hide Sane, Evolves;
      SentKeeps(st);
    }
  }

  lemma BufferedKeeps(st: Stream, buffered: int, data: Bytes)
    requires Ready(st, buffered) && st.attached && !st.hs.accepting && !st.hs.opening
    requires data != [] && |data| <= st.rx.rcvWindow && buffered + |data| <= AppMaxBuffered
    ensures Keeps(st, buffered,
                  Out(st.(rx := st.rx.(rcvWindow := st.rx.rcvWindow - |data|, inQ := st.rx.inQ + [data]),
                          inBytes := st.inBytes + |data|),
                      buffered + |data|, [], Done))
  {
    FlatAppend(st.rx.inQ, data);
  }

  lemma DeliverKeeps(st: Stream, buffered: int, data: Bytes)
    requires Ready(st, buffered) && st.attached
    ensures Keeps(st, buffered, Deliver(st, buffered, data))
  {
    hide Keeps;
    var out := Deliver(st, buffered, data);
    if out.res.Failed? {
      assert out == ResetRemote(st, buffered, out.res.fault);
      ResetRemoteKeeps(st, buffered, out.res.fault);
    } else if data != [] {
      BufferedKeeps(st, buffered, data);
    } else {
      CreditedKeeps(st, buffered, st.tx.sndCredit);
    }
  }

  lemma CreditedKeeps(st: Stream, buffered: int, credit: int)
    requires Ready(st, buffered) && 0 <= credit <= AppMaxCredit
    ensures Keeps(st, buffered, Out(st.(tx := st.tx.(sndCredit := credit)), buffered, [], Done))
  {
  }

  lemma AddCreditKeeps(st: Stream, buffered: int, n: nat)
    requires Ready(st, buffered) && st.attached
    ensures Keeps(st, buffered, AddCredit(st, buffered, n))
  {
    var out := AddCredit(st, buffered, n);
    var sum := (st.tx.sndCredit + n) % Uint32Space;
    if n == 0 || st.life.reset.Some? {
      assert out == Out(st.(tx := st.tx.(sndCredit := st.tx.sndCredit)), buffered, [], Done);
      CreditedKeeps(st, buffered, st.tx.sndCredit);
    } else if sum > AppMaxCredit {
      assert out == ResetRemote(st, buffered, Violation("credit cap exceeded"));
      ResetRemoteKeeps(st, buffered, Violation("credit cap exceeded"));
    } else {
      assert out == Out(st.(tx := st.tx.(sndCredit := sum)), buffered, [], Done);
      CreditedKeeps(st, buffered, sum);
    }
  }

  lemma RemoteCloseKeeps(st: Stream, buffered: int)
    requires Ready(st, buffered)
    ensures Keeps(st, buffered, RemoteClose(st, buffered))
  {
    if st.life.reset.None? && !st.rx.remoteClosed {
      MaybeFinishKeeps(st.(rx := st.rx.(remoteClosed := true)), buffered);
    }
  }

  lemma HandleAcceptKeeps(st: Stream, buffered: int, meta: Bytes, grant: nat)
    requires Ready(st, buffered) && st.attached
    ensures Keeps(st, buffered, HandleAccept(st, buffered, meta, grant))
  {
    var out := HandleAccept(st, buffered, meta, grant);
    if out.res.Failed? {
      ResetRemoteKeeps(st, buffered, out.res.fault);
    }
  }

  lemma HandleRejectKeeps(st: Stream, buffered: int, fault: Fault)
    requires Ready(st, buffered)
    ensures Keeps(st, buffered, HandleReject(st, buffered, fault))
  {
  }

  lemma ReceiveKeeps(st: Stream, buffered: int, m: AppMsg)
    requires Ready(st, buffered) && st.attached
    ensures Keeps(st, buffered, Receive(st, buffered, m))
  {
    match m
    case AppOpen(_, _, _) =>
    case AppAccept(_, meta, grant) => HandleAcceptKeeps(st, buffered, meta, grant);
    case AppReject(_, code, message) => HandleRejectKeeps(st, buffered, Fault(code, message));
    case AppData(_, data) => DeliverKeeps(st, buffered, data);
    case AppCredit(_, n) => AddCreditKeeps(st, buffered, n);
    case AppClose(_) => RemoteCloseKeeps(st, buffered);
    case AppReset(_, code, message) => RemoteResetKeeps(st, buffered, Fault(code, message));
  }

  lemma OpenReturnKeeps(st: Stream, buffered: int, sessionClosed: bool)
    requires Ready(st, buffered)
    requires sessionClosed ==> !st.attached
    ensures Keeps(st, buffered, OpenReturn(st, buffered, sessionClosed))
  {
  }

  lemma OpenExpireKeeps(st: Stream, buffered: int)
    requires Ready(st, buffered)
    ensures Keeps(st, buffered, OpenExpire(st, buffered))
  {
  }

  lemma AcceptFailKeeps(st: Stream, buffered: int, fault: Fault)
    requires Ready(st, buffered)
    ensures Keeps(st, buffered, AcceptFail(st, buffered, fault))
  {
  }

  lemma AcceptedKeeps(st: Stream, sessionClosed: bool)
    requires Sane(st) && st.hs.handling
    requires sessionClosed ==> !st.attached
    ensures var st' := AcceptOk(st, 0, [], sessionClosed).st;
            Sane(st') && Evolves(st, st') && Weight(st') == Weight(st)
  {
  }

  lemma AcceptOkKeeps(st: Stream, buffered: int, meta: Bytes, sessionClosed: bool)
    requires Ready(st, buffered)
    requires sessionClosed ==> !st.attached
    ensures Keeps(st, buffered, AcceptOk(st, buffered, meta, sessionClosed))
  {
    if !st.hs.handling {
      hide Keeps;
      IdleKeeps(st, buffered, Blocked);
    } else if |meta| > AppMaxMetaBytes {
      hide Keeps;
      AcceptFailKeeps(st, buffered, Violation("accept meta too large"));
    } else {
      hide Sane, Evolves;
      AcceptedKeeps(st, sessionClosed);
    }
  }

  /**
   The cap on an over-grant is enforced exactly when the uint32 sum does not wrap:
   a larger grant is taken, and lowers the credit instead of resetting the stream.
   */
  lemma OverGrantResetsIffNoWrap(st: Stream, buffered: int, n: nat)
    requires Ready(st, buffered) && st.life.reset.None? && 0 < n < Uint32Space
    requires st.tx.sndCredit + n > AppMaxCredit
    ensures AddCredit(st, buffered, n).st.life.reset.Some? <==> st.tx.sndCredit + n < Uint32Space
    ensures st.tx.sndCredit + n >= Uint32Space ==> AddCredit(st, buffered, n).st.tx.sndCredit < st.tx.sndCredit
  {
    ResetRemoteKeeps(st, buffered, Violation("credit cap exceeded"));
    RemoteResetKeeps(st, buffered, Violation("credit cap exceeded"));
  }
}
