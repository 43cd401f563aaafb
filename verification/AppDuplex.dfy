/** Every operation of one end of a pair keeps the pair invariant. */
module AppDuplex {
  import opened Basics
  import opened AppLimits
  import opened AppMessages
  import opened AppStream
  import opened AppStreamProofs
  import opened AppPair

  /** The pair after x's operation: y and its wire are untouched. */
  predicate Kept(out: Out, y: Stream, xy: seq<AppMsg>, yx: seq<AppMsg>, xDown: bool, yDown: bool) {
    Duplex(out.st, y, xy + Emit(xDown, out.sent), yx, xDown, yDown)
  }

  lemma MaybeFinishInert(x: Stream, buffered: int)
    ensures SameFlow(x, MaybeFinish(x, buffered).st)
  {
  }

  lemma ResetKept(x: Stream, y: Stream, xy: seq<AppMsg>, yx: seq<AppMsg>, xDown: bool, yDown: bool,
                  buffered: int, fault: Fault)
    requires Duplex(x, y, xy, yx, xDown, yDown) && Ready(x, buffered)
    ensures Kept(ResetRemote(x, buffered, fault), y, xy, yx, xDown, yDown)
  {
    var out := ResetRemote(x, buffered, fault);
    RemoteResetKeeps(x, buffered, fault);
    var xy' := xy + Emit(xDown, out.sent);
    if xDown {
      assert xy' == xy;
    } else {
      Extend(xy, out.sent[0]);
    }
    Kill(x, y, xy, yx, xDown, yDown, out.st, xy', xDown);
  }

  lemma WriteKept(x: Stream, y: Stream, xy: seq<AppMsg>, yx: seq<AppMsg>, xDown: bool, yDown: bool,
                  buffered: int, p: Bytes)
    requires Duplex(x, y, xy, yx, xDown, yDown) && Ready(x, buffered) && x.handle
    ensures Kept(Write(x, buffered, p), y, xy, yx, xDown, yDown)
  {
    var out := Write(x, buffered, p);
    WriteKeeps(x, buffered, p);
    if out.sent != [] {
      ResetKept(x, y, xy, yx, xDown, yDown, buffered, out.res.fault);
    } else {
      assert xy + Emit(xDown, out.sent) == xy;
      if out.st != x {
        Queue(x, y, xy, yx, xDown, yDown, p, out.st.sendBytes);
      }
    }
  }

  lemma ReadDataKept(x: Stream, y: Stream, xy: seq<AppMsg>, yx: seq<AppMsg>, xDown: bool, yDown: bool,
                     buffered: int, room: nat)
    requires Linked(x, y, xy, yx, xDown, yDown) && Sane(x) && Sane(y) && !y.hs.accepting
    requires room > 0 && x.life.reset.None? && x.rx.inQ != []
    ensures var out := Read(x, buffered, room);
            Linked(out.st, y, xy + Emit(xDown, out.sent), yx, xDown, yDown)
  {
    var out := Read(x, buffered, room);
    var n := Min(room, |x.rx.inQ[0]|);
    DropFrontFlat(x.rx.inQ, n);
    Consume(x, y, xy, yx, xDown, yDown, n, x.inBytes - n);
    assert Emit(xDown, out.sent) == [AppCredit(x.id, n)];
  }

  lemma ReadKept(x: Stream, y: Stream, xy: seq<AppMsg>, yx: seq<AppMsg>, xDown: bool, yDown: bool,
                 buffered: int, room: nat)
    requires Duplex(x, y, xy, yx, xDown, yDown) && Ready(x, buffered) && x.handle && !y.hs.accepting
    ensures Kept(Read(x, buffered, room), y, xy, yx, xDown, yDown)
  {
    var out := Read(x, buffered, room);
    ReadKeeps(x, buffered, room);
    if room > 0 && x.life.reset.None? && x.rx.inQ != [] {
      ReadDataKept(x, y, xy, yx, xDown, yDown, buffered, room);
    } else {
      assert xy + Emit(xDown, out.sent) == xy;
      MaybeFinishInert(x, buffered);
      Inert(x, y, xy, yx, xDown, yDown, out.st);
    }
  }

  /** The direct path of CloseWrite may overtake a chunk the write loop holds; then the close is an early one. */
  lemma CloseWriteKept(x: Stream, y: Stream, xy: seq<AppMsg>, yx: seq<AppMsg>, xDown: bool, yDown: bool,
                       buffered: int)
    requires Duplex(x, y, xy, yx, xDown, yDown) && Ready(x, buffered) && x.handle
    ensures Kept(CloseWrite(x, buffered), y, xy, yx, xDown, yDown)
  {
    var out := CloseWrite(x, buffered);
    CloseWriteKeeps(x, buffered);
    if out.sent != [] {
      var x1 := x.(tx := x.tx.(closeAfterFlush := true, localClosed := true, early := x.tx.held != []));
      HalfClose(x, y, xy, yx, xDown, yDown, x.writer, x.tx.held != []);
      MaybeFinishInert(x1, buffered);
      Inert(x1, y, xy + [AppClose(x.id)], yx, xDown, yDown, out.st);
    } else {
      assert xy + Emit(xDown, out.sent) == xy;
      Inert(x, y, xy, yx, xDown, yDown, out.st);
    }
  }

  /** The write loop closes; if x has left the table or lost its connection it had closed before. */
  lemma WriterCloseKept(x: Stream, y: Stream, xy: seq<AppMsg>, yx: seq<AppMsg>, xDown: bool, yDown: bool,
                        buffered: int)
    requires Linked(x, y, xy, yx, xDown, yDown) && Sane(x) && (y.attached ==> y.life.reset.None?)
    requires x.writer && x.tx.held == [] && x.life.reset.None? && x.tx.sendQ == [] && x.tx.closeAfterFlush
    ensures var out := WriterTake(x, buffered);
            Linked(out.st, y, xy + Emit(xDown, out.sent), yx, xDown, yDown)
  {
    var out := WriterTake(x, buffered);
    var x1 := x.(tx := x.tx.(localClosed := true), writer := false);
    MaybeFinishInert(x1, buffered);
    if xDown {
      assert xy + Emit(xDown, out.sent) == xy;
      Inert(x, y, xy, yx, xDown, yDown, out.st);
    } else {
      HalfClose(x, y, xy, yx, xDown, yDown, false, x.tx.early);
      Inert(x1, y, xy + [AppClose(x.id)], yx, xDown, yDown, out.st);
    }
  }

  lemma WriterDequeueKept(x: Stream, y: Stream, xy: seq<AppMsg>, yx: seq<AppMsg>, xDown: bool, yDown: bool,
                          buffered: int)
    requires Linked(x, y, xy, yx, xDown, yDown) && Sane(x)
    requires x.writer && x.tx.held == [] && x.life.reset.None? && x.tx.sendQ != [] && x.tx.sndCredit > 0
    ensures Linked(WriterTake(x, buffered).st, y, xy, yx, xDown, yDown)
  {
    var n := TakeSize(x);
    Dequeue(x, y, xy, yx, xDown, yDown, n, x.sendBytes - n);
  }

  lemma WriterTakeKept(x: Stream, y: Stream, xy: seq<AppMsg>, yx: seq<AppMsg>, xDown: bool, yDown: bool,
                       buffered: int)
    requires Duplex(x, y, xy, yx, xDown, yDown) && Ready(x, buffered)
    ensures Kept(WriterTake(x, buffered), y, xy, yx, xDown, yDown)
  {
    WriterTakeKeeps(x, buffered);
    if x.writer && x.tx.held == [] && x.life.reset.None? && x.tx.sendQ == [] && x.tx.closeAfterFlush {
      WriterCloseKept(x, y, xy, yx, xDown, yDown, buffered);
    } else {
      assert xy + Emit(xDown, []) == xy;
      if x.writer && x.tx.held == [] && x.life.reset.None? && x.tx.sendQ != [] && x.tx.sndCredit > 0 {
        WriterDequeueKept(x, y, xy, yx, xDown, yDown, buffered);
      } else {
        Inert(x, y, xy, yx, xDown, yDown, WriterTake(x, buffered).st);
      }
    }
  }

  lemma WriterSendKept(x: Stream, y: Stream, xy: seq<AppMsg>, yx: seq<AppMsg>, xDown: bool, yDown: bool,
                       buffered: int)
    requires Duplex(x, y, xy, yx, xDown, yDown) && Ready(x, buffered) && !xDown
    ensures Kept(WriterSend(x, buffered), y, xy, yx, xDown, yDown)
  {
    var out := WriterSend(x, buffered);
    WriterSendKeeps(x, buffered);
    if x.tx.held == [] {
      assert xy + Emit(xDown, out.sent) == xy;
    } else {
      Send(x, y, xy, yx, xDown, yDown);
    }
  }

  lemma OpenReturnKept(x: Stream, y: Stream, xy: seq<AppMsg>, yx: seq<AppMsg>, xDown: bool, yDown: bool,
                       buffered: int)
    requires Duplex(x, y, xy, yx, xDown, yDown) && Ready(x, buffered)
    ensures Kept(OpenReturn(x, buffered, xDown), y, xy, yx, xDown, yDown)
  {
    var out := OpenReturn(x, buffered, xDown);
    OpenReturnKeeps(x, buffered, xDown);
    assert xy + Emit(xDown, out.sent) == xy;
    Inert(x, y, xy, yx, xDown, yDown, out.st);
  }

  lemma OpenExpireKept(x: Stream, y: Stream, xy: seq<AppMsg>, yx: seq<AppMsg>, xDown: bool, yDown: bool,
                       buffered: int)
    requires Duplex(x, y, xy, yx, xDown, yDown) && Ready(x, buffered)
    ensures Kept(OpenExpire(x, buffered), y, xy, yx, xDown, yDown)
  {
    var out := OpenExpire(x, buffered);
    OpenExpireKeeps(x, buffered);
    var xy' := xy + Emit(xDown, out.sent);
    if x.hs.waiting {
      if xDown {
        assert xy' == xy;
      } else {
        Extend(xy, out.sent[0]);
      }
      Kill(x, y, xy, yx, xDown, yDown, out.st, xy', xDown);
    } else {
      assert xy' == xy;
    }
  }

  // ---- The first message of yx reaches x ----

  predicate Taken(out: Out, y: Stream, xy: seq<AppMsg>, yx: seq<AppMsg>, xDown: bool, yDown: bool)
    requires yx != []
  {
    Duplex(out.st, y, xy + Emit(xDown, out.sent), yx[1..], xDown, yDown)
  }

  /** A pair whose receiver is reset after taking a message. */
  lemma ResetTaken(x: Stream, y: Stream, xy: seq<AppMsg>, yx: seq<AppMsg>, xDown: bool, yDown: bool,
                   buffered: int, fault: Fault)
    requires yx != [] && Duplex(x, y, xy, yx, xDown, yDown) && Ready(x, buffered)
    ensures Taken(ResetRemote(x, buffered, fault), y, xy, yx, xDown, yDown)
  {
    var out := ResetRemote(x, buffered, fault);
    ResetKept(x, y, xy, yx, xDown, yDown, buffered, fault);
    RemoteResetKeeps(x, buffered, fault);
    Ignore(out.st, y, xy + Emit(xDown, out.sent), yx, xDown, yDown);
  }

  /** Between two correct ends data is refused only for want of session memory, or behind an early close. */
  lemma DataWelcome(x: Stream, y: Stream, xy: seq<AppMsg>, yx: seq<AppMsg>, buffered: int)
    requires yx != [] && yx[0].AppData? && Flow(y, x, yx, xy)
    requires x.attached && x.life.reset.None? && !x.hs.opening && !x.hs.accepting
    ensures x.rx.remoteClosed ==> y.tx.early
    ensures var data := yx[0].data;
            Deliver(x, buffered, data) ==
            if x.rx.remoteClosed then ResetRemote(x, buffered, Violation("data after close"))
            else if buffered + |data| > AppMaxBuffered then ResetRemote(x, buffered, SessionBufferExceeded)
            else Out(x.(rx := x.rx.(rcvWindow := x.rx.rcvWindow - |data|, inQ := x.rx.inQ + [data]),
                        inBytes := x.inBytes + |data|), buffered + |data|, [], Done)
  {
    hide Payload, Before, Closing, Have, ResetRemote, Clean;
    CleanHead(yx);
    Pop(yx);
  }

  lemma CleanHead(w: seq<AppMsg>)
    requires w != [] && !w[0].AppReset? && Clean(w)
    ensures Proper(w[0])
  {
  }

  lemma DataTaken(x: Stream, y: Stream, xy: seq<AppMsg>, yx: seq<AppMsg>, xDown: bool, yDown: bool, buffered: int)
    requires yx != [] && yx[0].AppData? && Duplex(x, y, xy, yx, xDown, yDown) && Ready(x, buffered)
    requires x.attached && x.life.reset.None? && !x.hs.opening && !x.hs.accepting
    ensures Taken(Deliver(x, buffered, yx[0].data), y, xy, yx, xDown, yDown)
  {
    hide Sane, Flow, Told, Deliver, Evolves, ResetRemote;
    DataWelcome(x, y, xy, yx, buffered);
    var data := yx[0].data;
    if x.rx.remoteClosed {
      hide Taken;
      ResetTaken(x, y, xy, yx, xDown, yDown, buffered, Violation("data after close"));
    } else if buffered + |data| > AppMaxBuffered {
      hide Taken;
      ResetTaken(x, y, xy, yx, xDown, yDown, buffered, SessionBufferExceeded);
    } else {
      DeliverKeeps(x, buffered, data);
      assert xy + Emit(xDown, []) == xy;
      TakeData(x, y, xy, yx, xDown, yDown, x.inBytes + |data|);
    }
  }

  lemma NoWrap(sum: int)
    requires 0 <= sum < Uint32Space
    ensures sum % Uint32Space == sum
  {
  }

  /** Between two correct ends credit never exceeds the initial window, so the cap is never met. */
  lemma CreditAdded(x: Stream, y: Stream, xy: seq<AppMsg>, yx: seq<AppMsg>, buffered: int)
    requires yx != [] && yx[0].AppCredit? && Windowed(x) && x.attached && x.life.reset.None?
    requires Flow(x, y, xy, yx) && Clean(yx)
    ensures AddCredit(x, buffered, yx[0].bytes) ==
            Out(x.(tx := x.tx.(sndCredit := x.tx.sndCredit + yx[0].bytes)), buffered, [], Done)
  {
    NoWrap(x.tx.sndCredit + yx[0].bytes);
  }

  lemma CreditTaken(x: Stream, y: Stream, xy: seq<AppMsg>, yx: seq<AppMsg>, xDown: bool, yDown: bool, buffered: int)
    requires yx != [] && yx[0].AppCredit? && Duplex(x, y, xy, yx, xDown, yDown) && Ready(x, buffered)
    requires x.attached
    ensures Taken(AddCredit(x, buffered, yx[0].bytes), y, xy, yx, xDown, yDown)
  {
    CreditAdded(x, y, xy, yx, buffered);
    AddCreditKeeps(x, buffered, yx[0].bytes);
    assert xy + Emit(xDown, []) == xy;
    TakeCredit(x, y, xy, yx, xDown, yDown);
  }

  lemma CloseTaken(x: Stream, y: Stream, xy: seq<AppMsg>, yx: seq<AppMsg>, xDown: bool, yDown: bool, buffered: int)
    requires yx != [] && yx[0].AppClose? && Duplex(x, y, xy, yx, xDown, yDown) && Ready(x, buffered)
    requires x.attached
    ensures Taken(RemoteClose(x, buffered), y, xy, yx, xDown, yDown)
  {
    var out := RemoteClose(x, buffered);
    RemoteCloseKeeps(x, buffered);
    assert xy + Emit(xDown, out.sent) == xy;
    var x1 := x.(rx := x.rx.(remoteClosed := true));
    TakeClose(x, y, xy, yx, xDown, yDown);
    MaybeFinishInert(x1, buffered);
    Inert(x1, y, xy, yx[1..], xDown, yDown, out.st);
  }

  lemma ResetMsgTaken(x: Stream, y: Stream, xy: seq<AppMsg>, yx: seq<AppMsg>, xDown: bool, yDown: bool,
                      buffered: int, fault: Fault)
    requires yx != [] && yx[0].AppReset? && Duplex(x, y, xy, yx, xDown, yDown) && Ready(x, buffered)
    ensures Taken(RemoteReset(x, buffered, fault), y, xy, yx, xDown, yDown)
  {
    var out := RemoteReset(x, buffered, fault);
    RemoteResetKeeps(x, buffered, fault);
    assert xy + Emit(xDown, out.sent) == xy;
    assert HasReset(yx);
    Kill(x, y, xy, yx, xDown, yDown, out.st, xy, xDown);
    Ignore(out.st, y, xy, yx, xDown, yDown);
  }

  lemma AcceptTaken(x: Stream, y: Stream, xy: seq<AppMsg>, yx: seq<AppMsg>, xDown: bool, yDown: bool, buffered: int)
    requires yx != [] && yx[0].AppAccept? && Duplex(x, y, xy, yx, xDown, yDown) && Ready(x, buffered)
    requires x.attached && x.hs.opening && x.tx.sndCredit == 0
    ensures Taken(HandleAccept(x, buffered, yx[0].meta, yx[0].grant), y, xy, yx, xDown, yDown)
    ensures var out := HandleAccept(x, buffered, yx[0].meta, yx[0].grant);
            out.sent == [] && !out.st.hs.opening && out.st.attached && out.st.hs.grant == AppInitialWindow
  {
    var out := HandleAccept(x, buffered, yx[0].meta, yx[0].grant);
    HandleAcceptKeeps(x, buffered, yx[0].meta, yx[0].grant);
    assert xy + Emit(xDown, out.sent) == xy;
    TakeAccept(x, y, xy, yx, xDown, yDown, out.st.hs.readyCloses);
  }

  lemma RejectTaken(x: Stream, y: Stream, xy: seq<AppMsg>, yx: seq<AppMsg>, xDown: bool, yDown: bool,
                    buffered: int, fault: Fault)
    requires yx != [] && yx[0].AppReject? && Duplex(x, y, xy, yx, xDown, yDown) && Ready(x, buffered)
    ensures Taken(HandleReject(x, buffered, fault), y, xy, yx, xDown, yDown)
  {
    var out := HandleReject(x, buffered, fault);
    HandleRejectKeeps(x, buffered, fault);
    assert xy + Emit(xDown, out.sent) == xy;
    TakeReject(x, y, xy, yx, xDown, yDown);
    Inert(x, y, xy, yx[1..], xDown, yDown, out.st);
  }

  lemma IgnoredTaken(x: Stream, y: Stream, xy: seq<AppMsg>, yx: seq<AppMsg>, xDown: bool, yDown: bool)
    requires yx != [] && Duplex(x, y, xy, yx, xDown, yDown) && !x.attached
    ensures Duplex(x, y, xy, yx[1..], xDown, yDown)
  {
    Ignore(x, y, xy, yx, xDown, yDown);
  }
}
