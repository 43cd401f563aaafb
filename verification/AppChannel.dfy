/**
 The session and its streams as the objects protocol/app keeps: fields updated in
 place, a table of stream references and a shared ledger. Every method is proved to
 do exactly what the value-level session does for the same call, so whatever holds
 of that session over all runs holds of these objects.
 */
module AppChannel {
  import opened Basics
  import opened AppLimits
  import opened AppMessages
  import S = AppStream
  import A = AppSession
  import P = AppSessionProofs
  import Q = AppStreamProofs

  class Session {
    const guest: bool
    var streams: map<nat, Stream>
    var nextID: nat
    var closed: bool
    var buffered: int
    /** What has been written to the connection. */
    var wire: seq<AppMsg>
    /** The codes of the ERROR frames written after it. */
    var errors: seq<nat>
    /** The last stream created under each ID, in the table or not. */
    ghost var every: map<nat, Stream>

    constructor (guest: bool)
      ensures Valid() && Model() == A.NewSession(guest) && wire == [] && errors == []
    {
      this.guest := guest;
      streams, nextID, closed, buffered, wire, errors, every := map[], 0, false, 0, [], [], map[];
      new;
      assert Model() == A.NewSession(guest);
      P.NewSessionInv(guest);
    }

    ghost predicate Tracks(st: Stream)
      reads this`every, this`streams
    {
      st.sess == this && st.id in every && every[st.id] == st && (st.id in streams ==> streams[st.id] == st)
    }

    ghost function Views(): map<nat, S.Stream>
      reads this`every, this`streams, every.Values
    {
      map id | id in every :: every[id].View(id in streams)
    }

    ghost function Model(): A.Session
      reads this, every.Values
    {
      A.Session(guest, Views(), nextID, closed, buffered)
    }

    ghost predicate Linked()
      reads this`every, this`streams
    {
      && streams.Keys <= every.Keys
      && forall id :: id in every ==> every[id].id == id && Tracks(every[id])
    }

    ghost predicate Valid()
      reads this, every.Values
    {
      Linked() && P.SessionInv(Model())
    }

    /** The session has done what the value-level session does for the call. */
    twostate predicate Performed(c: A.Call)
      reads this, every.Values
    {
      var e := A.Next(old(Model()), c);
      Model() == e.s && wire == old(wire) + e.sent && errors == old(errors) + e.errors
    }

    lemma TableIs()
      requires Linked()
      ensures A.Table(Model()) == streams.Keys && |A.Table(Model())| == |streams|
    {
    }

    lemma NextIsFree()
      requires Valid() && nextID < MaxLocalStreamID
      ensures A.LocalBit(guest) + nextID + 1 !in streams
    {
      hide P.SessionInv;
      P.OpenFresh(Model());
    }

    method ReserveBuffer(n: nat) returns (ok: bool)
      modifies this`buffered
      ensures ok <==> old(buffered) + n <= AppMaxBuffered
      ensures buffered == old(buffered) + if ok then n else 0
    {
      ok := buffered + n <= AppMaxBuffered;
      if ok {
        buffered := buffered + n;
      }
    }

    method ReleaseBuffer(n: int)
      modifies this`buffered
      ensures buffered == S.Release(old(buffered), n)
    {
      if n >= buffered {
        buffered := 0;
      } else {
        buffered := buffered - n;
      }
    }

    /** A closed session has lost its connection and cannot send. */
    method SendApp(m: AppMsg)
      modifies this`wire
      ensures wire == old(wire) + if closed then [] else [m]
    {
      if !closed {
        wire := wire + [m];
      }
    }

    method SendError(code: nat)
      modifies this`errors
      ensures errors == old(errors) + if closed then [] else [code]
    {
      if !closed {
        errors := errors + [code];
      }
    }

    method Detach(st: Stream)
      requires Tracks(st)
      modifies this, st
      ensures st.Did(S.Detach(old(st.Value()), old(buffered)))
    {
      if st.id in streams && streams[st.id] == st {
        streams := streams - {st.id};
      }
      var remaining := st.sendBytes + st.inBytes;
      st.sendBytes, st.inBytes := 0, 0;
      ReleaseBuffer(remaining);
    }

    method Finish(st: Stream)
      requires Tracks(st)
      modifies this, st
      ensures st.Did(S.Finish(old(st.Value()), old(buffered)))
    {
      if !st.life.finished {
        st.life := st.life.(finished := true);
        if st.life.announced {
          st.life := st.life.(reports := st.life.reports + [S.StreamClosed]);
        }
        Detach(st);
      }
    }

    method Enter(st: Stream)
      requires Linked() && st.sess == this && st.id !in streams && forall i :: i in every ==> every[i] != st
      modifies this`streams, this`every
      ensures Linked() && streams == old(streams)[st.id := st] && every == old(every)[st.id := st]
    {
      streams := streams[st.id := st];
      every := every[st.id := st];
    }

    /** A new stream under an ID that is not in the table. */
    method Register(id: nat, inbound: bool)
      requires Linked() && id !in streams
      modifies this`streams, this`every
      ensures Linked()
      ensures Model() == old(Model()).(streams := old(Model()).streams[id := S.NewStream(id, inbound)])
    {
      hide S.NewStream, Stream.View, Linked;
      var st := new Stream(this, id, inbound);
      Enter(st);
      assert Model().streams == old(Model()).streams[id := S.NewStream(id, inbound)];
    }

    /** `Open` up to the point where it waits for the answer. */
    method Open(service: Bytes, meta: Bytes) returns (r: S.Result)
      requires Valid()
      modifies this
      ensures Linked()
      ensures var e := A.OpenStream(old(Model()), service, meta);
              Model() == e.s && wire == old(wire) + e.sent && errors == old(errors) + e.errors && r == e.res
    {
      hide P.SessionInv, ValidAppService, S.NewStream, A.Table, Linked, Views;
      TableIs();
      if !ValidAppService(service) || |meta| > AppMaxMetaBytes {
        r := S.Invalid;
      } else if closed {
        r := S.Closed;
      } else if |streams| >= AppMaxStreams {
        r := S.Failed(S.Fault(AppQuotaExceeded, Ascii("stream quota exceeded")));
      } else if nextID >= MaxLocalStreamID {
        r := S.Exhausted;
      } else {
        NextIsFree();
        nextID := nextID + 1;
        var id := A.LocalBit(guest) + nextID;
        Register(id, false);
        SendApp(AppOpen(id, service, meta));
        r := S.Opened(id);
      }
    }

    method HandleOpen(id: nat, service: Bytes, meta: Bytes)
      requires Linked()
      modifies this
      ensures Linked()
      ensures var e := if old(closed) then A.Idle(old(Model()), S.Closed)
                       else A.HandleOpen(old(Model()), id, service, meta);
              Model() == e.s && wire == old(wire) + e.sent && errors == old(errors) + e.errors
    {
      hide ValidAppService, S.NewStream, Stream.View, A.Table, A.GuestID;
      TableIs();
      if id == 0 || A.GuestID(id) == guest || !ValidAppService(service) || |meta| > AppMaxMetaBytes {
        SendApp(AppReject(id, AppProtocolError, Ascii("invalid APP_OPEN")));
      } else if closed {
        return;
      } else if id in streams {
        SendApp(AppReject(id, AppProtocolError, Ascii("duplicate stream_id")));
      } else if |streams| >= AppMaxStreams {
        SendApp(AppReject(id, AppQuotaExceeded, Ascii("stream quota exceeded")));
      } else {
        Register(id, true);
      }
    }

    /** The streams listed have been reset, and nothing else has happened to any stream since the table was emptied. */
    ghost predicate Swept(was: map<nat, S.Stream>, done: set<nat>)
      reads this`every, every.Values
    {
      && every.Keys == was.Keys
      && forall i :: i in every ==>
           every[i].View(false) == if i in done then A.Lost(was[i]) else was[i].(attached := false)
    }

    method Drop(st: Stream, ghost was: S.Stream)
      requires Tracks(st) && st.id !in streams && buffered == 0
      requires Q.Sane(was) && was.attached && st.View(false) == was.(attached := false)
      modifies this, st
      ensures st.Did(S.Out(A.Lost(was), 0, [], S.Done))
    {
      P.LostDetached(was);
      st.SetReset(S.ConnectionClosed);
      Finish(st);
    }

    /** One stream of the emptied table. */
    method SweepOne(id: nat, st: Stream, ghost was: map<nat, S.Stream>, ghost done: set<nat>)
      requires Linked() && streams == map[] && buffered == 0 && Swept(was, done)
      requires id in every && every[id] == st && id !in done && Q.Sane(was[id]) && was[id].attached
      modifies this, st
      ensures Linked() && streams == map[] && buffered == 0 && wire == old(wire) && errors == old(errors)
      ensures closed == old(closed) && nextID == old(nextID) && every == old(every) && Swept(was, done + {id})
    {
      hide Q.Sane, A.Lost, Stream.View, Linked;
      Apart(id);
      Drop(st, was[id]);
    }

    lemma BeforeSweep()
      requires Valid()
      ensures Swept(Views(), {})
      ensures forall i :: i in every ==> Q.Sane(Views()[i]) && (Views()[i].attached <==> i in streams)
    {
      forall i | i in every ensures Q.Sane(Views()[i]) {
        assert P.StreamOk(Model(), i);
      }
    }

    lemma AfterSweep(was: map<nat, S.Stream>, done: set<nat>)
      requires streams == map[] && Swept(was, done) && forall i :: i in was ==> (was[i].attached <==> i in done)
      ensures Views() == map i | i in was :: A.Lost(was[i])
    {
    }

    lemma Apart(id: nat)
      requires Linked() && id in every
      ensures Tracks(every[id]) && every[id].id == id && forall i :: i in every && i != id ==> every[i] != every[id]
    {
    }

    /** The loop over the streams that were in the table. */
    method Sweep(table: map<nat, Stream>, ghost was: map<nat, S.Stream>)
      requires Linked() && streams == map[] && buffered == 0 && Swept(was, {})
      requires forall i :: i in table ==> i in every && every[i] == table[i] && Q.Sane(was[i]) && was[i].attached
      modifies this, every.Values
      ensures Linked() && streams == map[] && buffered == 0 && wire == old(wire) && errors == old(errors)
      ensures closed == old(closed) && nextID == old(nextID) && every == old(every) && Swept(was, table.Keys)
    {
      hide Q.Sane, Linked, Swept;
      var rest := table.Keys;
      assert table.Keys - rest == {};
      while rest != {}
        invariant rest <= table.Keys && every == old(every) && Linked()
        invariant streams == map[] && closed == old(closed) && buffered == 0
        invariant wire == old(wire) && errors == old(errors) && nextID == old(nextID)
        invariant Swept(was, table.Keys - rest)
      {
        var id :| id in rest;
        ghost var done := table.Keys - rest;
        rest := rest - {id};
        SweepOne(id, table[id], was, done);
        assert table.Keys - rest == done + {id};
      }
      assert table.Keys - rest == table.Keys;
    }

    method CloseAll()
      requires Valid() && !closed
      modifies this, every.Values
      ensures Linked() && Model() == A.Fail(old(Model())) && wire == old(wire) && errors == old(errors)
    {
      hide P.SessionInv, Q.Sane, A.Lost, Swept, Views;
      BeforeSweep();
      ghost var was := Views();
      closed := true;
      var table := streams;
      streams := map[];
      buffered := 0;
      assert Linked() && forall i :: i in table ==> every[i] == table[i];
      Sweep(table, was);
      AfterSweep(was, table.Keys);
    }

    method Fail()
      requires Valid()
      modifies this, every.Values
      ensures Linked() && Model() == A.Fail(old(Model())) && wire == old(wire) && errors == old(errors)
    {
      hide P.SessionInv;
      if !closed {
        CloseAll();
      }
    }

    /** An incoming message whose body decodes, or an undecodable one. */
    method HandleMessage(m: AppMsg)
      requires Valid()
      modifies this, every.Values
      ensures var e := A.HandleMessage(old(Model()), m);
              Linked() && Model() == e.s && wire == old(wire) + e.sent && errors == old(errors) + e.errors
    {
      hide P.SessionInv, A.HandleOpen, A.Fail, S.Receive, A.Table;
      TableIs();
      if closed {
      } else if !Fits(m) {
        SendError(BadPayload);
        Fail();
      } else if m.AppOpen? {
        HandleOpen(m.streamID, m.service, m.meta);
      } else if m.streamID in streams {
        var st := streams[m.streamID];
        ghost var out := S.Receive(st.Value(), buffered, m);
        st.Receive(m);
        st.Merge(out);
      }
    }

    /** What is not about a stream the caller holds. */
    method Perform(c: A.Call) returns (r: S.Result)
      requires Valid() && (c.OpenCall? || c.ConnectionLost? || c.Incoming?)
      modifies this, every.Values
      ensures Valid() && Performed(c) && (c.OpenCall? ==> r == A.Next(old(Model()), c).res)
    {
      hide P.SessionInv, A.OpenStream, A.Fail, A.HandleMessage, Views, Linked;
      P.NextInv(Model(), c);
      r := S.Done;
      match c
      case OpenCall(service, meta) => r := Open(service, meta);
      case ConnectionLost => Fail();
      case Incoming(m) => HandleMessage(m);
    }
  }

  class Stream {
    const sess: Session
    const id: nat
    const inbound: bool

    /** The fields of the source, in the groups of the value-level stream. */
    var tx: S.Sender
    var rx: S.Receiver
    var hs: S.Handshake
    var life: S.Life
    var sendBytes: int
    var inBytes: int
    var writer: bool
    var handle: bool

    constructor (sess: Session, id: nat, inbound: bool)
      ensures this.sess == sess && this.id == id && this.inbound == inbound
      ensures View(true) == S.NewStream(id, inbound)
    {
      this.sess, this.id, this.inbound := sess, id, inbound;
      tx := S.Sender(0, [], [], [], false, false, false);
      rx := S.Receiver(if inbound then 0 else AppInitialWindow, [], [], false);
      hs := S.Handshake(!inbound, inbound, !inbound, inbound, None, 0, 0);
      life := S.Life(None, false, false, []);
      sendBytes, inBytes, writer, handle := 0, 0, false, false;
    }

    ghost function View(attached: bool): S.Stream
      reads this
    {
      S.Stream(id, inbound, tx, rx, hs, life, sendBytes, inBytes, attached, writer, handle)
    }

    ghost function Value(): S.Stream
      reads this, sess
    {
      View(id in sess.streams)
    }

    /** An operation on the stream has had exactly this outcome for the stream and its session. */
    twostate predicate Did(out: S.Out)
      reads this, sess
    {
      && Value() == out.st && sess.buffered == out.buffered
      && sess.wire == old(sess.wire) + (if old(sess.closed) then [] else out.sent)
      && sess.errors == old(sess.errors) && sess.every == old(sess.every)
      && sess.closed == old(sess.closed) && sess.nextID == old(sess.nextID)
      && sess.streams == (if out.st.attached then old(sess.streams) else old(sess.streams) - {id})
    }

    /** Seen from the session, one stream has been replaced. */
    twostate lemma Merge(out: S.Out)
      requires old(sess.Linked()) && old(sess.Tracks(this)) && Did(out)
      requires forall i :: i in old(sess.every) && i != id ==> unchanged(old(sess.every)[i])
      ensures sess.Linked() && sess.Model() == A.OnStream(old(sess.Model()), id, out).s
      ensures sess.wire == old(sess.wire) + A.OnStream(old(sess.Model()), id, out).sent
      ensures sess.errors == old(sess.errors)
    {
      assert sess.Model().streams == A.OnStream(old(sess.Model()), id, out).s.streams;
    }

    /** A call that had the outcome the value-level stream has for it. */
    twostate lemma Settle(c: A.Call)
      requires old(sess.Valid()) && old(sess.Tracks(this))
      requires !c.OpenCall? && !c.ConnectionLost? && !c.Incoming? && c.id == id
      requires Did(A.StreamCall(old(Value()), old(sess.buffered), old(sess.closed), c))
      requires forall i :: i in old(sess.every) && i != id ==> unchanged(old(sess.every)[i])
      ensures sess.Valid() && sess.Performed(c)
    {
      hide P.SessionInv, A.StreamCall;
      Merge(A.StreamCall(old(Value()), old(sess.buffered), old(sess.closed), c));
      P.NextInv(old(sess.Model()), c);
    }

    method SetReset(fault: S.Fault)
      modifies this`life, this`hs
      ensures View(true) == S.SetReset(old(View(true)), fault)
    {
      if life.reset.None? {
        life := life.(reset := Some(fault));
        if hs.opening {
          hs := hs.(opening := false, readyCloses := hs.readyCloses + 1);
        }
      }
    }

    method RemoteReset(fault: S.Fault)
      requires sess.Tracks(this)
      modifies this, sess
      ensures Did(S.RemoteReset(old(Value()), old(sess.buffered), fault))
    {
      SetReset(fault);
      sess.Finish(this);
    }

    method ResetRemote(fault: S.Fault)
      requires sess.Tracks(this)
      modifies this, sess
      ensures Did(S.ResetRemote(old(Value()), old(sess.buffered), fault))
    {
      sess.SendApp(AppReset(id, fault.code, fault.message));
      RemoteReset(fault);
    }

    method MaybeFinish()
      requires sess.Tracks(this)
      modifies this, sess
      ensures Did(S.MaybeFinish(old(Value()), old(sess.buffered)))
    {
      if tx.localClosed && rx.remoteClosed && tx.sendQ == [] && rx.inQ == [] {
        sess.Finish(this);
      }
    }

    method MarkOpened()
      modifies this`life
      ensures View(true) == S.MarkOpened(old(View(true)))
    {
      if !life.finished && !life.announced {
        life := life.(announced := true, reports := life.reports + [S.StreamOpened]);
      }
    }

    method Write(p: Bytes) returns (r: S.Result)
      requires sess.Tracks(this)
      modifies this, sess
      ensures var out := S.Write(old(Value()), old(sess.buffered), p); Did(out) && r == out.res
    {
      if p == [] {
        r := S.Wrote(0);
      } else if life.reset.Some? {
        r := S.Failed(life.reset.value);
      } else if tx.localClosed || tx.closeAfterFlush {
        r := S.Closed;
      } else if sendBytes + |p| > AppMaxSendQueue {
        ResetRemote(S.SendQueueOverflow);
        r := S.Failed(S.SendQueueOverflow);
      } else {
        var ok := sess.ReserveBuffer(|p|);
        if !ok {
          ResetRemote(S.SessionBufferExceeded);
          r := S.Failed(S.SessionBufferExceeded);
        } else {
          tx := tx.(sendQ := tx.sendQ + [p], wrote := tx.wrote + p);
          sendBytes := sendBytes + |p|;
          r := S.Wrote(|p|);
        }
      }
    }

    /** Bytes are copied out of the first chunk. */
    method Pop(n: nat) returns (data: Bytes)
      requires rx.inQ != [] && n <= |rx.inQ[0]|
      modifies this`rx, this`inBytes
      ensures data == old(rx.inQ[0])[..n] && inBytes == old(inBytes) - n
      ensures rx == old(rx).(inQ := S.DropFront(old(rx.inQ), n), got := old(rx.got) + data,
                             rcvWindow := old(rx.rcvWindow) + n)
    {
      data := rx.inQ[0][..n];
      var front := rx.inQ[0][n..];
      rx := rx.(inQ := if front == [] then rx.inQ[1..] else [front] + rx.inQ[1..],
                got := rx.got + data, rcvWindow := rx.rcvWindow + n);
      inBytes := inBytes - n;
    }

    /** The credit for the bytes copied goes back to the peer. */
    method Consume(room: nat) returns (r: S.Result)
      requires sess.Tracks(this) && room > 0 && life.reset.None? && rx.inQ != []
      modifies this, sess
      ensures var out := S.Read(old(Value()), old(sess.buffered), room); Did(out) && r == out.res
    {
      hide S.Release, S.MaybeFinish, S.DropFront;
      var n := Min(room, |rx.inQ[0]|);
      var data := Pop(n);
      r := S.Got(data);
      sess.ReleaseBuffer(n);
      sess.SendApp(AppCredit(id, n));
    }

    method Read(room: nat) returns (r: S.Result)
      requires sess.Tracks(this)
      modifies this, sess
      ensures var out := S.Read(old(Value()), old(sess.buffered), room); Did(out) && r == out.res
    {
      if room == 0 {
        r := S.Got([]);
      } else if life.reset.Some? {
        r := S.Failed(life.reset.value);
      } else if rx.inQ != [] {
        r := Consume(room);
      } else if rx.remoteClosed {
        MaybeFinish();
        r := S.Eof;
      } else {
        r := S.Blocked;
      }
    }

    method CloseWrite() returns (r: S.Result)
      requires sess.Tracks(this)
      modifies this, sess
      ensures var out := S.CloseWrite(old(Value()), old(sess.buffered)); Did(out) && r == out.res
    {
      hide S.MaybeFinish;
      r := S.Done;
      if life.reset.Some? {
        r := S.Failed(life.reset.value);
      } else if !tx.localClosed && !tx.closeAfterFlush {
        tx := tx.(closeAfterFlush := true);
        if tx.sendQ == [] {
          tx := tx.(localClosed := true, early := tx.held != []);
          sess.SendApp(AppClose(id));
          MaybeFinish();
        }
      }
    }

    /** The write loop takes what the credit and the frame limit allow. */
    method Dequeue()
      requires sess.Tracks(this) && writer && tx.held == [] && life.reset.None? && tx.sendQ != [] && tx.sndCredit > 0
      modifies this, sess
      ensures Did(S.WriterTake(old(Value()), old(sess.buffered)))
    {
      hide S.Release;
      var n := |tx.sendQ[0]|;
      if n > tx.sndCredit {
        n := tx.sndCredit;
      }
      if n > AppMaxDataBytes {
        n := AppMaxDataBytes;
      }
      var data := tx.sendQ[0][..n];
      sendBytes := sendBytes - n;
      tx := tx.(sndCredit := tx.sndCredit - n, held := data,
                sendQ := if |tx.sendQ[0]| == n then tx.sendQ[1..] else [tx.sendQ[0][n..]] + tx.sendQ[1..]);
      sess.ReleaseBuffer(n);
    }

    /** A pass of the write loop up to the point where it gives up the lock. */
    method WriterTake() returns (r: S.Result)
      requires sess.Tracks(this)
      modifies this, sess
      ensures var out := S.WriterTake(old(Value()), old(sess.buffered)); Did(out) && r == out.res
    {
      hide S.MaybeFinish, S.Release, S.DropFront, S.TakeSize;
      r := S.Done;
      if !writer || tx.held != [] {
        r := S.Blocked;
      } else if life.reset.Some? {
        writer := false;
      } else if tx.sendQ != [] && tx.sndCredit > 0 {
        Dequeue();
      } else if tx.sendQ == [] && tx.closeAfterFlush {
        tx := tx.(localClosed := true);
        writer := false;
        sess.SendApp(AppClose(id));
        MaybeFinish();
      } else {
        r := S.Blocked;
      }
    }

    /** The rest of the pass. On a closed session the send fails and the loop ends. */
    method WriterSend() returns (r: S.Result)
      requires sess.Tracks(this)
      modifies this, sess
      ensures var out := A.StreamCall(old(Value()), old(sess.buffered), old(sess.closed), A.LoopSend(id));
              Did(out) && r == out.res
    {
      r := S.Done;
      if sess.closed {
        writer := writer && tx.held == [];
        tx := tx.(held := []);
      } else if tx.held == [] {
        r := S.Blocked;
      } else {
        sess.SendApp(AppData(id, tx.held));
        tx := tx.(held := []);
      }
    }

    method Deliver(data: Bytes)
      requires sess.Tracks(this)
      modifies this, sess
      ensures Did(S.Deliver(old(Value()), old(sess.buffered), data))
    {
      hide S.ResetRemote, S.Violation;
      if data == [] {
      } else if |data| > AppMaxDataBytes {
        ResetRemote(S.Violation("data frame too large"));
      } else if hs.accepting || hs.opening {
        ResetRemote(S.Violation("data before accept"));
      } else if rx.remoteClosed || life.reset.Some? {
        ResetRemote(S.Violation("data after close"));
      } else if |data| > rx.rcvWindow {
        ResetRemote(S.Violation("credit exceeded"));
      } else {
        var ok := sess.ReserveBuffer(|data|);
        if !ok {
          ResetRemote(S.SessionBufferExceeded);
        } else {
          rx := rx.(rcvWindow := rx.rcvWindow - |data|, inQ := rx.inQ + [data]);
          inBytes := inBytes + |data|;
        }
      }
    }

    method AddCredit(n: nat)
      requires sess.Tracks(this)
      modifies this, sess
      ensures Did(S.AddCredit(old(Value()), old(sess.buffered), n))
    {
      if n != 0 && life.reset.None? {
        var sum := (tx.sndCredit + n) % Uint32Space;
        if sum > AppMaxCredit {
          ResetRemote(S.Violation("credit cap exceeded"));
        } else {
          tx := tx.(sndCredit := sum);
        }
      }
    }

    method RemoteClose()
      requires sess.Tracks(this)
      modifies this, sess
      ensures Did(S.RemoteClose(old(Value()), old(sess.buffered)))
    {
      if life.reset.None? && !rx.remoteClosed {
        rx := rx.(remoteClosed := true);
        MaybeFinish();
      }
    }

    method HandleAccept(meta: Bytes, grant: nat)
      requires sess.Tracks(this)
      modifies this, sess
      ensures Did(S.HandleAccept(old(Value()), old(sess.buffered), meta, grant))
    {
      if |meta| > AppMaxMetaBytes {
        ResetRemote(S.Violation("accept meta too large"));
      } else if grant == 0 || grant > AppMaxCredit {
        ResetRemote(S.Violation("invalid accept grant"));
      } else if hs.opening {
        tx := tx.(sndCredit := grant);
        hs := hs.(opening := false, grant := grant, readyCloses := hs.readyCloses + 1);
      }
    }

    method HandleReject(fault: S.Fault)
      requires sess.Tracks(this)
      modifies this, sess
      ensures Did(S.HandleReject(old(Value()), old(sess.buffered), fault))
    {
      if hs.opening {
        hs := hs.(opening := false, openErr := Some(fault));
        sess.Detach(this);
        hs := hs.(readyCloses := hs.readyCloses + 1);
      }
    }

    method OpenReturn() returns (r: S.Result)
      requires sess.Tracks(this)
      modifies this, sess
      ensures var out := S.OpenReturn(old(Value()), old(sess.buffered), old(sess.closed)); Did(out) && r == out.res
    {
      if !hs.waiting || hs.readyCloses == 0 {
        r := S.Blocked;
      } else {
        hs := hs.(waiting := false);
        if hs.openErr.Some? {
          r := S.Failed(hs.openErr.value);
        } else if life.reset.Some? {
          r := S.Failed(life.reset.value);
        } else {
          writer := !sess.closed;
          MarkOpened();
          handle := true;
          r := S.Opened(id);
        }
      }
    }

    method OpenExpire() returns (r: S.Result)
      requires sess.Tracks(this)
      modifies this, sess
      ensures var out := S.OpenExpire(old(Value()), old(sess.buffered)); Did(out) && r == out.res
    {
      if !hs.waiting {
        r := S.Blocked;
      } else {
        hs := hs.(waiting := false);
        ResetRemote(S.OpenContextDone);
        r := S.Failed(S.OpenContextDone);
      }
    }

    method AcceptFail(fault: S.Fault) returns (r: S.Result)
      requires sess.Tracks(this)
      modifies this, sess
      ensures var out := S.AcceptFail(old(Value()), old(sess.buffered), fault); Did(out) && r == out.res
    {
      if !hs.handling {
        r := S.Blocked;
      } else {
        hs := hs.(handling := false);
        sess.Detach(this);
        sess.SendApp(AppReject(id, fault.code, fault.message));
        r := S.Done;
      }
    }

    /** The stream is ready before the APP_ACCEPT goes out. */
    method Admit(meta: Bytes)
      requires sess.Tracks(this) && hs.handling && |meta| <= AppMaxMetaBytes
      modifies this, sess
      ensures Did(S.AcceptOk(old(Value()), old(sess.buffered), meta, old(sess.closed)))
    {
      hide S.AcceptFail;
      hs := hs.(accepting := false, handling := false);
      tx := tx.(sndCredit := AppInitialWindow);
      rx := rx.(rcvWindow := AppInitialWindow);
      MarkOpened();
      sess.SendApp(AppAccept(id, meta, AppInitialWindow));
      writer, handle := !sess.closed, !sess.closed;
    }

    method AcceptOk(meta: Bytes) returns (r: S.Result)
      requires sess.Tracks(this)
      modifies this, sess
      ensures var out := S.AcceptOk(old(Value()), old(sess.buffered), meta, old(sess.closed)); Did(out) && r == out.res
    {
      if !hs.handling {
        r := S.Blocked;
      } else if |meta| > AppMaxMetaBytes {
        r := AcceptFail(S.Violation("accept meta too large"));
      } else {
        Admit(meta);
        r := S.Done;
      }
    }

    /** An incoming message for this stream. */
    method Receive(m: AppMsg)
      requires sess.Tracks(this)
      modifies this, sess
      ensures Did(S.Receive(old(Value()), old(sess.buffered), m))
    {
      match m
      case AppOpen(_, _, _) =>
      case AppAccept(_, meta, grant) => HandleAccept(meta, grant);
      case AppReject(_, code, message) => HandleReject(S.Fault(code, message));
      case AppData(_, data) => Deliver(data);
      case AppCredit(_, n) => AddCredit(n);
      case AppClose(_) => RemoteClose();
      case AppReset(_, code, message) => RemoteReset(S.Fault(code, message));
    }

    /** A call of the application on this stream, or a step of one of the stream's goroutines. */
    method Act(c: A.Call) returns (r: S.Result)
      requires sess.Tracks(this)
      requires !c.OpenCall? && !c.ConnectionLost? && !c.Incoming?
      modifies this, sess
      ensures var out := A.StreamCall(old(Value()), old(sess.buffered), old(sess.closed), c); Did(out) && r == out.res
    {
      hide S.Write, S.Read, S.CloseWrite, S.ResetRemote, S.WriterTake, S.WriterSend, S.OpenReturn, S.OpenExpire;
      hide S.AcceptOk, S.AcceptFail;
      r := S.Blocked;
      match c
      case OpenReady(_) => r := OpenReturn();
      case OpenTimeout(_) => r := OpenExpire();
      case OpenAborted(_) =>
        if hs.waiting && sess.closed {
          hs := hs.(waiting := false);
          r := S.Closed;
        }
      case WriteCall(_, p) => if handle { r := Write(p); }
      case ReadCall(_, room) => if handle { r := Read(room); }
      case CloseCall(_) => if handle { r := CloseWrite(); }
      case ResetCall(_, fault) =>
        if handle {
          ResetRemote(fault);
          r := S.Failed(fault);
        }
      case LoopTake(_) => r := WriterTake();
      case LoopSend(_) => r := WriterSend();
      case HandlerAccept(_, meta) => r := AcceptOk(meta);
      case HandlerReject(_, fault) => r := AcceptFail(fault);
    }

    method Perform(c: A.Call) returns (r: S.Result)
      requires sess.Valid() && sess.Tracks(this)
      requires !c.OpenCall? && !c.ConnectionLost? && !c.Incoming? && c.id == id
      modifies this, sess
      ensures sess.Valid() && sess.Performed(c) && r == A.Next(old(sess.Model()), c).res
    {
      hide P.SessionInv, A.StreamCall, Did;
      r := Act(c);
      Settle(c);
    }
  }
}
