/** What one session keeps whatever its peer sends and its application calls. */
module AppSessionProofs {
  import opened Basics
  import opened AppLimits
  import opened AppMessages
  import opened AppStream
  import opened AppStreamProofs
  import opened AppSession

  /** The bytes each stream accounts for. */
  function Loads(streams: map<nat, Stream>): map<nat, int> {
    map id | id in streams :: Weight(streams[id])
  }

  predicate StreamOk(s: Session, id: nat)
    requires id in s.streams
  {
    var st := s.streams[id];
    && Sane(st) && st.id == id
    && (st.inbound <==> GuestID(id) != s.guest)
    && (s.closed ==> !st.attached)
  }

  /** Local IDs are exactly the ones the allocator has given out. */
  predicate Allocated(s: Session) {
    && s.nextID <= MaxLocalStreamID
    && (forall id :: id in s.streams && GuestID(id) == s.guest ==>
          LocalBit(s.guest) < id <= LocalBit(s.guest) + s.nextID)
    && (forall id :: LocalBit(s.guest) < id <= LocalBit(s.guest) + s.nextID ==> id in s.streams)
  }

  /**
   The ledger is the sum it stands for and stays under its cap, the table is bounded
   and empty once the session has failed, and every stream is sane.
   */
  ghost predicate SessionInv(s: Session) {
    && (forall id :: id in s.streams ==> StreamOk(s, id))
    && s.buffered == Total(Loads(s.streams)) <= AppMaxBuffered
    && |Table(s)| <= AppMaxStreams
    && Allocated(s)
  }

  lemma NewSessionInv(guest: bool)
    ensures SessionInv(NewSession(guest))
  {
    assert Loads(map[]) == map[];
    assert Table(NewSession(guest)) == {};
  }

  lemma SetBound(a: set<nat>, b: set<nat>)
    requires a <= b
    ensures |a| <= |b|
    decreases |a|
  {
    if a != {} {
      var x :| x in a;
      SetBound(a - {x}, b - {x});
    }
  }

  lemma TableShrinks(s: Session, s': Session, id: nat)
    requires id in s.streams && id in s'.streams && s'.streams == s.streams[id := s'.streams[id]]
    requires s'.streams[id].attached ==> s.streams[id].attached
    ensures |Table(s')| <= |Table(s)|
  {
    assert Table(s') <= Table(s);
    SetBound(Table(s'), Table(s));
  }

  lemma TableGrows(s: Session, s': Session, id: nat)
    requires id !in Table(s) && id in s'.streams && s'.streams == s.streams[id := s'.streams[id]]
    ensures |Table(s')| <= |Table(s)| + 1
  {
    assert Table(s') <= Table(s) + {id};
    SetBound(Table(s'), Table(s) + {id});
  }

  /** A stream of the session is ready for any operation: the ledger covers it. */
  lemma StreamReady(s: Session, id: nat)
    requires SessionInv(s) && id in s.streams
    ensures Ready(s.streams[id], s.buffered)
  {
    assert StreamOk(s, id);
    forall j | j in Loads(s.streams) ensures Loads(s.streams)[j] >= 0 {
      assert StreamOk(s, j);
    }
    TotalMember(Loads(s.streams), id);
  }

  /** Replacing one stream by an outcome that keeps it keeps the session. */
  lemma OnStreamInv(s: Session, id: nat, out: Out)
    requires SessionInv(s) && id in s.streams && Keeps(s.streams[id], s.buffered, out)
    ensures SessionInv(OnStream(s, id, out).s)
  {
    hide Sane, GuestID, Table;
    var s' := OnStream(s, id, out).s;
    assert StreamOk(s, id);
    assert Loads(s'.streams) == Loads(s.streams)[id := Weight(out.st)];
    TotalUpdate(Loads(s.streams), id, Weight(out.st));
    TableShrinks(s, s', id);
    forall j | j in s'.streams ensures StreamOk(s', j) {
      if j != id {
        assert StreamOk(s, j);
      }
    }
  }

  lemma StreamCallKeeps(s: Session, c: Call)
    requires SessionInv(s)
    requires !c.OpenCall? && !c.ConnectionLost? && !c.Incoming? && c.id in s.streams
    ensures Keeps(s.streams[c.id], s.buffered, StreamCall(s.streams[c.id], s.buffered, s.closed, c))
  {
    hide Keeps, Ready;
    var st := s.streams[c.id];
    assert StreamOk(s, c.id);
    StreamReady(s, c.id);
    IdleKeeps(st, s.buffered, Blocked);
    match c
    case OpenReady(_) => OpenReturnKeeps(st, s.buffered, s.closed);
    case OpenTimeout(_) => OpenExpireKeeps(st, s.buffered);
    case OpenAborted(_) => OpenAbortedKeeps(st, s.buffered, s.closed);
    case WriteCall(_, p) => if st.handle { WriteKeeps(st, s.buffered, p); }
    case ReadCall(_, room) => if st.handle { ReadKeeps(st, s.buffered, room); }
    case CloseCall(_) => if st.handle { CloseWriteKeeps(st, s.buffered); }
    case ResetCall(_, fault) => if st.handle { ResetRemoteKeeps(st, s.buffered, fault); }
    case LoopTake(_) => WriterTakeKeeps(st, s.buffered);
    case LoopSend(_) => if s.closed { LoopDropKeeps(st, s.buffered); } else { WriterSendKeeps(st, s.buffered); }
    case HandlerAccept(_, meta) => AcceptOkKeeps(st, s.buffered, meta, s.closed);
    case HandlerReject(_, fault) => AcceptFailKeeps(st, s.buffered, fault);
  }

  lemma OpenAbortedKeeps(st: Stream, buffered: int, closed: bool)
    requires Ready(st, buffered) && (closed ==> !st.attached)
    ensures Keeps(st, buffered, StreamCall(st, buffered, closed, OpenAborted(st.id)))
  {
  }

  lemma LoopDropKeeps(st: Stream, buffered: int)
    requires Ready(st, buffered) && !st.attached
    ensures Keeps(st, buffered, StreamCall(st, buffered, true, LoopSend(st.id)))
  {
  }

  lemma GoneWeighsNothing(st: Stream)
    requires Sane(st) && !st.attached
    ensures Weight(st) == 0
  {
  }

  lemma AddedLoads(streams: map<nat, Stream>, id: nat, inbound: bool)
    requires id in streams ==> Weight(streams[id]) == 0
    ensures Total(Loads(streams[id := NewStream(id, inbound)])) == Total(Loads(streams))
  {
    assert Loads(streams[id := NewStream(id, inbound)]) == Loads(streams)[id := 0];
    TotalUpdate(Loads(streams), id, 0);
  }

  /** A new stream enters the table. */
  lemma AddedInv(s: Session, id: nat, inbound: bool, nextID: nat)
    requires SessionInv(s) && !s.closed && id !in Table(s) && |Table(s)| < AppMaxStreams
    requires id in s.streams ==> !s.streams[id].attached
    requires inbound <==> GuestID(id) != s.guest
    requires if inbound then nextID == s.nextID
             else s.nextID < MaxLocalStreamID && nextID == s.nextID + 1 && id == LocalBit(s.guest) + nextID
    ensures SessionInv(s.(nextID := nextID, streams := s.streams[id := NewStream(id, inbound)]))
  {
    hide Sane, GuestID, Loads, NewStream, Table;
    var s' := s.(nextID := nextID, streams := s.streams[id := NewStream(id, inbound)]);
    NewStreamSane(id, inbound);
    if id in s.streams {
      assert StreamOk(s, id);
      GoneWeighsNothing(s.streams[id]);
    }
    AddedLoads(s.streams, id, inbound);
    TableGrows(s, s', id);
    forall j | j in s'.streams ensures StreamOk(s', j) {
      assert j != id ==> StreamOk(s, j);
    }
  }

  lemma LostSane(st: Stream)
    requires Sane(st)
    ensures Sane(Lost(st)) && Evolves(st, Lost(st)) && !Lost(st).attached && Weight(Lost(st)) == 0
    ensures st.attached ==> Lost(st).life.reset == Some(ConnectionClosed)
  {
  }

  /** Emptying the table first makes no difference to a stream that is then reset. */
  lemma LostDetached(st: Stream)
    requires Sane(st) && st.attached
    ensures RemoteReset(st.(attached := false), 0, ConnectionClosed) == Out(Lost(st), 0, [], Done)
  {
  }

  lemma FailInv(s: Session)
    requires SessionInv(s)
    ensures SessionInv(Fail(s))
    ensures Table(Fail(s)) == {}
  {
    var s' := Fail(s);
    forall j | j in s'.streams ensures StreamOk(s', j) && Weight(s'.streams[j]) == 0 {
      assert StreamOk(s, j);
      LostSane(s.streams[j]);
    }
    TotalZero(Loads(s'.streams));
    assert Table(s') == {};
  }

  lemma LocalIDs(guest: bool, n: nat)
    requires 1 <= n <= MaxLocalStreamID
    ensures GuestID(LocalBit(guest) + n) == guest
  {
  }

  /** For every call, goroutine step and incoming message. */
  lemma NextInv(s: Session, c: Call)
    requires SessionInv(s)
    ensures SessionInv(Next(s, c).s)
  {
    hide SessionInv;
    match c
    case OpenCall(service, meta) =>
      if Next(s, c).sent != [] {
        OpenFresh(s);
        AddedInv(s, LocalBit(s.guest) + s.nextID + 1, false, s.nextID + 1);
      }
    case ConnectionLost => FailInv(s);
    case Incoming(m) => HandleMessageInv(s, m);
    case _ =>
      if c.id in s.streams {
        StreamCallKeeps(s, c);
        OnStreamInv(s, c.id, StreamCall(s.streams[c.id], s.buffered, s.closed, c));
      }
  }

  /** The next local ID carries the local bit and has never been used. */
  lemma OpenFresh(s: Session)
    requires SessionInv(s) && s.nextID < MaxLocalStreamID
    ensures var id := LocalBit(s.guest) + s.nextID + 1;
            id !in s.streams && 0 < id < Uint32Space && GuestID(id) == s.guest
  {
    LocalIDs(s.guest, s.nextID + 1);
  }

  lemma HandleMessageInv(s: Session, m: AppMsg)
    requires SessionInv(s)
    ensures SessionInv(HandleMessage(s, m).s)
  {
    if !s.closed {
      if !Fits(m) {
        FailInv(s);
      } else if m.AppOpen? {
        if HandleMessage(s, m).sent == [] {
          AddedInv(s, m.streamID, true, s.nextID);
        }
      } else if m.streamID in Table(s) {
        StreamReady(s, m.streamID);
        ReceiveKeeps(s.streams[m.streamID], s.buffered, m);
        OnStreamInv(s, m.streamID, Receive(s.streams[m.streamID], s.buffered, m));
      }
    }
  }

  // ---- Runs of one session against an arbitrary peer ----

  function After(s: Session, cs: seq<Call>): Session
    decreases |cs|
  {
    if cs == [] then s else After(Next(s, cs[0]).s, cs[1..])
  }

  lemma {:induction false} AfterInv(s: Session, cs: seq<Call>)
    requires SessionInv(s)
    ensures SessionInv(After(s, cs))
    decreases |cs|
  {
    if cs != [] {
      NextInv(s, cs[0]);
      AfterInv(Next(s, cs[0]).s, cs[1..]);
    }
  }

  function QueuedBytes(st: Stream): int {
    if st.attached then |Flat(st.tx.sendQ)| + |Flat(st.rx.inQ)| else 0
  }

  predicate WithinLimits(st: Stream) {
    && 0 <= st.tx.sndCredit <= AppMaxCredit
    && (st.attached ==> |Flat(st.tx.sendQ)| <= AppMaxSendQueue)
    && (st.attached && !st.hs.accepting ==> st.rx.rcvWindow + |Flat(st.rx.inQ)| == AppInitialWindow)
  }

  lemma SaneWithinLimits(st: Stream)
    requires Sane(st)
    ensures WithinLimits(st) && Weight(st) == QueuedBytes(st)
  {
  }

  lemma LedgerIsQueues(s: Session)
    requires SessionInv(s)
    ensures s.buffered == Total(map id | id in s.streams :: QueuedBytes(s.streams[id]))
    ensures forall id :: id in s.streams ==> WithinLimits(s.streams[id])
    ensures s.closed ==> Table(s) == {}
  {
    hide Sane, WithinLimits;
    forall id | id in s.streams
      ensures WithinLimits(s.streams[id]) && Weight(s.streams[id]) == QueuedBytes(s.streams[id])
    {
      assert StreamOk(s, id);
      SaneWithinLimits(s.streams[id]);
    }
    forall id | id in s.streams && s.closed ensures !s.streams[id].attached {
      assert StreamOk(s, id);
    }
    assert Loads(s.streams) == map id | id in s.streams :: QueuedBytes(s.streams[id]);
  }

  /**
   Whatever a peer sends and in whatever order the application calls, every reachable
   state of a session respects all its limits, and its ledger is exactly the bytes its
   queues hold.
   */
  lemma ArbitraryPeer(guest: bool, cs: seq<Call>)
    ensures var s := After(NewSession(guest), cs);
            && s.buffered == Total(map id | id in s.streams :: QueuedBytes(s.streams[id])) <= AppMaxBuffered
            && |Table(s)| <= AppMaxStreams
            && (s.closed ==> Table(s) == {})
            && forall id :: id in s.streams ==> WithinLimits(s.streams[id])
  {
    hide WithinLimits;
    NewSessionInv(guest);
    AfterInv(NewSession(guest), cs);
    LedgerIsQueues(After(NewSession(guest), cs));
  }
}
