/** The RPC client's routing (protocol/rpc/client.go): message IDs, the pending table and the read loop. */
module RpcClient {
  import opened AppLimits
  import opened RpcCall
  import F = Frames

  /** IDs in use: all but zero. */
  const IDCount: nat := 0xFFFF_FFFF

  // ---- Message IDs ----

  /** The uint32 counter wraps and skips zero. */
  function Successor(id: nat): nat
    requires id < Uint32Space
  {
    var next := (id + 1) % Uint32Space;
    if next == 0 then 1 else next
  }

  /** The n-th ID allocated. */
  function Nth(n: nat): (id: nat)
    ensures id < Uint32Space
  {
    if n == 0 then 0 else Successor(Nth(n - 1))
  }

  lemma SuccessorIs(id: nat)
    requires id <= IDCount
    ensures Successor(id) == if id < IDCount then id + 1 else 1
  {
  }

  /** The first round counts up from one. */
  lemma {:induction false} FirstRound(n: nat)
    requires n <= IDCount
    ensures Nth(n) == n
  {
    hide Successor;
    if n > 0 {
      FirstRound(n - 1);
      SuccessorIs(n - 1);
    }
  }

  /** Every round of 2^32-1 IDs repeats the one before. */
  lemma {:induction false} NextRound(n: nat)
    requires n > 0
    ensures Nth(n + IDCount) == Nth(n)
  {
    hide Successor;
    if n == 1 {
      FirstRound(1);
      FirstRound(IDCount);
      SuccessorIs(IDCount);
    } else {
      NextRound(n - 1);
      assert n + IDCount - 1 == n - 1 + IDCount;
    }
  }

  /** Any 2^32-1 consecutive IDs are distinct, and none is zero. */
  lemma {:induction false} IDsDistinct(i: nat, j: nat)
    requires 0 < i < j && j - i < IDCount
    ensures Nth(i) != Nth(j) && Nth(i) != 0 && Nth(j) != 0
  {
    hide Nth;
    if i <= IDCount {
      FirstRound(i);
    }
    if j <= IDCount {
      FirstRound(j);
    } else {
      NextRound(j - IDCount);
      if i <= IDCount {
        FirstRound(j - IDCount);
      } else {
        NextRound(i - IDCount);
        IDsDistinct(i - IDCount, j - IDCount);
      }
    }
  }

  /** Two allocations share an ID exactly if a multiple of 2^32-1 allocations separates them. */
  lemma {:induction false} SameIDIff(i: nat, j: nat)
    requires 0 < i <= j
    ensures Nth(i) == Nth(j) <==> (j - i) % IDCount == 0
    decreases j
  {
    hide Nth;
    if j - i >= IDCount {
      NextRound(j - IDCount);
      SameIDIff(i, j - IDCount);
    } else if i < j {
      IDsDistinct(i, j);
    }
  }

  /** Two allocations fewer than 2^32-1 apart. */
  predicate Near(i: nat, j: nat) {
    i != j && i - j < IDCount && j - i < IDCount
  }

  // ---- Routing ----

  predicate IsResponse(f: F.Frame) {
    f.flags % 2 == 1
  }

  function AsStream(f: F.Frame): StreamFrame {
    StreamFrame(f.typ, f.body, !IsResponse(f))
  }

  /** The frames with this ID, up to and including the first response. */
  function Addressed(fs: seq<F.Frame>, id: nat): seq<StreamFrame> {
    if fs == [] then []
    else if fs[0].msgID != id then Addressed(fs[1..], id)
    else if IsResponse(fs[0]) then [AsStream(fs[0])]
    else [AsStream(fs[0])] + Addressed(fs[1..], id)
  }

  lemma {:induction false} AddressedNext(fs: seq<F.Frame>, f: F.Frame, id: nat)
    ensures Addressed(fs + [f], id) ==
            Addressed(fs, id) + if f.msgID == id && !Final(Addressed(fs, id)) then [AsStream(f)] else []
    ensures OneFinal(Addressed(fs, id))
  {
    if fs == [] {
      assert fs + [f] == [f] && [f][1..] == [];
    } else {
      assert (fs + [f])[1..] == fs[1..] + [f];
      AddressedNext(fs[1..], f, id);
    }
  }

  /** The consumer's frame has the type and body of the frame read, and is final exactly if that is a response. */
  predicate Same(sf: StreamFrame, f: F.Frame) {
    sf.typ == f.typ && sf.body == f.body && (sf.more <==> f.flags % 2 == 0)
  }

  /** No response with this ID stands before position k. */
  predicate Awaited(fs: seq<F.Frame>, id: nat, k: nat)
    requires k <= |fs|
  {
    forall j :: 0 <= j < k ==> !(fs[j].msgID == id && fs[j].flags % 2 == 1)
  }

  /** `at` lists, in order, exactly the positions of the frames with this ID up to the first response. */
  predicate Positions(fs: seq<F.Frame>, id: nat, at: seq<nat>) {
    && (forall i, j :: 0 <= i < j < |at| ==> at[i] < at[j])
    && (forall i :: 0 <= i < |at| ==> at[i] < |fs| && fs[at[i]].msgID == id && Awaited(fs, id, at[i]))
    && (forall k :: 0 <= k < |fs| && fs[k].msgID == id && Awaited(fs, id, k) ==> k in at)
  }

  /** The frames are those at these positions. */
  predicate Copied(sfs: seq<StreamFrame>, fs: seq<F.Frame>, at: seq<nat>) {
    |sfs| == |at| && forall i :: 0 <= i < |at| ==> at[i] < |fs| && Same(sfs[i], fs[at[i]])
  }

  /** One more frame leaves what stands before it. */
  lemma AwaitedBefore(fs: seq<F.Frame>, f: F.Frame, id: nat, k: nat)
    requires k <= |fs|
    ensures Awaited(fs + [f], id, k) <==> Awaited(fs, id, k)
  {
    assert forall j :: 0 <= j < k ==> (fs + [f])[j] == fs[j];
  }

  lemma PositionsNext(fs: seq<F.Frame>, f: F.Frame, id: nat, at: seq<nat>)
    requires Positions(fs, id, at)
    ensures Positions(fs + [f], id, at + if f.msgID == id && Awaited(fs, id, |fs|) then [|fs|] else [])
  {
    hide Awaited;
    var all := fs + [f];
    var at' := at + if f.msgID == id && Awaited(fs, id, |fs|) then [|fs|] else [];
    AwaitedBefore(fs, f, id, |fs|);
    forall i | 0 <= i < |at'| ensures at'[i] < |all| && all[at'[i]].msgID == id && Awaited(all, id, at'[i]) {
      if i < |at| {
        AwaitedBefore(fs, f, id, at[i]);
      }
    }
    forall k | 0 <= k < |all| && all[k].msgID == id && Awaited(all, id, k) ensures k in at' {
      if k < |fs| {
        AwaitedBefore(fs, f, id, k);
      } else {
        assert at'[|at|] == k;
      }
    }
  }

  lemma AwaitedNext(fs: seq<F.Frame>, f: F.Frame, id: nat)
    ensures Awaited(fs + [f], id, |fs| + 1) <==> Awaited(fs, id, |fs|) && !(f.msgID == id && f.flags % 2 == 1)
  {
    AwaitedBefore(fs, f, id, |fs|);
    assert (fs + [f])[|fs|] == f;
  }

  lemma CopiedNext(sfs: seq<StreamFrame>, fs: seq<F.Frame>, f: F.Frame, at: seq<nat>)
    requires Copied(sfs, fs, at)
    ensures Copied(sfs, fs + [f], at) && Copied(sfs + [AsStream(f)], fs + [f], at + [|fs|])
  {
  }

  lemma FinalNext(sfs: seq<StreamFrame>, f: F.Frame)
    ensures Final(sfs + [AsStream(f)]) <==> f.flags % 2 == 1
  {
  }

  lemma AddressedStep(fs: seq<F.Frame>, f: F.Frame, id: nat, at: seq<nat>) returns (at': seq<nat>)
    requires Positions(fs, id, at) && Copied(Addressed(fs, id), fs, at)
    requires Final(Addressed(fs, id)) <==> !Awaited(fs, id, |fs|)
    ensures Positions(fs + [f], id, at') && Copied(Addressed(fs + [f], id), fs + [f], at')
    ensures Final(Addressed(fs + [f], id)) <==> !Awaited(fs + [f], id, |fs| + 1)
  {
    hide Positions, Copied, Awaited, Addressed, AsStream, Final;
    AddressedNext(fs, f, id);
    PositionsNext(fs, f, id, at);
    AwaitedNext(fs, f, id);
    CopiedNext(Addressed(fs, id), fs, f, at);
    FinalNext(Addressed(fs, id), f);
    assert at + [] == at && Addressed(fs, id) + [] == Addressed(fs, id);
    at' := at + if f.msgID == id && Awaited(fs, id, |fs|) then [|fs|] else [];
  }

  /** What is addressed to a call, in terms of the frames read alone. */
  lemma {:induction false} AddressedFrames(fs: seq<F.Frame>, id: nat) returns (at: seq<nat>)
    ensures Positions(fs, id, at) && Copied(Addressed(fs, id), fs, at)
    ensures Final(Addressed(fs, id)) <==> !Awaited(fs, id, |fs|)
  {
    if fs == [] {
      at := [];
    } else {
      hide Positions, Copied, Awaited, Addressed, Final;
      var init, f := fs[..|fs| - 1], fs[|fs| - 1];
      at := AddressedFrames(init, id);
      at := AddressedStep(init, f, id, at);
      assert fs == init + [f];
    }
  }

  lemma RoutedNext(log: seq<F.Frame>, f: F.Frame, since: nat, id: nat)
    requires since <= |log|
    ensures var was := Addressed(log[since..], id);
            Addressed((log + [f])[since..], id) == was + if f.msgID == id && !Final(was) then [AsStream(f)] else []
  {
    assert (log + [f])[since..] == log[since..] + [f];
    AddressedNext(log[since..], f, id);
  }

  class Client {
    var msgID: nat
    var pending: map<nat, PendingCall>
    var closed: bool
    /** How many IDs have been allocated, every call registered, and every frame the read loop has routed or ignored. */
    ghost var issued: nat
    ghost var calls: set<PendingCall>
    ghost var log: seq<F.Frame>

    constructor ()
      ensures Valid() && !closed && pending == map[] && calls == {} && log == []
    {
      msgID, pending, closed, issued, calls, log := 0, map[], false, 0, {}, [];
    }

    /**
     A call that has not been abandoned has been routed exactly the frames read with its
     ID since it was registered, and stays in the table until its final frame.
     */
    ghost predicate CallOk(p: PendingCall)
      reads this, p
    {
      && p.Valid() && p.since <= |log| && 0 < p.ticket <= issued && p.id == Nth(p.ticket)
      && (!p.done ==> p.routed == Addressed(log[p.since..], p.id))
      && (!p.done && !Final(p.routed) ==> p.id in pending && pending[p.id] == p)
    }

    ghost predicate Valid()
      reads this, calls
    {
      && msgID == Nth(issued)
      && (forall id :: id in pending ==> pending[id] in calls && pending[id].id == id && !Final(pending[id].routed))
      && forall p :: p in calls ==> CallOk(p)
    }

    /** Seen by the consumer of a call that has not been abandoned: nothing lost, nothing reordered, nothing foreign. */
    lemma Routing(p: PendingCall) returns (at: seq<nat>)
      requires Valid() && p in calls && !p.done
      ensures p.taken + p.out + OptSeq(p.held) + p.inbox == Addressed(log[p.since..], p.id)
      ensures Positions(log[p.since..], p.id, at)
      ensures Copied(p.taken + p.out + OptSeq(p.held) + p.inbox, log[p.since..], at)
      ensures p.outClosed <==> Final(p.taken + p.out)
    {
      hide Positions, Copied, Addressed;
      assert CallOk(p);
      at := AddressedFrames(log[p.since..], p.id);
    }

    method AllocMsgID() returns (id: nat)
      requires Valid()
      modifies this`msgID, this`issued
      ensures Valid() && issued == old(issued) + 1 && id == msgID == Nth(issued) != 0
    {
      msgID := (msgID + 1) % Uint32Space;
      if msgID == 0 {
        msgID := 1;
      }
      issued := issued + 1;
      id := msgID;
    }

    /** The ID is not shared while fewer than 2^32-1 IDs separate the calls in the table. */
    lemma FreshID(ticket: nat)
      requires Valid() && 0 < ticket <= issued
      requires forall id :: id in pending ==>
                 Near(pending[id].ticket, ticket)
      ensures Nth(ticket) !in pending
    {
      if Nth(ticket) in pending {
        var t := pending[Nth(ticket)].ticket;
        assert CallOk(pending[Nth(ticket)]);
        if t < ticket {
          IDsDistinct(t, ticket);
        } else {
          IDsDistinct(ticket, t);
        }
      }
    }

    /** The call that would be replaced in the table. */
    ghost function Displaced(id: nat): set<PendingCall>
      reads this`pending
    {
      if id in pending then {pending[id]} else {}
    }

    /**
     A call that still has the ID, 2^32-1 allocations later or a multiple of that, is replaced in the
     table and will not be routed any further.
     */
    method AddPending(id: nat, ghost ticket: nat) returns (p: PendingCall)
      requires Valid() && 0 < ticket <= issued && id == Nth(ticket)
      modifies this`pending, this`calls
      ensures Valid() && fresh(p) && p.id == id && p.since == |log| && !p.done && pending == old(pending)[id := p]
      ensures calls == old(calls) - old(Displaced(id)) + {p}
      ensures (forall i :: i in old(pending) ==> Near(old(pending)[i].ticket, ticket)) ==> old(Displaced(id)) == {}
    {
      hide Nth, PendingCall.Valid;
      if forall i :: i in pending ==> Near(pending[i].ticket, ticket) {
        FreshID(ticket);
      }
      p := new PendingCall(id, ticket, |log|);
      Insert(p);
    }

    method Insert(p: PendingCall)
      requires Valid() && p !in calls && p.Valid() && !p.done && p.routed == []
      requires p.since == |log| && 0 < p.ticket <= issued && p.id == Nth(p.ticket)
      modifies this`pending, this`calls
      ensures Valid() && pending == old(pending)[p.id := p] && calls == old(calls) - old(Displaced(p.id)) + {p}
    {
      hide Nth, PendingCall.Valid;
      assert log[|log|..] == [];
      calls := calls - Displaced(p.id) + {p};
      pending := pending[p.id := p];
      forall q | q in calls ensures CallOk(q) {
        assert q != p ==> old(CallOk(q));
      }
    }

    /** The call is abandoned: its forwarder will stop and no further frame is routed to it. */
    method Abandon(p: PendingCall)
      requires Valid() && p in calls && (p.id in pending ==> pending[p.id] == p)
      modifies this`pending, p
      ensures Valid() && p.done && pending == old(pending) - {p.id}
      ensures p.routed == old(p.routed) && p.taken == old(p.taken)
    {
      assert CallOk(p);
      p.Finish();
      pending := pending - {p.id};
      forall q | q in calls ensures CallOk(q) {
        assert old(CallOk(q));
      }
    }

    /** One frame of the read loop. It waits with the frame while the inbox of the call is full. */
    method Route(f: F.Frame, pick: bool) returns (m: Move)
      requires Valid() && !closed
      modifies this`pending, this`log, pending.Values
      ensures Valid()
      ensures m == Waits <==> f.msgID in old(pending) && !old(pending[f.msgID].done)
                              && |old(pending[f.msgID].inbox)| == ChannelSize
      ensures m == Waits ==> log == old(log) && pending == old(pending)
      ensures m != Waits ==> log == old(log) + [f]
      ensures m != Waits ==> pending == if IsResponse(f) then old(pending) - {f.msgID} else old(pending)
      ensures forall id :: id in old(pending) && id != f.msgID ==> unchanged(old(pending)[id])
    {
      hide PendingCall.Valid, Addressed, Nth;
      m := Done;
      if f.msgID in pending {
        assert CallOk(pending[f.msgID]);
        m := pending[f.msgID].Send(AsStream(f), pick);
        if m == Waits {
          return;
        }
        if IsResponse(f) {
          pending := pending - {f.msgID};
        }
      }
      log := log + [f];
      forall q | q in calls ensures CallOk(q) {
        assert old(CallOk(q));
        RoutedNext(old(log), f, q.since, q.id);
      }
    }

    /** A step of a forwarder or a consumer, or the end of a call, keeps the routing of every call. */
    twostate lemma StepKeeps(p: PendingCall)
      requires old(Valid()) && p in old(calls) && unchanged(this)
      requires p.Valid() && p.routed == old(p.routed) && (old(p.done) ==> p.done)
      requires forall q :: q in old(calls) && q != p ==> unchanged(q)
      ensures Valid()
    {
      hide PendingCall.Valid, Addressed, Nth;
      forall q | q in calls ensures CallOk(q) {
        assert old(CallOk(q));
      }
    }

    method ForwardTake(p: PendingCall, pick: bool) returns (m: Move)
      requires Valid() && p in calls && p.held.None? && !p.outClosed
      modifies p
      ensures Valid() && p.routed == old(p.routed) && p.taken == old(p.taken) && p.out == old(p.out)
      ensures OptSeq(p.held) + p.inbox == old(p.inbox) && (p.held.Some? <==> m == Done)
      ensures m == (if old(p.inbox) != [] && (!p.done || pick) then Done else if p.done then Ended else Waits)
    {
      hide Addressed, Nth;
      assert CallOk(p);
      m := p.ForwardTake(pick);
      StepKeeps(p);
    }

    method ForwardPut(p: PendingCall, pick: bool) returns (m: Move)
      requires Valid() && p in calls && p.held.Some?
      modifies p
      ensures Valid() && p.routed == old(p.routed) && p.taken == old(p.taken) && p.inbox == old(p.inbox)
      ensures p.out == old(p.out) + (if m == Done then [old(p.held).value] else [])
      ensures m == if |old(p.out)| < ChannelSize && (!p.done || pick) then Done else if p.done then Dropped else Waits
      ensures m == Waits ==> p.held == old(p.held)
    {
      hide Addressed, Nth;
      assert CallOk(p);
      m := p.ForwardPut(pick);
      StepKeeps(p);
    }

    /**
     The consumer quits if its context or the client ends first. At the end of a call that was not
     abandoned it has exactly the frames addressed to it.
     */
    method Receive(p: PendingCall, cancelled: bool, pick: bool) returns (m: Move)
      requires Valid() && p in calls
      modifies p
      ensures m == Quit <==> (cancelled || closed) && (pick || (old(p.out) == [] && !p.outClosed))
      ensures Valid() && p.taken == old(p.taken) + (if m.Got? then [m.frame] else [])
      ensures m != Quit ==> (m.Got? <==> old(p.out) != [])
      ensures (m == Waits ==> !p.outClosed) && (m == Ended ==> p.outClosed)
      ensures old(p.out) == (if m.Got? then [m.frame] else []) + p.out && (m == Waits || m == Ended ==> p.out == [])
      ensures m == Quit || m.Got? || m == Waits || m == Ended
      ensures m == Ended && !p.done ==> p.taken == Addressed(log[p.since..], p.id) && Final(p.taken)
    {
      hide Addressed, Nth;
      assert CallOk(p);
      if (cancelled || closed) && (pick || (p.out == [] && !p.outClosed)) {
        m := Quit;
      } else {
        m := p.Take();
        StepKeeps(p);
        assert CallOk(p);
      }
    }

    /** Every call still in the table is abandoned. */
    method Shutdown()
      requires Valid()
      modifies this`closed, this`pending, pending.Values
      ensures Valid() && closed && (!old(closed) ==> pending == map[])
      ensures !old(closed) ==> forall id :: id in old(pending) ==> old(pending)[id].done
      ensures forall p :: p in calls ==> p.routed == old(p.routed) && p.taken == old(p.taken)
    {
      hide PendingCall.Valid, Addressed, Nth;
      if closed {
        return;
      }
      closed := true;
      FinishAll();
      ghost var table := pending;
      pending := map[];
      forall q | q in calls ensures CallOk(q) {
        assert q.id in table && table[q.id] == q ==> q.done;
      }
    }

    /** The loop over the table. */
    method FinishAll()
      requires Valid()
      modifies pending.Values
      ensures Valid() && forall id :: id in pending ==> pending[id].done
      ensures forall p :: p in calls ==> p.routed == old(p.routed) && p.taken == old(p.taken)
    {
      hide PendingCall.Valid, CallOk;
      var rest := pending.Keys;
      while rest != {}
        invariant rest <= pending.Keys && Valid()
        invariant forall id :: id in pending && id !in rest ==> pending[id].done
        invariant forall p :: p in calls ==> p.routed == old(p.routed) && p.taken == old(p.taken)
      {
        var id :| id in rest;
        rest := rest - {id};
        label Before:
        Sound(pending[id]);
        pending[id].Finish();
        StepKeeps@Before(pending[id]);
      }
    }

    lemma Sound(p: PendingCall)
      requires Valid() && p in calls
      ensures p.Valid()
    {
      assert CallOk(p);
    }
  }
}
