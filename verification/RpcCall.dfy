/**
 One pending call of the RPC client (protocol/rpc/client.go): the read loop fills a
 bounded inbox, a forwarder moves frames to a bounded out channel, a consumer takes
 them. A `pick` parameter is the choice Go's select makes when both cases are ready.
 */
module RpcCall {
  import opened Basics

  const ChannelSize: nat := 16

  datatype StreamFrame = StreamFrame(typ: byte, body: Bytes, more: bool)

  datatype Move = Done | Waits | Dropped | Got(frame: StreamFrame) | Ended | Quit

  /** The final frame has been received. */
  predicate Final(fs: seq<StreamFrame>) {
    fs != [] && !fs[|fs| - 1].more
  }

  /** No frame before the last one is final. */
  predicate OneFinal(fs: seq<StreamFrame>) {
    forall i :: 0 <= i < |fs| - 1 ==> fs[i].more
  }

  /** a with some of its frames left out, in order. */
  predicate Within(part: seq<StreamFrame>, a: seq<StreamFrame>) {
    part == [] || (a != [] && (Within(part, a[..|a| - 1])
                               || (part[|part| - 1] == a[|a| - 1] && Within(part[..|part| - 1], a[..|a| - 1]))))
  }

  lemma {:induction false} WithinSelf(a: seq<StreamFrame>)
    ensures Within(a, a)
  {
    if a != [] {
      WithinSelf(a[..|a| - 1]);
    }
  }

  lemma WithinExtend(part: seq<StreamFrame>, a: seq<StreamFrame>, f: StreamFrame)
    requires Within(part, a)
    ensures Within(part, a + [f]) && Within(part + [f], a + [f])
  {
    assert (a + [f])[..|a|] == a && (part + [f])[..|part|] == part;
  }

  /** Losing a frame from anywhere leaves the rest in order. */
  lemma {:induction false} WithinDrop(front: seq<StreamFrame>, f: StreamFrame, back: seq<StreamFrame>,
                                      a: seq<StreamFrame>)
    requires Within(front + [f] + back, a)
    ensures Within(front + back, a)
    decreases |a|
  {
    var part, less := front + [f] + back, front + back;
    if less != [] {
      var a' := a[..|a| - 1];
      if Within(part, a') {
        WithinDrop(front, f, back, a');
      } else if back == [] {
        assert part[..|part| - 1] == less;
      } else {
        var back' := back[..|back| - 1];
        assert part[..|part| - 1] == front + [f] + back';
        WithinDrop(front, f, back', a');
        assert less[..|less| - 1] == front + back';
      }
    }
  }

  function OptSeq(o: Option<StreamFrame>): seq<StreamFrame> {
    if o.None? then [] else [o.value]
  }

  class PendingCall {
    const id: nat
    var inbox: seq<StreamFrame>
    var out: seq<StreamFrame>
    var held: Option<StreamFrame>
    var outClosed: bool
    var done: bool
    /** The number of this call's ID in the order of allocation, and of the frames read before it was registered. */
    ghost const ticket: nat
    ghost const since: nat
    /** Every frame the read loop has routed here, and every frame the consumer has taken. */
    ghost var routed: seq<StreamFrame>
    ghost var taken: seq<StreamFrame>

    constructor (id: nat, ghost ticket: nat, ghost since: nat)
      ensures Valid() && this.id == id && this.ticket == ticket && this.since == since
      ensures routed == [] && taken == [] && !done
    {
      this.id, this.ticket, this.since := id, ticket, since;
      inbox, out, held, outClosed, done, routed, taken := [], [], None, false, false, [], [];
    }

    ghost function Delivered(): seq<StreamFrame>
      reads this
    {
      taken + out
    }

    ghost function Passing(): seq<StreamFrame>
      reads this
    {
      Delivered() + OptSeq(held) + inbox
    }

    /**
     While the call is not abandoned nothing is lost, and out closes right after the
     final frame. An abandoned call loses frames but never reorders them.
     */
    ghost predicate Valid()
      reads this
    {
      && |inbox| <= ChannelSize && |out| <= ChannelSize
      && OneFinal(routed) && Within(Passing(), routed)
      && (outClosed ==> held.None?)
      && (!done ==> Passing() == routed && (outClosed <==> Final(Delivered())))
    }

    /** The read loop offers a frame; it waits while the inbox is full. */
    method Send(f: StreamFrame, pick: bool) returns (m: Move)
      requires Valid() && !Final(routed)
      modifies this`inbox, this`routed
      ensures Valid()
      ensures if |old(inbox)| < ChannelSize && (!done || pick) then
                m == Done && inbox == old(inbox) + [f] && routed == old(routed) + [f]
              else if done then
                m == Dropped && inbox == old(inbox) && routed == old(routed) + [f]
              else
                m == Waits && inbox == old(inbox) && routed == old(routed)
    {
      WithinExtend(Passing(), routed, f);
      ghost var before := Passing();
      if |inbox| < ChannelSize && (!done || pick) {
        inbox := inbox + [f];
        routed := routed + [f];
        assert Passing() == before + [f];
        m := Done;
      } else if done {
        routed := routed + [f];
        m := Dropped;
      } else {
        m := Waits;
      }
    }

    /** The forwarder takes a frame from the inbox. */
    method ForwardTake(pick: bool) returns (m: Move)
      requires Valid() && held.None? && !outClosed
      modifies this`held, this`inbox, this`outClosed
      ensures Valid()
      ensures if old(inbox) != [] && (!done || pick) then
                m == Done && OptSeq(held) + inbox == old(inbox) && held.Some? && !outClosed
              else
                m == (if done then Ended else Waits) && inbox == old(inbox) && held.None? && outClosed == done
    {
      ghost var before := Passing();
      if inbox != [] && (!done || pick) {
        held := Some(inbox[0]);
        inbox := inbox[1..];
        assert Passing() == before;
        m := Done;
      } else if done {
        outClosed := true;
        m := Ended;
      } else {
        m := Waits;
      }
    }

    /** The forwarder hands its frame to the consumer's channel, and ends after the final one. */
    method ForwardPut(pick: bool) returns (m: Move)
      requires Valid() && held.Some?
      modifies this`held, this`out, this`outClosed
      ensures Valid()
      ensures if |old(out)| < ChannelSize && (!done || pick) then
                m == Done && held.None? && out == old(out) + [old(held).value] && (outClosed <==> !old(held).value.more)
              else if done then
                m == Dropped && held.None? && out == old(out) && outClosed
              else
                m == Waits && held == old(held) && out == old(out) && !outClosed
    {
      var f := held.value;
      ghost var before := Passing();
      if |out| < ChannelSize && (!done || pick) {
        if !done {
          FinalSoFar(Delivered(), f, inbox);
        }
        held := None;
        out := out + [f];
        assert Passing() == before;
        if !f.more {
          outClosed := true;
        }
        m := Done;
      } else if done {
        WithinDrop(Delivered(), f, inbox, routed);
        held := None;
        outClosed := true;
        assert Passing() == Delivered() + inbox;
        m := Dropped;
      } else {
        m := Waits;
      }
    }

    /** The consumer; out reports its end only when it is drained. */
    method Take() returns (m: Move)
      requires Valid()
      modifies this`out, this`taken
      ensures Valid()
      ensures if old(out) != [] then m == Got(old(out)[0]) && taken == old(taken) + [m.frame] && out == old(out)[1..]
              else m == (if outClosed then Ended else Waits) && taken == old(taken) && out == []
      ensures m == Ended && !done ==> taken == routed && Final(routed)
    {
      ghost var before := Passing();
      if out != [] {
        m := Got(out[0]);
        taken := taken + [out[0]];
        out := out[1..];
        assert Delivered() == old(Delivered());
      } else if outClosed {
        ClosedDrained();
        m := Ended;
      } else {
        m := Waits;
      }
    }

    /** A closed, drained channel of a call that was not abandoned: everything has been taken. */
    lemma ClosedDrained()
      requires Valid() && outClosed
      ensures !done ==> Delivered() == routed && inbox == []
    {
      if !done {
        var d := Delivered();
        assert routed[|d| - 1] == d[|d| - 1];
      }
    }

    method Finish()
      requires Valid()
      modifies this`done
      ensures Valid() && done
    {
      done := true;
    }
  }

  lemma FinalSoFar(d: seq<StreamFrame>, f: StreamFrame, rest: seq<StreamFrame>)
    requires OneFinal(d + [f] + rest)
    ensures !Final(d) && (Final(d + [f]) <==> !f.more)
  {
    var all := d + [f] + rest;
    if d != [] {
      assert all[|d| - 1] == d[|d| - 1];
    }
  }
}
