/** Capability tables and their negotiation (protocol/capabilities.go). */
module Capabilities {
  import opened Basics

  /** A range of revisions. */
  datatype Support = Support(min: nat, max: nat)

  type Table = map<byte, Support>
  type Agreement = map<byte, nat>

  function Max(a: nat, b: nat): nat {
    if a < b then b else a
  }

  predicate Supports(t: Table, id: byte, rev: nat) {
    id in t && t[id].min <= rev <= t[id].max
  }

  /** Both tables have the revision. */
  predicate Shared(a: Table, b: Table, id: byte, rev: nat) {
    Supports(a, id, rev) && Supports(b, id, rev)
  }

  /** Where the ranges of an ID overlap, the end of the overlap. */
  function Overlap(a: Support, b: Support): Option<nat> {
    var hi := Min(a.max, b.max);
    if Max(a.min, b.min) <= hi then Some(hi) else None
  }

  function Common(a: Table, b: Table): Agreement {
    map id | id in a && id in b && Overlap(a[id], b[id]).Some? :: Overlap(a[id], b[id]).value
  }

  method Negotiate(peer: Table, local: Table) returns (out: Agreement)
    ensures out == Common(peer, local)
  {
    out := map[];
    var rest := peer.Keys;
    while rest != {}
      invariant rest <= peer.Keys
      invariant out == map id | id in Common(peer, local) && id !in rest :: Common(peer, local)[id]
    {
      var id :| id in rest;
      rest := rest - {id};
      if id in local {
        var p, l := peer[id], local[id];
        var lo := Max(p.min, l.min);
        var hi := Min(p.max, l.max);
        if lo <= hi {
          out := out[id := hi];
        }
      }
    }
  }

  /** An ID is agreed on exactly if some revision is shared, and then at the greatest shared one. */
  lemma NegotiateExact(a: Table, b: Table, id: byte)
    ensures id in Common(a, b) <==> exists rev :: Shared(a, b, id, rev)
    ensures id in Common(a, b) ==>
              && Shared(a, b, id, Common(a, b)[id])
              && forall rev :: Shared(a, b, id, rev) ==> rev <= Common(a, b)[id]
  {
    if id in Common(a, b) {
      assert Shared(a, b, id, Common(a, b)[id]);
    }
  }

  lemma NegotiateSymmetric(a: Table, b: Table)
    ensures Common(a, b) == Common(b, a)
  {
  }

  /** Every required ID is agreed on at or above its minimum. */
  predicate Satisfied(reqs: map<byte, nat>, n: Agreement) {
    forall id :: id in reqs ==> id in n && n[id] >= reqs[id]
  }

  /** Returns a requirement that is not met, if there is one. */
  method Check(reqs: map<byte, nat>, n: Agreement) returns (bad: Option<byte>)
    ensures bad.None? <==> Satisfied(reqs, n)
    ensures bad.Some? ==> bad.value in reqs && !(bad.value in n && n[bad.value] >= reqs[bad.value])
  {
    var rest := reqs.Keys;
    while rest != {}
      invariant rest <= reqs.Keys
      invariant forall id :: id in reqs && id !in rest ==> id in n && n[id] >= reqs[id]
    {
      var id :| id in rest;
      rest := rest - {id};
      if id !in n || n[id] < reqs[id] {
        return Some(id);
      }
    }
    bad := None;
  }

  /** A negotiation meets the requirements exactly if each has a shared revision that is new enough. */
  lemma CheckExact(a: Table, b: Table, reqs: map<byte, nat>)
    ensures Satisfied(reqs, Common(a, b))
       <==> forall id :: id in reqs ==> exists rev :: rev >= reqs[id] && Shared(a, b, id, rev)
  {
    forall id | id in reqs
      ensures id in Common(a, b) && Common(a, b)[id] >= reqs[id]
         <==> exists rev :: rev >= reqs[id] && Shared(a, b, id, rev)
    {
      NegotiateExact(a, b, id);
    }
  }
}
