/** Shared vocabulary: bytes, optional values, chunk queues and sums over tables. */
module Basics {

  type byte = x: int | 0 <= x < 256
  type Bytes = seq<byte>

  datatype Option<+T> = None | Some(value: T)

  function Min(a: int, b: int): (m: int)
    ensures m <= a && m <= b && (m == a || m == b)
  {
    if a < b then a else b
  }

  /** The bytes of an ASCII literal. */
  function Ascii(s: string): (b: Bytes)
    ensures |b| == |s|
  {
    seq(|s|, i requires 0 <= i < |s| => (s[i] as int) % 256)
  }

  /** The byte string held by a queue of chunks, oldest first. */
  function Flat(q: seq<Bytes>): Bytes {
    if q == [] then [] else q[0] + Flat(q[1..])
  }

  lemma {:induction false} FlatAppend(q: seq<Bytes>, c: Bytes)
    ensures Flat(q + [c]) == Flat(q) + c
  {
    if q == [] {
      assert q + [c] == [c] && [c][1..] == [];
    } else {
      assert (q + [c])[1..] == q[1..] + [c];
      FlatAppend(q[1..], c);
    }
  }

  /** No chunk of the queue is empty. */
  predicate Chunked(q: seq<Bytes>) {
    forall i :: 0 <= i < |q| ==> q[i] != []
  }

  /** Sum of the values of a table. */
  ghost function Total(m: map<nat, int>): int {
    if m == map[] then 0
    else
      var k :| k in m;
      m[k] + Total(m - {k})
  }

  /** The sum does not depend on the order in which entries are taken. */
  lemma {:induction false} TotalRemove(m: map<nat, int>, k: nat)
    requires k in m
    ensures Total(m) == m[k] + Total(m - {k})
    decreases |m|
  {
    var k0 :| k0 in m && Total(m) == m[k0] + Total(m - {k0});
    if k0 != k {
      TotalRemove(m - {k0}, k);
      TotalRemove(m - {k}, k0);
      assert m - {k0} - {k} == m - {k} - {k0};
    }
  }

  function At(m: map<nat, int>, k: nat): int {
    if k in m then m[k] else 0
  }

  lemma TotalUpdate(m: map<nat, int>, k: nat, v: int)
    ensures Total(m[k := v]) + At(m, k) == Total(m) + v
  {
    TotalRemove(m[k := v], k);
    assert m[k := v] - {k} == m - {k};
    if k in m {
      TotalRemove(m, k);
    } else {
      assert m - {k} == m;
    }
  }

  /** Pointwise smaller tables over the same keys have smaller sums. */
  lemma {:induction false} TotalMonotone(m: map<nat, int>, n: map<nat, int>)
    requires m.Keys == n.Keys
    requires forall k :: k in m ==> m[k] <= n[k]
    ensures Total(m) <= Total(n)
    decreases |m|
  {
    if m != map[] {
      var k :| k in m;
      TotalRemove(m, k);
      TotalRemove(n, k);
      TotalMonotone(m - {k}, n - {k});
    } else {
      assert n.Keys == {};
      assert n == map[];
    }
  }

  lemma {:induction false} TotalZero(m: map<nat, int>)
    requires forall k :: k in m ==> m[k] == 0
    ensures Total(m) == 0
    decreases |m|
  {
    if m != map[] {
      var k :| k in m;
      TotalRemove(m, k);
      TotalZero(m - {k});
    }
  }

  /** No entry of a table of non-negative values exceeds the sum. */
  lemma TotalMember(m: map<nat, int>, k: nat)
    requires k in m && forall j :: j in m ==> m[j] >= 0
    ensures m[k] <= Total(m)
  {
    var zero := map j | j in m - {k} :: 0;
    TotalRemove(m, k);
    TotalZero(zero);
    TotalMonotone(zero, m - {k});
  }
}
