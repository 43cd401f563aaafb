/** The HELLO message (protocol/hello.go): capability lists, their tables and the strict codec. */
module Hello {
  import opened Basics
  import opened Capabilities

  const MaxHelloCapabilities: nat := 64
  const MaxHelloVersionLen: nat := 128

  const RoleUnknown: nat := 0
  const RoleCore: nat := 1
  const RoleVHandler: nat := 2

  datatype Capability = Capability(id: byte, min: nat, max: nat)

  datatype Hello = Hello(role: nat, version: Bytes, caps: seq<Capability>)

  // ---- Lists and tables ----

  predicate Distinct(cs: seq<Capability>) {
    forall i, j :: 0 <= i < j < |cs| ==> cs[i].id != cs[j].id
  }

  predicate SortedByID(cs: seq<Capability>) {
    forall i, j :: 0 <= i < j < |cs| ==> cs[i].id <= cs[j].id
  }

  /** Any order sort.Slice may leave the list in; entries with equal IDs may stand either way round. */
  predicate Arranged(cs: seq<Capability>, out: seq<Capability>) {
    SortedByID(out) && multiset(out) == multiset(cs)
  }

  /** The table a list stands for; a later entry wins. */
  function Advertised(cs: seq<Capability>): Table {
    if cs == [] then map[]
    else
      var c := cs[|cs| - 1];
      Advertised(cs[..|cs| - 1])[c.id := Support(c.min, c.max)]
  }

  /** The entries of a table with IDs below n, in order. */
  function Listing(t: Table, n: nat): seq<Capability>
    requires n <= 256
  {
    if n == 0 then []
    else Listing(t, n - 1) + if n - 1 in t then [Capability(n - 1, t[n - 1].min, t[n - 1].max)] else []
  }

  function ByID(t: Table): seq<Capability> {
    Listing(t, 256)
  }

  predicate HasID(cs: seq<Capability>, id: byte) {
    exists c :: c in cs && c.id == id
  }

  lemma {:induction false} AdvertisedMembers(cs: seq<Capability>)
    ensures forall id :: id in Advertised(cs) <==> HasID(cs, id)
    ensures Distinct(cs) ==>
              forall c :: c in cs ==> c.id in Advertised(cs) && Advertised(cs)[c.id] == Support(c.min, c.max)
  {
    if cs != [] {
      var init, last := cs[..|cs| - 1], cs[|cs| - 1];
      assert cs == init + [last];
      AdvertisedMembers(init);
      forall id ensures id in Advertised(cs) <==> HasID(cs, id) {
        if HasID(init, id) {
          var c :| c in init && c.id == id;
          assert c in cs;
        }
      }
      if Distinct(cs) {
        forall c | c in cs ensures c.id in Advertised(cs) && Advertised(cs)[c.id] == Support(c.min, c.max) {
          if c in init {
            var k :| 0 <= k < |init| && init[k] == c;
            assert cs[k].id != cs[|cs| - 1].id;
          }
        }
      }
    }
  }

  /** Of several entries with one ID the last is the one that stands. */
  lemma {:induction false} LastStands(cs: seq<Capability>, k: nat)
    requires k < |cs| && forall j :: k < j < |cs| ==> cs[j].id != cs[k].id
    ensures cs[k].id in Advertised(cs) && Advertised(cs)[cs[k].id] == Support(cs[k].min, cs[k].max)
  {
    var init := cs[..|cs| - 1];
    if k < |init| {
      assert init[k] == cs[k] && forall j :: k < j < |init| ==> init[j] == cs[j];
      LastStands(init, k);
      assert cs[|cs| - 1].id != cs[k].id;
    }
  }

  lemma {:induction false} ListingOf(t: Table, n: nat)
    requires n <= 256
    ensures Distinct(Listing(t, n)) && SortedByID(Listing(t, n))
    ensures forall c :: c in Listing(t, n) <==> c.id < n && c.id in t && t[c.id] == Support(c.min, c.max)
  {
    if n > 0 {
      ListingOf(t, n - 1);
    }
  }

  /** The sorted listing of a table stands for that table. */
  lemma AdvertisedListing(t: Table)
    ensures Advertised(ByID(t)) == t
  {
    var cs := ByID(t);
    ListingOf(t, 256);
    AdvertisedMembers(cs);
    forall id: byte ensures id in Advertised(cs) <==> id in t {
      if id in t {
        assert Capability(id, t[id].min, t[id].max) in cs;
      }
    }
    forall id | id in t ensures Advertised(cs)[id] == t[id] {
      assert Capability(id, t[id].min, t[id].max) in cs;
    }
  }

  /** Lists with the same entries, sorted and without repeated IDs, are the same list. */
  lemma {:induction false} SortedUnique(a: seq<Capability>, b: seq<Capability>)
    requires SortedByID(a) && SortedByID(b) && Distinct(a) && Distinct(b)
    requires forall c :: c in a <==> c in b
    ensures a == b
  {
    if b != [] {
      assert b[0] in b;
    }
    if a != [] {
      assert a[0] in b;
      assert b[0] in a;
      var i :| 0 <= i < |b| && b[i] == a[0];
      var j :| 0 <= j < |a| && a[j] == b[0];
      assert a[0].id == b[0].id;
      assert a[0] == b[0];
      forall c ensures c in a[1..] <==> c in b[1..] {
        if c in a[1..] {
          assert c in b;
        }
        if c in b[1..] {
          assert c in a;
        }
      }
      SortedUnique(a[1..], b[1..]);
    }
  }

  lemma {:induction false} Rearranged(a: seq<Capability>, b: seq<Capability>)
    requires multiset(a) == multiset(b)
    ensures |a| == |b| && (Distinct(a) <==> Distinct(b))
    decreases |a|
  {
    hide HasID, Distinct;
    assert |multiset(a)| == |a| && |multiset(b)| == |b|;
    if a == [] {
      assert a == b;
    } else {
      assert a[0] in multiset(b);
      var k :| 0 <= k < |b| && b[k] == a[0];
      var rest, others := a[..0] + a[1..], b[..k] + b[k + 1..];
      Without(a, 0);
      Without(b, k);
      Rearranged(rest, others);
      Removed(a, 0);
      Removed(b, k);
      SameIDs(rest, others, a[0].id);
    }
  }

  lemma SameIDs(a: seq<Capability>, b: seq<Capability>, id: byte)
    requires multiset(a) == multiset(b)
    ensures HasID(a, id) <==> HasID(b, id)
  {
    assert forall c :: c in a <==> c in multiset(a);
    assert forall c :: c in b <==> c in multiset(b);
  }

  lemma Without(cs: seq<Capability>, k: nat)
    requires k < |cs|
    ensures multiset(cs[..k] + cs[k + 1..]) == multiset(cs) - multiset{cs[k]}
  {
    assert cs == cs[..k] + [cs[k]] + cs[k + 1..];
  }

  lemma Removed(cs: seq<Capability>, k: nat)
    requires k < |cs|
    ensures var others := cs[..k] + cs[k + 1..];
            Distinct(cs) <==> Distinct(others) && !HasID(others, cs[k].id)
  {
    var others := cs[..k] + cs[k + 1..];
    forall i | 0 <= i < |others| ensures others[i] == cs[if i < k then i else i + 1] {
    }
    if Distinct(others) && !HasID(others, cs[k].id) {
      forall i, j | 0 <= i < j < |cs| ensures cs[i].id != cs[j].id {
        if i == k {
          assert cs[j] == others[j - 1];
          assert others[j - 1] in others;
        } else if j == k {
          assert cs[i] == others[i];
          assert others[i] in others;
        } else {
          assert cs[i] == others[if i < k then i else i - 1] && cs[j] == others[if j < k then j else j - 1];
        }
      }
    }
  }

  /** However a list without repeated IDs is sorted, the result is the listing of its table. */
  lemma ArrangedIsListing(cs: seq<Capability>, out: seq<Capability>)
    requires Arranged(cs, out) && Distinct(cs)
    ensures out == ByID(Advertised(cs))
  {
    Rearranged(cs, out);
    AdvertisedMembers(cs);
    var t := Advertised(cs);
    ListingOf(t, 256);
    forall c ensures c in out <==> c in ByID(t) {
      assert c in out <==> c in multiset(cs);
      assert c in cs <==> c in multiset(cs);
      if c in ByID(t) {
        var d :| d in cs && d.id == c.id;
        assert t[d.id] == Support(d.min, d.max);
        assert c == d;
      }
    }
    SortedUnique(out, ByID(t));
  }
}
