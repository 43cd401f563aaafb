/** The loops of protocol/hello.go, proved against the lists, tables and bytes of Hello and HelloCodec. */
module HelloCode {
  import opened Basics
  import opened Wire
  import opened ByteIO
  import opened Capabilities
  import opened Hello
  import opened HelloCodec
  import C = AppCodec

  method InsertByID(sorted: seq<Capability>, c: Capability) returns (out: seq<Capability>)
    requires SortedByID(sorted)
    ensures SortedByID(out) && multiset(out) == multiset(sorted) + multiset{c}
  {
    var k := |sorted|;
    while k > 0 && sorted[k - 1].id > c.id
      invariant 0 <= k <= |sorted|
      invariant forall j :: k <= j < |sorted| ==> sorted[j].id > c.id
    {
      k := k - 1;
    }
    out := sorted[..k] + [c] + sorted[k..];
    Slotted(sorted, c, k);
    Counted(sorted, c, k);
  }

  lemma Slotted(sorted: seq<Capability>, c: Capability, k: nat)
    requires SortedByID(sorted) && k <= |sorted|
    requires k > 0 ==> sorted[k - 1].id <= c.id
    requires forall j :: k <= j < |sorted| ==> sorted[j].id > c.id
    ensures SortedByID(sorted[..k] + [c] + sorted[k..])
  {
    var out := sorted[..k] + [c] + sorted[k..];
    forall i, j | 0 <= i < j < |out| ensures out[i].id <= out[j].id {
      assert out[i] == if i < k then sorted[i] else if i == k then c else sorted[i - 1];
      assert out[j] == if j < k then sorted[j] else if j == k then c else sorted[j - 1];
    }
  }

  lemma Counted(sorted: seq<Capability>, c: Capability, k: nat)
    requires k <= |sorted|
    ensures multiset(sorted[..k] + [c] + sorted[k..]) == multiset(sorted) + multiset{c}
  {
    assert sorted == sorted[..k] + sorted[k..];
  }

  /** Stands for sort.Slice: callers rely only on the result being arranged. */
  method SortByID(cs: seq<Capability>) returns (out: seq<Capability>)
    ensures Arranged(cs, out)
  {
    hide SortedByID;
    out := [];
    assert SortedByID(out) by {
      SortedEmpty();
    }
    var i := 0;
    while i < |cs|
      invariant 0 <= i <= |cs| && SortedByID(out) && multiset(out) == multiset(cs[..i])
    {
      out := InsertByID(out, cs[i]);
      assert cs[..i + 1] == cs[..i] + [cs[i]];
      i := i + 1;
    }
    assert cs[..i] == cs;
  }

  lemma SortedEmpty()
    ensures SortedByID([])
  {
  }

  method NewHello(role: nat, version: Bytes, caps: Table) returns (h: Hello)
    ensures h == Hello(role, version, ByID(caps))
  {
    var cs: seq<Capability> := [];
    var rest := caps.Keys;
    while rest != {}
      invariant rest <= caps.Keys && Distinct(cs)
      invariant forall c :: c in cs <==> c.id in caps && c.id !in rest && caps[c.id] == Support(c.min, c.max)
    {
      var id :| id in rest;
      rest := rest - {id};
      cs := cs + [Capability(id, caps[id].min, caps[id].max)];
    }
    TableOf(cs, caps);
    var sorted := SortByID(cs);
    ArrangedIsListing(cs, sorted);
    h := Hello(role, version, sorted);
  }

  lemma TableOf(cs: seq<Capability>, t: Table)
    requires Distinct(cs) && forall c :: c in cs <==> c.id in t && t[c.id] == Support(c.min, c.max)
    ensures Advertised(cs) == t
  {
    AdvertisedMembers(cs);
    forall id: byte ensures id in Advertised(cs) <==> id in t {
      if id in t {
        assert Capability(id, t[id].min, t[id].max) in cs;
      }
    }
    forall id | id in t ensures Advertised(cs)[id] == t[id] {
      assert Capability(id, t[id].min, t[id].max) in cs;
    }
  }

  method AdvertisedOf(h: Hello) returns (out: Table)
    ensures out == Advertised(h.caps)
  {
    out := map[];
    var i := 0;
    while i < |h.caps|
      invariant 0 <= i <= |h.caps| && out == Advertised(h.caps[..i])
    {
      var c := h.caps[i];
      assert h.caps[..i + 1][..i] == h.caps[..i];
      out := out[c.id := Support(c.min, c.max)];
      i := i + 1;
    }
    assert h.caps[..i] == h.caps;
  }

  /** Writes the entries until one has an empty range. */
  method WriteCaps(buf: Buffer, cs: seq<Capability>) returns (ok: bool)
    modifies buf
    ensures ok <==> forall i :: 0 <= i < |cs| ==> cs[i].min <= cs[i].max
    ensures ok ==> buf.data == old(buf.data) + PutCaps(cs)
  {
    hide PutCap;
    var i := 0;
    while i < |cs|
      invariant 0 <= i <= |cs| && buf.data == old(buf.data) + PutCaps(cs[..i])
      invariant forall j :: 0 <= j < i ==> cs[j].min <= cs[j].max
    {
      if cs[i].min > cs[i].max {
        return false;
      }
      WriteCap(buf, cs[i]);
      PutCapsSnoc(cs[..i], cs[i]);
      assert cs[..i + 1] == cs[..i] + [cs[i]];
      i := i + 1;
    }
    assert cs[..i] == cs;
    ok := true;
  }

  method WriteCap(buf: Buffer, c: Capability)
    modifies buf
    ensures buf.data == old(buf.data) + PutCap(c)
  {
    OneByte(c.id);
    hide Big;
    buf.WriteUint8(c.id);
    buf.WriteUint16(c.min);
    buf.WriteUint16(c.max);
  }

  /** The encoding of the HELLO with its list in some sorted order. */
  ghost predicate Encodes(h: Hello, b: Bytes) {
    exists cs :: Arranged(h.caps, cs) && b == HelloBytes(h.(caps := cs))
  }

  method MarshalBinary(h: Hello) returns (r: Option<Bytes>)
    ensures r.Some? <==> Marshalable(h)
    ensures r.Some? ==> Encodes(h, r.value)
  {
    hide Arranged, PutField;
    if h.role == RoleUnknown || h.role > RoleVHandler || |h.version| > MaxHelloVersionLen
       || |h.caps| > MaxHelloCapabilities {
      return None;
    }
    var sorted := SortByID(h.caps);
    SortedSame(h.caps, sorted);
    var buf := new Buffer();
    buf.WriteUint8(h.role);
    assert buf.data == PutField(Num(1, h.role));
    buf.WriteString(h.version);
    buf.WriteUint16(|sorted|);
    C.PutThree(Num(1, h.role), Blob(2, h.version), Num(2, |sorted|));
    var ok := WriteCaps(buf, sorted);
    if !ok {
      return None;
    }
    assert Arranged(h.caps, sorted) && buf.data == HelloBytes(h.(caps := sorted));
    r := Some(buf.data);
  }

  /** Sorting keeps the length and the ranges. */
  lemma SortedSame(cs: seq<Capability>, out: seq<Capability>)
    requires Arranged(cs, out)
    ensures |out| == |cs|
    ensures (forall i :: 0 <= i < |cs| ==> cs[i].min <= cs[i].max)
       <==> forall i :: 0 <= i < |out| ==> out[i].min <= out[i].max
  {
    Rearranged(cs, out);
    if forall i :: 0 <= i < |cs| ==> cs[i].min <= cs[i].max {
      RangesKept(cs, out);
    }
    if forall i :: 0 <= i < |out| ==> out[i].min <= out[i].max {
      RangesKept(out, cs);
    }
  }

  lemma RangesKept(cs: seq<Capability>, out: seq<Capability>)
    requires multiset(out) == multiset(cs) && forall i :: 0 <= i < |cs| ==> cs[i].min <= cs[i].max
    ensures forall i :: 0 <= i < |out| ==> out[i].min <= out[i].max
  {
    forall i | 0 <= i < |out| ensures out[i].min <= out[i].max {
      assert out[i] in multiset(cs);
    }
  }

  lemma {:induction false} PutCapsSnoc(cs: seq<Capability>, c: Capability)
    ensures PutCaps(cs + [c]) == PutCaps(cs) + PutCap(c)
  {
    hide PutCap;
    if cs == [] {
      assert (cs + [c])[1..] == [];
    } else {
      assert (cs + [c])[1..] == cs[1..] + [c];
      PutCapsSnoc(cs[1..], c);
    }
  }

  method ReadCap(r: Reader) returns (c: Option<Capability>)
    modifies r
    ensures c == Result(GetCap(old(r.rest)))
    ensures c.Some? ==> r.rest == GetCap(old(r.rest)).rest && c.value.min < Span(2) && c.value.max < Span(2)
  {
    ghost var b := r.rest;
    if |b| >= 5 {
      CapRead(b);
    }
    var id := r.ReadUint(1);
    if id.None? {
      return None;
    }
    var min := r.ReadUint(2);
    if min.None? {
      return None;
    }
    var max := r.ReadUint(2);
    if max.None? {
      return None;
    }
    ValBound(b[1..3]);
    ValBound(b[3..5]);
    c := Some(Capability(id.value, min.value, max.value));
  }

  lemma CapRead(b: Bytes)
    requires |b| >= 5
    ensures Val(b[..1]) == b[0] && b[1..][..2] == b[1..3] && b[1..][2..][..2] == b[3..5] && b[1..][2..][2..] == b[5..]
  {
    assert b[..1] == [b[0]] && [b[0]][..0] == [];
  }

  function Prepend(out: seq<Capability>, p: Parse<seq<Capability>>): Parse<seq<Capability>> {
    if p.Malformed? then Malformed else Parsed(out + p.value, p.rest)
  }

  lemma PrependStep(out: seq<Capability>, n: nat, b: Bytes)
    requires n > 0
    ensures Prepend(out, GetCaps(n, b)) ==
            match GetCap(b) case Malformed => Malformed case Parsed(c, r) => Prepend(out + [c], GetCaps(n - 1, r))
  {
    hide GetCap;
    if GetCap(b).Parsed? {
      var q := GetCaps(n - 1, GetCap(b).rest);
      if q.Parsed? {
        assert out + ([GetCap(b).value] + q.value) == out + [GetCap(b).value] + q.value;
      }
    }
  }

  /** An entry that repeats an ID or has an empty range spoils every list that goes on from it. */
  lemma Spoilt(out: seq<Capability>, c: Capability, more: seq<Capability>)
    requires HasID(out, c.id) || c.min > c.max
    ensures !Distinct(out + [c] + more) || !CapsOk(out + [c] + more)
  {
    var all := out + [c] + more;
    assert all[|out|] == c;
    if HasID(out, c.id) {
      var d :| d in out && d.id == c.id;
      var k :| 0 <= k < |out| && out[k] == d;
      assert all[k] == d;
    }
  }

  lemma Clean(out: seq<Capability>, c: Capability)
    requires Distinct(out) && CapsOk(out) && !HasID(out, c.id) && CapOk(c)
    ensures Distinct(out + [c]) && CapsOk(out + [c])
    ensures forall id: byte :: HasID(out + [c], id) <==> HasID(out, id) || id == c.id
  {
    forall i | 0 <= i < |out| ensures out[i].id != c.id {
      assert out[i] in out;
    }
    forall id: byte | HasID(out, id) || id == c.id ensures HasID(out + [c], id) {
      if HasID(out, id) {
        var d :| d in out && d.id == id;
        assert d in out + [c];
      } else {
        assert c in out + [c];
      }
    }
  }

  /** The list of `count` entries, without repeated IDs or empty ranges. */
  method ReadCaps(r: Reader, count: nat) returns (cs: Option<seq<Capability>>)
    modifies r
    ensures var p := GetCaps(count, old(r.rest));
            && (cs.Some? <==> p.Parsed? && Distinct(p.value) && CapsOk(p.value))
            && (cs.Some? ==> cs.value == p.value && r.rest == p.rest)
  {
    hide GetCap, HasID, CapsOk, Distinct;
    var seen: set<byte> := {};
    var out: seq<Capability> := [];
    ghost var all := GetCaps(count, r.rest);
    Fresh(all);
    var i := 0;
    while i < count
      invariant 0 <= i <= count && Distinct(out) && CapsOk(out)
      invariant forall id: byte :: id in seen <==> HasID(out, id)
      invariant all == Prepend(out, GetCaps(count - i, r.rest))
    {
      PrependStep(out, count - i, r.rest);
      ghost var b := r.rest;
      var c := ReadCap(r);
      if c.None? {
        return None;
      }
      if c.value.id in seen || c.value.min > c.value.max {
        ghost var q := GetCaps(count - i - 1, r.rest);
        if q.Parsed? {
          Spoilt(out, c.value, q.value);
        }
        return None;
      }
      Clean(out, c.value);
      seen := seen + {c.value.id};
      out := out + [c.value];
      i := i + 1;
    }
    assert out + [] == out;
    cs := Some(out);
  }

  lemma Fresh(p: Parse<seq<Capability>>)
    ensures Prepend([], p) == p && Distinct([]) && CapsOk([]) && forall id: byte :: !HasID([], id)
  {
    if p.Parsed? {
      assert [] + p.value == p.value;
    }
  }

  method UnmarshalBinary(data: Bytes) returns (h: Option<Hello>)
    ensures h == DecodeHello(data)
  {
    hide Distinct, CapsOk, GetCaps;
    C.GetThree(NumOf(1), BlobOf(2), NumOf(2), data);
    var r := new Reader(data);
    var role := r.ReadUint(1);
    if role.None? || role.value > RoleVHandler {
      return None;
    }
    var length := r.ReadUint(2);
    if length.None? || length.value > MaxHelloVersionLen {
      return None;
    }
    var version := r.ReadFull(length.value);
    if version.None? {
      return None;
    }
    var count := r.ReadUint(2);
    if count.None? {
      return None;
    }
    ghost var p := GetCaps(count.value, r.rest);
    if p.Parsed? {
      GetCapsExact(count.value, r.rest);
    }
    if count.value > MaxHelloCapabilities {
      return None;
    }
    var cs := ReadCaps(r, count.value);
    if cs.None? || r.rest != [] {
      return None;
    }
    h := Some(Hello(role.value, version.value, cs.value));
  }
}
