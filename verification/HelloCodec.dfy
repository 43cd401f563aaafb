/** The bytes of a HELLO (protocol/hello.go): encoder, strict decoder and what they make of each other. */
module HelloCodec {
  import opened Basics
  import opened Wire
  import opened Capabilities
  import opened Hello
  import C = AppCodec

  function PutCap(c: Capability): Bytes {
    [c.id] + Big(c.min, 2) + Big(c.max, 2)
  }

  function PutCaps(cs: seq<Capability>): Bytes {
    if cs == [] then [] else PutCap(cs[0]) + PutCaps(cs[1..])
  }

  function Header(role: nat, version: Bytes, count: nat): seq<Field> {
    [Num(1, role), Blob(2, version), Num(2, count)]
  }

  function HelloBytes(h: Hello): Bytes {
    Put(Header(h.role, h.version, |h.caps|)) + PutCaps(h.caps)
  }

  predicate CapOk(c: Capability) {
    c.min <= c.max < Span(2)
  }

  predicate CapsOk(cs: seq<Capability>) {
    forall i :: 0 <= i < |cs| ==> CapOk(cs[i])
  }

  /** What the decoder lets through. The unknown role is well formed; the handshake refuses it later. */
  predicate WellFormed(h: Hello) {
    && h.role <= RoleVHandler && |h.version| <= MaxHelloVersionLen && |h.caps| <= MaxHelloCapabilities
    && Distinct(h.caps) && CapsOk(h.caps)
  }

  function GetCap(b: Bytes): Parse<Capability> {
    if |b| < 5 then Malformed else Parsed(Capability(b[0], Val(b[1..3]), Val(b[3..5])), b[5..])
  }

  function GetCaps(n: nat, b: Bytes): Parse<seq<Capability>> {
    if n == 0 then Parsed([], b)
    else match GetCap(b)
         case Malformed => Malformed
         case Parsed(c, r) =>
           match GetCaps(n - 1, r)
           case Malformed => Malformed
           case Parsed(cs, r') => Parsed([c] + cs, r')
  }

  function DecodeHello(b: Bytes): Option<Hello> {
    match Get([NumOf(1), BlobOf(2), NumOf(2)], b)
    case Malformed => None
    case Parsed(fs, r) =>
      HeaderShape(b);
      match GetCaps(fs[2].value, r)
      case Malformed => None
      case Parsed(cs, r') =>
        var h := Hello(fs[0].value, fs[1].data, cs);
        if r' == [] && WellFormed(h) then Some(h) else None
  }

  lemma HeaderShape(b: Bytes)
    requires Get([NumOf(1), BlobOf(2), NumOf(2)], b).Parsed?
    ensures var p := Get([NumOf(1), BlobOf(2), NumOf(2)], b);
            && |p.value| == 3 && p.value[0].Num? && p.value[1].Blob? && p.value[2].Num?
            && p.value == Header(p.value[0].value, p.value[1].data, p.value[2].value)
            && b == Put(p.value) + p.rest
  {
    var ss := [NumOf(1), BlobOf(2), NumOf(2)];
    GetExact(ss, b);
    C.ShapesAre(Get(ss, b).value);
  }

  lemma GetPutCap(c: Capability, tail: Bytes)
    requires CapOk(c)
    ensures GetCap(PutCap(c) + tail) == Parsed(c, tail)
  {
    var b := PutCap(c) + tail;
    assert b[1..3] == Big(c.min, 2) && b[3..5] == Big(c.max, 2) && b[5..] == tail;
    ValBig(c.min, 2);
    ValBig(c.max, 2);
  }

  lemma GetCapExact(b: Bytes)
    requires GetCap(b).Parsed?
    ensures b == PutCap(GetCap(b).value) + GetCap(b).rest
  {
    BigVal(b[1..3]);
    BigVal(b[3..5]);
    assert b == [b[0]] + b[1..3] + b[3..5] + b[5..];
  }

  lemma {:induction false} GetPutCaps(cs: seq<Capability>, tail: Bytes)
    requires CapsOk(cs)
    ensures GetCaps(|cs|, PutCaps(cs) + tail) == Parsed(cs, tail)
  {
    hide GetCap, PutCap;
    if cs == [] {
      assert PutCaps(cs) + tail == tail;
    } else {
      GetPutCap(cs[0], PutCaps(cs[1..]) + tail);
      assert PutCaps(cs) + tail == PutCap(cs[0]) + (PutCaps(cs[1..]) + tail);
      GetPutCaps(cs[1..], tail);
      assert [cs[0]] + cs[1..] == cs;
    }
  }

  lemma {:induction false} GetCapsExact(n: nat, b: Bytes)
    requires GetCaps(n, b).Parsed?
    ensures var p := GetCaps(n, b); |p.value| == n && b == PutCaps(p.value) + p.rest
  {
    hide GetCap, PutCap;
    if n > 0 {
      GetCapExact(b);
      var r := GetCap(b).rest;
      GetCapsExact(n - 1, r);
      var p := GetCaps(n, b);
      assert p.value[1..] == GetCaps(n - 1, r).value;
      assert b == PutCap(p.value[0]) + (PutCaps(p.value[1..]) + p.rest);
    }
  }

  lemma HeaderFits(h: Hello)
    requires WellFormed(h)
    ensures AllFit(Header(h.role, h.version, |h.caps|))
    ensures Shapes(Header(h.role, h.version, |h.caps|)) == [NumOf(1), BlobOf(2), NumOf(2)]
  {
    Spans();
    var fs := Header(h.role, h.version, |h.caps|);
    C.ShapesAre(fs);
    assert Shapes(fs) == [NumOf(1), BlobOf(2), NumOf(2)];
  }

  /**
   The decoder accepts exactly the encodings of well-formed HELLOs: no two byte strings
   decode to the same HELLO, and nothing may follow one.
   */
  lemma HelloIff(b: Bytes, h: Hello)
    ensures DecodeHello(b) == Some(h) <==> WellFormed(h) && b == HelloBytes(h)
  {
    hide WellFormed, Put;
    if WellFormed(h) {
      var fs := Header(h.role, h.version, |h.caps|);
      HeaderFits(h);
      GetPut(fs, PutCaps(h.caps));
      assert CapsOk(h.caps) by {
        WellFormedCaps(h);
      }
      GetPutCaps(h.caps, []);
      assert PutCaps(h.caps) + [] == PutCaps(h.caps);
    }
    if DecodeHello(b).Some? {
      HeaderShape(b);
      var p := Get([NumOf(1), BlobOf(2), NumOf(2)], b);
      GetCapsExact(p.value[2].value, p.rest);
      var q := GetCaps(p.value[2].value, p.rest);
      assert p.rest == PutCaps(q.value) + [] == PutCaps(q.value);
    }
  }

  lemma WellFormedCaps(h: Hello)
    requires WellFormed(h)
    ensures CapsOk(h.caps)
  {
  }

  // ---- Marshalling ----

  /** The checks of MarshalBinary. */
  predicate Marshalable(h: Hello) {
    && RoleCore <= h.role <= RoleVHandler
    && |h.version| <= MaxHelloVersionLen && |h.caps| <= MaxHelloCapabilities
    && forall i :: 0 <= i < |h.caps| ==> h.caps[i].min <= h.caps[i].max
  }

  /** Revisions are uint16. */
  predicate Revisions(cs: seq<Capability>) {
    forall c :: c in cs ==> c.min < Span(2) && c.max < Span(2)
  }

  /**
   What UnmarshalBinary makes of anything MarshalBinary may write: it succeeds exactly if
   no ID is listed twice, and then returns the same HELLO with its list sorted by ID.
   */
  lemma MarshalledDecodes(h: Hello, cs: seq<Capability>)
    requires Marshalable(h) && Revisions(h.caps) && Arranged(h.caps, cs)
    ensures DecodeHello(HelloBytes(h.(caps := cs))) ==
            if Distinct(h.caps) then Some(h.(caps := ByID(Advertised(h.caps)))) else None
  {
    var sorted := h.(caps := cs);
    Rearranged(h.caps, cs);
    forall i | 0 <= i < |cs| ensures CapOk(cs[i]) {
      assert cs[i] in multiset(h.caps);
    }
    if Distinct(h.caps) {
      ArrangedIsListing(h.caps, cs);
      HelloIff(HelloBytes(sorted), sorted);
    } else {
      DuplicateRefused(sorted);
    }
  }

  lemma DuplicateRefused(h: Hello)
    requires h.role <= RoleVHandler && |h.version| <= MaxHelloVersionLen && |h.caps| <= MaxHelloCapabilities
    requires CapsOk(h.caps) && !Distinct(h.caps)
    ensures DecodeHello(HelloBytes(h)).None?
  {
    var b := HelloBytes(h);
    Spans();
    var fs := Header(h.role, h.version, |h.caps|);
    C.ShapesAre(fs);
    assert Shapes(fs) == [NumOf(1), BlobOf(2), NumOf(2)];
    GetPut(fs, PutCaps(h.caps));
    GetPutCaps(h.caps, []);
    assert PutCaps(h.caps) + [] == PutCaps(h.caps);
  }

  /** A HELLO built from a table survives the wire unchanged. */
  lemma NewHelloRoundTrip(role: nat, version: Bytes, t: Table)
    requires var h := Hello(role, version, ByID(t)); Marshalable(h) && Revisions(h.caps)
    ensures var h := Hello(role, version, ByID(t));
            DecodeHello(HelloBytes(h)) == Some(h) && Advertised(h.caps) == t
  {
    var h := Hello(role, version, ByID(t));
    ListingOf(t, 256);
    AdvertisedListing(t);
    MarshalledDecodes(h, h.caps);
  }

  /** Marshalling an accepted HELLO again gives its sorted form, with the same table. */
  lemma Remarshal(b: Bytes, h: Hello, cs: seq<Capability>)
    requires DecodeHello(b) == Some(h) && h.role != RoleUnknown && Arranged(h.caps, cs)
    ensures Marshalable(h) && cs == ByID(Advertised(h.caps)) && Advertised(cs) == Advertised(h.caps)
    ensures DecodeHello(HelloBytes(h.(caps := cs))) == Some(h.(caps := cs))
    ensures SortedByID(h.caps) ==> HelloBytes(h.(caps := cs)) == b
  {
    HelloIff(b, h);
    ArrangedIsListing(h.caps, cs);
    AdvertisedListing(Advertised(h.caps));
    MarshalledDecodes(h, cs);
    if SortedByID(h.caps) {
      ArrangedIsListing(h.caps, h.caps);
    }
  }
}
