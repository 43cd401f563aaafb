/**
 The wire vocabulary of protocol/encode.go and protocol/decode.go: big-endian
 integers and length-prefixed byte strings. A layout is a list of fields; what
 encoding and strict decoding do to any layout is proved once, here.
 */
module Wire {
  import opened Basics

  /** The last w bytes of v, most significant first: what the encoders write, truncation included. */
  function Big(v: nat, w: nat): (b: Bytes)
    ensures |b| == w
  {
    if w == 0 then [] else Big(v / 256, w - 1) + [v % 256]
  }

  lemma OneByte(v: byte)
    ensures Big(v, 1) == [v]
  {
    assert Big(v / 256, 0) == [];
  }

  function Val(b: Bytes): nat {
    if b == [] then 0 else 256 * Val(b[..|b| - 1]) + b[|b| - 1]
  }

  function Span(w: nat): nat {
    if w == 0 then 1 else 256 * Span(w - 1)
  }

  lemma Spans()
    ensures Span(1) == 0x100 && Span(2) == 0x1_0000 && Span(4) == 0x1_0000_0000
    ensures Span(8) == 0x1_0000_0000_0000_0000
  {
    assert Span(3) == 256 * Span(2) && Span(4) == 256 * Span(3) && Span(5) == 256 * Span(4);
    assert Span(6) == 256 * Span(5) && Span(7) == 256 * Span(6) && Span(8) == 256 * Span(7);
  }

  lemma {:induction false} ValBound(b: Bytes)
    ensures Val(b) < Span(|b|)
  {
    if b != [] {
      ValBound(b[..|b| - 1]);
    }
  }

  /** A number survives exactly if it fits its width; otherwise a smaller one arrives. */
  lemma {:induction false} ValBig(v: nat, w: nat)
    ensures Val(Big(v, w)) <= v
    ensures v < Span(w) <==> Val(Big(v, w)) == v
  {
    if w > 0 {
      ValBig(v / 256, w - 1);
      assert Big(v, w)[..w - 1] == Big(v / 256, w - 1);
    }
  }

  lemma {:induction false} BigVal(b: Bytes)
    ensures Big(Val(b), |b|) == b
  {
    if b != [] {
      BigVal(b[..|b| - 1]);
      assert Val(b) / 256 == Val(b[..|b| - 1]) && Val(b) % 256 == b[|b| - 1];
    }
  }

  /** An unsigned integer of `width` bytes, or a byte string behind a length of `width` bytes. */
  datatype Field = Num(width: nat, value: nat) | Blob(width: nat, data: Bytes)
  datatype Shape = NumOf(width: nat) | BlobOf(width: nat)

  function ShapeOf(f: Field): Shape {
    match f case Num(w, _) => NumOf(w) case Blob(w, _) => BlobOf(w)
  }

  predicate FieldFits(f: Field) {
    match f case Num(w, v) => v < Span(w) case Blob(w, d) => |d| < Span(w)
  }

  function PutField(f: Field): Bytes {
    match f case Num(w, v) => Big(v, w) case Blob(w, d) => Big(|d|, w) + d
  }

  datatype Parse<T> = Parsed(value: T, rest: Bytes) | Malformed

  function GetNum(w: nat, b: Bytes): Parse<nat> {
    if |b| < w then Malformed else Parsed(Val(b[..w]), b[w..])
  }

  function GetBlob(w: nat, b: Bytes): Parse<Bytes> {
    match GetNum(w, b)
    case Malformed => Malformed
    case Parsed(n, r) => if |r| < n then Malformed else Parsed(r[..n], r[n..])
  }

  function GetField(s: Shape, b: Bytes): Parse<Field> {
    match s
    case NumOf(w) => (match GetNum(w, b) case Malformed => Malformed case Parsed(v, r) => Parsed(Num(w, v), r))
    case BlobOf(w) => (match GetBlob(w, b) case Malformed => Malformed case Parsed(d, r) => Parsed(Blob(w, d), r))
  }

  lemma GetPutNum(w: nat, v: nat, tail: Bytes)
    ensures GetNum(w, Big(v, w) + tail) == Parsed(Val(Big(v, w)), tail)
  {
    assert (Big(v, w) + tail)[..w] == Big(v, w);
    assert (Big(v, w) + tail)[w..] == tail;
  }

  /** A field that fits is read back, whatever follows it. */
  lemma GetPutField(f: Field, tail: Bytes)
    requires FieldFits(f)
    ensures GetField(ShapeOf(f), PutField(f) + tail) == Parsed(f, tail)
  {
    match f
    case Num(w, v) =>
      GetPutNum(w, v, tail);
      ValBig(v, w);
    case Blob(w, d) =>
      GetPutNum(w, |d|, d + tail);
      ValBig(|d|, w);
      assert PutField(f) + tail == Big(|d|, w) + (d + tail);
      assert (d + tail)[..|d|] == d && (d + tail)[|d|..] == tail;
  }

  lemma GetNumExact(w: nat, b: Bytes)
    requires GetNum(w, b).Parsed?
    ensures b == Big(GetNum(w, b).value, w) + GetNum(w, b).rest && GetNum(w, b).value < Span(w)
  {
    BigVal(b[..w]);
    ValBound(b[..w]);
  }

  /** What is read is what was written: the bytes consumed are the encoding of the field read. */
  lemma GetFieldExact(s: Shape, b: Bytes)
    requires GetField(s, b).Parsed?
    ensures var p := GetField(s, b);
            b == PutField(p.value) + p.rest && ShapeOf(p.value) == s && FieldFits(p.value)
  {
    GetNumExact(s.width, b);
    if s.BlobOf? {
      var r := GetNum(s.width, b).rest;
      var n := GetNum(s.width, b).value;
      assert r == r[..n] + r[n..];
    }
  }

  // ---- Layouts ----

  function Put(fs: seq<Field>): Bytes {
    if fs == [] then [] else PutField(fs[0]) + Put(fs[1..])
  }

  function Shapes(fs: seq<Field>): (ss: seq<Shape>)
    ensures |ss| == |fs|
  {
    if fs == [] then [] else [ShapeOf(fs[0])] + Shapes(fs[1..])
  }

  predicate AllFit(fs: seq<Field>) {
    forall i :: 0 <= i < |fs| ==> FieldFits(fs[i])
  }

  function Get(ss: seq<Shape>, b: Bytes): Parse<seq<Field>>
    decreases |ss|
  {
    if ss == [] then Parsed([], b)
    else match GetField(ss[0], b)
         case Malformed => Malformed
         case Parsed(f, r) =>
           match Get(ss[1..], r)
           case Malformed => Malformed
           case Parsed(fs, r') => Parsed([f] + fs, r')
  }

  lemma GetMore(s: Shape, ss: seq<Shape>, b: Bytes)
    requires GetField(s, b).Parsed? && Get(ss, GetField(s, b).rest).Parsed?
    ensures var p := GetField(s, b);
            var q := Get(ss, p.rest);
            Get([s] + ss, b) == Parsed([p.value] + q.value, q.rest)
  {
    hide GetField;
    assert ([s] + ss)[1..] == ss;
  }

  lemma {:induction false} GetPut(fs: seq<Field>, tail: Bytes)
    requires AllFit(fs)
    ensures Get(Shapes(fs), Put(fs) + tail) == Parsed(fs, tail)
  {
    hide GetField, PutField, FieldFits, ShapeOf;
    if fs == [] {
      assert Put(fs) + tail == tail;
    } else {
      var more := Put(fs[1..]) + tail;
      assert Put(fs) + tail == PutField(fs[0]) + more;
      GetPutField(fs[0], more);
      GetPut(fs[1..], tail);
      GetMore(ShapeOf(fs[0]), Shapes(fs[1..]), Put(fs) + tail);
      assert fs == [fs[0]] + fs[1..];
    }
  }

  lemma {:induction false} GetExact(ss: seq<Shape>, b: Bytes)
    requires Get(ss, b).Parsed?
    ensures var p := Get(ss, b);
            b == Put(p.value) + p.rest && Shapes(p.value) == ss && AllFit(p.value)
    decreases |ss|
  {
    hide GetField, PutField, FieldFits, ShapeOf;
    if ss != [] {
      GetFieldExact(ss[0], b);
      var r := GetField(ss[0], b).rest;
      GetExact(ss[1..], r);
      var p := Get(ss, b);
      var fs := Get(ss[1..], r).value;
      assert p.value[1..] == fs;
      assert b == PutField(p.value[0]) + (Put(fs) + p.rest);
    }
  }

  /** A strict decoder: the layout and nothing after it. */
  function Strict(ss: seq<Shape>, b: Bytes): Option<seq<Field>> {
    match Get(ss, b)
    case Malformed => None
    case Parsed(fs, r) => if r == [] then Some(fs) else None
  }

  /** Strict decoding is the exact inverse of encoding, on the layouts whose fields fit. */
  lemma StrictInverse(ss: seq<Shape>, b: Bytes, fs: seq<Field>)
    requires Shapes(fs) == ss
    ensures Strict(ss, b) == Some(fs) <==> AllFit(fs) && b == Put(fs)
  {
    if Get(ss, b).Parsed? {
      GetExact(ss, b);
    }
    if AllFit(fs) {
      GetPut(fs, []);
      assert Put(fs) + [] == Put(fs);
    }
  }

  lemma StrictShape(ss: seq<Shape>, b: Bytes)
    requires Strict(ss, b).Some?
    ensures var fs := Strict(ss, b).value; Shapes(fs) == ss && AllFit(fs) && b == Put(fs)
  {
    GetExact(ss, b);
  }

  /** No proper extension of an accepted string is accepted. */
  lemma StrictRejectsMore(ss: seq<Shape>, b: Bytes, more: Bytes)
    requires Strict(ss, b).Some? && more != []
    ensures Strict(ss, b + more).None?
  {
    StrictShape(ss, b);
    GetPut(Strict(ss, b).value, more);
  }
}
