/** Length-prefixed MVCP frames (protocol/frame.go, protocol/mvcp.go). */
module Frames {
  import opened Basics
  import opened Wire
  import opened ByteIO

  const MaxFrameSize: nat := 16 * 1024 * 1024
  const FrameHeaderSize: nat := 6

  datatype Frame = Frame(typ: byte, flags: byte, msgID: nat, body: Bytes)

  function Inner(f: Frame): (b: Bytes)
    ensures |b| == FrameHeaderSize + |f.body|
  {
    [f.typ, f.flags] + Big(f.msgID, 4) + f.body
  }

  function Encode(f: Frame): (b: Bytes)
    ensures |b| == 4 + |Inner(f)|
  {
    Big(|Inner(f)|, 4) + Inner(f)
  }

  predicate FrameOk(f: Frame) {
    f.msgID < Span(4) && FrameHeaderSize + |f.body| <= MaxFrameSize
  }

  function GetPayload(b: Bytes): Parse<Bytes> {
    match GetNum(4, b)
    case Malformed => Malformed
    case Parsed(n, r) => if n > MaxFrameSize || |r| < n then Malformed else Parsed(r[..n], r[n..])
  }

  function GetFrame(b: Bytes): Parse<Frame> {
    match GetPayload(b)
    case Malformed => Malformed
    case Parsed(p, r) =>
      if |p| < FrameHeaderSize then Malformed
      else Parsed(Frame(p[0], p[1], Val(p[2..6]), p[6..]), r)
  }

  lemma GetEncode(f: Frame, tail: Bytes)
    requires FrameOk(f)
    ensures GetFrame(Encode(f) + tail) == Parsed(f, tail)
  {
    var p := Inner(f);
    Spans();
    ValBig(|p|, 4);
    assert Encode(f) + tail == Big(|p|, 4) + (p + tail);
    GetPutNum(4, |p|, p + tail);
    assert (p + tail)[..|p|] == p && (p + tail)[|p|..] == tail;
    assert p[2..6] == Big(f.msgID, 4) && p[6..] == f.body;
    ValBig(f.msgID, 4);
  }

  lemma GetFrameExact(b: Bytes)
    requires GetFrame(b).Parsed?
    ensures var p := GetFrame(b); b == Encode(p.value) + p.rest && FrameOk(p.value)
  {
    GetNumExact(4, b);
    var payload := GetPayload(b).value;
    var f := GetFrame(b).value;
    BigVal(payload[2..6]);
    ValBound(payload[2..6]);
    assert payload == [payload[0], payload[1]] + payload[2..6] + payload[6..];
    assert payload == Inner(f);
  }

  /** A frame is read exactly if its encoding is in front. */
  lemma FrameIff(b: Bytes, f: Frame, rest: Bytes)
    ensures GetFrame(b) == Parsed(f, rest) <==> FrameOk(f) && b == Encode(f) + rest
  {
    if GetFrame(b).Parsed? {
      GetFrameExact(b);
    }
    if FrameOk(f) {
      GetEncode(f, rest);
    }
  }

  /** A frame that has not arrived whole is not read. */
  lemma CutFrame(f: Frame, k: nat)
    requires FrameOk(f) && k < |Encode(f)|
    ensures GetFrame(Encode(f)[..k]).Malformed?
  {
    var b := Encode(f)[..k];
    if k >= 4 {
      assert b[..4] == Big(|Inner(f)|, 4);
      Spans();
      ValBig(|Inner(f)|, 4);
    }
  }

  // ---- Streams of frames ----

  function Join(fs: seq<Frame>): Bytes {
    if fs == [] then [] else Encode(fs[0]) + Join(fs[1..])
  }

  /** What reading until the first error returns. */
  function ReadAll(b: Bytes): seq<Frame>
    decreases |b|
  {
    match GetFrame(b)
    case Malformed => []
    case Parsed(f, r) => [f] + ReadAll(r)
  }

  predicate AllOk(fs: seq<Frame>) {
    forall i :: 0 <= i < |fs| ==> FrameOk(fs[i])
  }

  /** How many frames lie entirely in the first k bytes. */
  function Whole(fs: seq<Frame>, k: nat): (n: nat)
    ensures n <= |fs|
  {
    if fs == [] || k < |Encode(fs[0])| then 0 else 1 + Whole(fs[1..], k - |Encode(fs[0])|)
  }

  /** Reading any cut of a stream of frames returns exactly the frames that have arrived whole. */
  lemma {:induction false} ReadCut(fs: seq<Frame>, k: nat)
    requires AllOk(fs) && k <= |Join(fs)|
    ensures ReadAll(Join(fs)[..k]) == fs[..Whole(fs, k)]
    decreases |fs|
  {
    hide GetFrame, Encode;
    if fs == [] {
      NothingRead();
    } else {
      var e, b := Encode(fs[0]), Join(fs)[..k];
      if k < |e| {
        CutFrame(fs[0], k);
        assert b == e[..k];
      } else {
        var tail := Join(fs[1..])[..k - |e|];
        assert b == e + tail;
        FrameIff(b, fs[0], tail);
        ReadCut(fs[1..], k - |e|);
        assert fs[..Whole(fs, k)] == [fs[0]] + fs[1..][..Whole(fs, k) - 1];
      }
    }
  }

  lemma NothingRead()
    ensures ReadAll([]) == []
  {
    assert GetNum(4, []).Malformed?;
  }

  lemma {:induction false} WholeAll(fs: seq<Frame>)
    ensures Whole(fs, |Join(fs)|) == |fs|
    decreases |fs|
  {
    if fs != [] {
      WholeAll(fs[1..]);
    }
  }

  /** Reading the concatenation of the encodings returns the frames. */
  lemma ReadBack(fs: seq<Frame>)
    requires AllOk(fs)
    ensures ReadAll(Join(fs)) == fs
  {
    WholeAll(fs);
    ReadCut(fs, |Join(fs)|);
    assert Join(fs)[..|Join(fs)|] == Join(fs) && fs[..|fs|] == fs;
  }

  // ---- The code ----

  method Copy(src: Bytes, dst: array<byte>, at: nat)
    requires at + |src| <= dst.Length
    modifies dst
    ensures dst[..at] == old(dst[..at]) && dst[at..at + |src|] == src && dst[at + |src|..] == old(dst[at + |src|..])
  {
    var i := 0;
    while i < |src|
      invariant 0 <= i <= |src|
      invariant forall j :: 0 <= j < dst.Length ==>
                  dst[j] == if at <= j < at + i then src[j - at] else old(dst[j])
    {
      dst[at + i] := src[i];
      i := i + 1;
    }
  }

  method PutUint32(v: nat, dst: array<byte>, at: nat)
    requires at + 4 <= dst.Length
    modifies dst
    ensures dst[..at] == old(dst[..at]) && dst[at..at + 4] == Big(v, 4) && dst[at + 4..] == old(dst[at + 4..])
  {
    BigFour(v);
    Copy([v / 256 / 256 / 256 % 256, v / 256 / 256 % 256, v / 256 % 256, v % 256], dst, at);
  }

  method EncodeInner(f: Frame) returns (inner: array<byte>)
    ensures fresh(inner) && inner[..] == Inner(f)
  {
    hide Big;
    inner := new byte[FrameHeaderSize + |f.body|];
    inner[0], inner[1] := f.typ, f.flags;
    assert inner[..2] == [f.typ, f.flags];
    PutUint32(f.msgID, inner, 2);
    assert inner[..6] == inner[..2] + inner[2..6];
    Copy(f.body, inner, 6);
    assert inner[..] == inner[..6] + inner[6..6 + |f.body|];
  }

  method EncodeMVCPFrame(f: Frame) returns (b: Bytes)
    ensures b == Encode(f)
  {
    hide Big, Inner;
    var inner := EncodeInner(f);
    var frame := new byte[4 + inner.Length];
    PutUint32(inner.Length, frame, 0);
    assert frame[..4] == frame[0..4];
    Copy(inner[..], frame, 4);
    assert frame[..] == frame[..4] + frame[4..4 + |inner[..]|];
    b := frame[..];
  }

  method ReadFrame(r: Reader) returns (p: Option<Bytes>)
    modifies r
    ensures p == Result(GetPayload(old(r.rest))) && (p.Some? ==> r.rest == GetPayload(old(r.rest)).rest)
  {
    var length := r.ReadUint(4);
    if length.None? || length.value > MaxFrameSize {
      return None;
    }
    p := r.ReadFull(length.value);
  }

  method ReadMVCPFrame(r: Reader) returns (f: Option<Frame>)
    modifies r
    ensures f == Result(GetFrame(old(r.rest))) && (f.Some? ==> r.rest == GetFrame(old(r.rest)).rest)
  {
    var payload := ReadFrame(r);
    if payload.None? || |payload.value| < FrameHeaderSize {
      return None;
    }
    var p := payload.value;
    var id := new Reader(p[2..6]);
    var msgID := id.ReadUint(4);
    assert p[2..6][..4] == p[2..6];
    f := Some(Frame(p[0], p[1], msgID.value, p[6..]));
  }
}
