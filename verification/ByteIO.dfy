/** The primitives of protocol/encode.go and protocol/decode.go on a growing buffer and a draining reader. */
module ByteIO {
  import opened Basics
  import opened Wire

  class Buffer {
    var data: Bytes

    constructor ()
      ensures data == []
    {
      data := [];
    }

    method WriteUint8(v: nat)
      modifies this
      ensures data == old(data) + PutField(Num(1, v))
    {
      data := data + [v % 256];
    }

    method WriteUint16(v: nat)
      modifies this
      ensures data == old(data) + PutField(Num(2, v))
    {
      data := data + [v / 256 % 256, v % 256];
      assert Big(v, 2) == Big(v / 256, 1) + [v % 256];
    }

    method WriteUint32(v: nat)
      modifies this
      ensures data == old(data) + PutField(Num(4, v))
    {
      data := data + [v / 256 / 256 / 256 % 256, v / 256 / 256 % 256, v / 256 % 256, v % 256];
      BigFour(v);
    }

    method WriteUint64(v: nat)
      modifies this
      ensures data == old(data) + PutField(Num(8, v))
    {
      var high := v / 256 / 256 / 256 / 256;
      WriteUint32(high);
      WriteUint32(v);
      BigEight(v);
    }

    method WriteString(s: Bytes)
      modifies this
      ensures data == old(data) + PutField(Blob(2, s))
    {
      WriteUint16(|s|);
      data := data + s;
    }

    method WriteBytes(b: Bytes)
      modifies this
      ensures data == old(data) + PutField(Blob(4, b))
    {
      WriteUint32(|b|);
      data := data + b;
    }
  }

  lemma BigFour(v: nat)
    ensures Big(v, 4) == [v / 256 / 256 / 256 % 256, v / 256 / 256 % 256, v / 256 % 256, v % 256]
  {
    var a, b, c := v / 256, v / 256 / 256, v / 256 / 256 / 256;
    assert Big(c, 1) == [c % 256];
    assert Big(b, 2) == Big(c, 1) + [b % 256];
    assert Big(a, 3) == Big(b, 2) + [a % 256];
    assert Big(v, 4) == Big(a, 3) + [v % 256];
  }

  lemma BigEight(v: nat)
    ensures Big(v, 8) == Big(v / 256 / 256 / 256 / 256, 4) + Big(v, 4)
  {
    var a, b, c, d := v / 256, v / 256 / 256, v / 256 / 256 / 256, v / 256 / 256 / 256 / 256;
    BigFour(v);
    assert Big(c, 5) == Big(d, 4) + [c % 256];
    assert Big(b, 6) == Big(c, 5) + [b % 256];
    assert Big(a, 7) == Big(b, 6) + [a % 256];
    assert Big(v, 8) == Big(a, 7) + [v % 256];
  }

  /** What a read returns: the parsed value, or an error. */
  function Result<T>(p: Parse<T>): Option<T> {
    if p.Parsed? then Some(p.value) else None
  }

  class Reader {
    var rest: Bytes

    constructor (data: Bytes)
      ensures rest == data
    {
      rest := data;
    }

    /** All n bytes or an error; an error leaves nothing to read. */
    method ReadFull(n: nat) returns (r: Option<Bytes>)
      modifies this
      ensures if n <= |old(rest)| then r == Some(old(rest)[..n]) && rest == old(rest)[n..] else r.None? && rest == []
    {
      if n <= |rest| {
        r := Some(rest[..n]);
        rest := rest[n..];
      } else {
        r := None;
        rest := [];
      }
    }

    method ReadUint(w: nat) returns (r: Option<nat>)
      modifies this
      ensures r == Result(GetNum(w, old(rest))) && (r.Some? ==> rest == GetNum(w, old(rest)).rest)
    {
      var buf := ReadFull(w);
      if buf.None? {
        return None;
      }
      var v: nat, i: nat := 0, 0;
      while i < w
        invariant 0 <= i <= w && v == Val(buf.value[..i])
      {
        assert buf.value[..i + 1][..i] == buf.value[..i];
        v := 256 * v + buf.value[i];
        i := i + 1;
      }
      assert buf.value[..w] == buf.value;
      r := Some(v);
    }

    /** ReadString has a length of two bytes, ReadBytes one of four. */
    method ReadBlob(w: nat) returns (r: Option<Bytes>)
      modifies this
      ensures r == Result(GetBlob(w, old(rest))) && (r.Some? ==> rest == GetBlob(w, old(rest)).rest)
    {
      var length := ReadUint(w);
      if length.None? {
        return None;
      }
      if length.value == 0 {
        assert rest[..0] == [] && rest[0..] == rest;
        return Some([]);
      }
      r := ReadFull(length.value);
    }
  }
}
