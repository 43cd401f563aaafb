/** The heartbeat message and its extensions (protocol/messages/status.go). */
module Heartbeat {
  import opened Basics
  import opened Wire
  import opened ByteIO

  const ExtHealth: nat := 4
  const ExtFailureReason: nat := 5
  const StateFailed: byte := 5
  const HealthHealthy: byte := 0

  datatype Extension = Extension(typ: nat, value: Bytes)

  datatype Heartbeat = Heartbeat(bootID: nat, sequence: nat, state: byte, flags: byte,
                                 health: byte, reason: Bytes, exts: seq<Extension>)

  // ---- Projection ----

  predicate Has(es: seq<Extension>, typ: nat) {
    exists i :: 0 <= i < |es| && es[i].typ == typ
  }

  /** An explicit extension as it goes out: the Health and FailureReason fields win over it. */
  function Projected(m: Heartbeat, e: Extension): Extension {
    if e.typ == ExtHealth then e.(value := [m.health])
    else if e.typ == ExtFailureReason && m.reason != [] then e.(value := m.reason)
    else e
  }

  function ProjectedAll(m: Heartbeat, es: seq<Extension>): (out: seq<Extension>)
    ensures |out| == |es| && forall i :: 0 <= i < |es| ==> out[i] == Projected(m, es[i])
  {
    if es == [] then [] else ProjectedAll(m, es[..|es| - 1]) + [Projected(m, es[|es| - 1])]
  }

  function Materialized(m: Heartbeat): seq<Extension> {
    ProjectedAll(m, m.exts)
    + (if Has(m.exts, ExtHealth) then [] else [Extension(ExtHealth, [m.health])])
    + (if m.state == StateFailed && m.reason != [] && !Has(m.exts, ExtFailureReason)
       then [Extension(ExtFailureReason, m.reason)] else [])
  }

  /** What the decoder makes of the extensions: the last one of a type wins; an empty health value does not count. */
  function HealthIn(es: seq<Extension>): byte {
    if es == [] then HealthHealthy
    else
      var e := es[|es| - 1];
      if e.typ == ExtHealth && e.value != [] then e.value[0] else HealthIn(es[..|es| - 1])
  }

  function ReasonIn(es: seq<Extension>): Bytes {
    if es == [] then []
    else if es[|es| - 1].typ == ExtFailureReason then es[|es| - 1].value
    else ReasonIn(es[..|es| - 1])
  }

  lemma {:induction false} HealthProjected(m: Heartbeat, es: seq<Extension>)
    ensures HealthIn(ProjectedAll(m, es)) == if Has(es, ExtHealth) then m.health else HealthHealthy
  {
    if es != [] {
      var init := es[..|es| - 1];
      HealthProjected(m, init);
      assert ProjectedAll(m, es)[..|init|] == ProjectedAll(m, init);
      assert forall i :: 0 <= i < |init| ==> es[i] == init[i];
    }
  }

  lemma {:induction false} ReasonProjected(m: Heartbeat, es: seq<Extension>)
    ensures ReasonIn(ProjectedAll(m, es)) ==
            if m.reason == [] then ReasonIn(es) else if Has(es, ExtFailureReason) then m.reason else []
  {
    if es != [] {
      var init := es[..|es| - 1];
      ReasonProjected(m, init);
      assert ProjectedAll(m, es)[..|init|] == ProjectedAll(m, init);
      assert forall i :: 0 <= i < |init| ==> es[i] == init[i];
    }
  }

  /** The reason that arrives. */
  function Reported(m: Heartbeat): Bytes {
    if m.reason == [] then ReasonIn(m.exts)
    else if m.state == StateFailed || Has(m.exts, ExtFailureReason) then m.reason
    else []
  }

  lemma HealthMaterialized(m: Heartbeat)
    ensures HealthIn(Materialized(m)) == m.health
  {
    var base := ProjectedAll(m, m.exts);
    HealthProjected(m, m.exts);
    var h := if Has(m.exts, ExtHealth) then [] else [Extension(ExtHealth, [m.health])];
    assert h != [] ==> (base + h)[..|base|] == base;
    assert base + [] == base;
    var all := Materialized(m);
    assert all != base + h ==> all[..|all| - 1] == base + h;
  }

  lemma ReasonMaterialized(m: Heartbeat)
    ensures ReasonIn(Materialized(m)) == Reported(m)
  {
    var base := ProjectedAll(m, m.exts);
    ReasonProjected(m, m.exts);
    var h := if Has(m.exts, ExtHealth) then [] else [Extension(ExtHealth, [m.health])];
    assert h != [] ==> (base + h)[..|base|] == base;
    assert base + [] == base;
    assert base + h + [] == base + h;
  }

  // ---- Bytes ----

  function PutExt(e: Extension): Bytes {
    Big(e.typ, 2) + Big(|e.value|, 2) + e.value
  }

  function PutExts(es: seq<Extension>): Bytes {
    if es == [] then [] else PutExt(es[0]) + PutExts(es[1..])
  }

  function Header(m: Heartbeat, payload: nat): Bytes {
    Big(m.bootID, 8) + Big(m.sequence, 8) + [m.state, m.flags] + Big(payload, 2)
  }

  function Marshalled(m: Heartbeat): Bytes {
    var body := PutExts(Materialized(m));
    Header(m, |body|) + body
  }

  /** One entry, of which the header is there. */
  function GetExt(b: Bytes): (p: Parse<Extension>)
    requires |b| >= 4
    ensures p.Parsed? ==> |p.rest| < |b|
  {
    var n := Val(b[2..4]);
    if |b| - 4 < n then Malformed else Parsed(Extension(Val(b[..2]), b[4..4 + n]), b[4 + n..])
  }

  /** Entries while a whole header is left; fewer than four bytes at the end are ignored. */
  function GetExts(b: Bytes): Option<seq<Extension>>
    decreases |b|
  {
    if |b| < 4 then Some([])
    else match GetExt(b)
         case Malformed => None
         case Parsed(e, r) => match GetExts(r) case None => None case Some(es) => Some([e] + es)
  }

  function Unmarshalled(b: Bytes): Option<Heartbeat> {
    if |b| < 20 then None
    else
      var n := Val(b[18..20]);
      if |b| - 20 < n then None
      else match GetExts(b[20..20 + n])
           case None => None
           case Some(es) =>
             Some(Heartbeat(Val(b[..8]), Val(b[8..16]), b[16], b[17], HealthIn(es), ReasonIn(es), es))
  }

  predicate ExtsFit(es: seq<Extension>) {
    forall i :: 0 <= i < |es| ==> es[i].typ < Span(2) && |es[i].value| < Span(2)
  }

  /** The numbers have their types and the extensions fit their 16-bit lengths. */
  predicate Fits(m: Heartbeat) {
    && m.bootID < Span(8) && m.sequence < Span(8)
    && ExtsFit(Materialized(m)) && |PutExts(Materialized(m))| < Span(2)
  }

  lemma PutExtHead(e: Extension, rest: Bytes)
    requires e.typ < Span(2) && |e.value| < Span(2)
    ensures |PutExt(e)| >= 4 && GetExt(PutExt(e) + rest) == Parsed(e, rest)
  {
    hide Big, Val;
    var b := PutExt(e) + rest;
    ValBig(e.typ, 2);
    ValBig(|e.value|, 2);
    assert b[..2] == Big(e.typ, 2) && b[2..4] == Big(|e.value|, 2);
    assert b[4..4 + |e.value|] == e.value && b[4 + |e.value|..] == rest;
  }

  lemma {:induction false} PutExtsTail(es: seq<Extension>, tail: Bytes)
    requires ExtsFit(es) && |tail| < 4
    ensures GetExts(PutExts(es) + tail) == Some(es)
  {
    hide PutExt, GetExt;
    if es == [] {
      assert PutExts(es) + tail == tail;
    } else {
      var e, rest := es[0], PutExts(es[1..]) + tail;
      PutExtsTail(es[1..], tail);
      PutExtHead(e, rest);
      assert PutExts(es) + tail == PutExt(e) + rest;
      assert [e] + es[1..] == es;
    }
  }

  lemma GetPutExts(es: seq<Extension>)
    requires ExtsFit(es)
    ensures GetExts(PutExts(es)) == Some(es)
  {
    hide GetExts, PutExts;
    PutExtsTail(es, []);
    assert PutExts(es) + [] == PutExts(es);
  }

  lemma GetExtHead(b: Bytes)
    requires |b| >= 4 && GetExt(b).Parsed?
    ensures var p := GetExt(b); p.value.typ < Span(2) && |p.value.value| < Span(2) && b == PutExt(p.value) + p.rest
  {
    hide Big, Val;
    BigVal(b[..2]);
    BigVal(b[2..4]);
    ValBound(b[..2]);
    ValBound(b[2..4]);
    var n := Val(b[2..4]);
    assert b == b[..2] + b[2..4] + b[4..4 + n] + b[4 + n..];
  }

  lemma {:induction false} GetExtsExact(b: Bytes) returns (tail: Bytes)
    requires GetExts(b).Some?
    ensures ExtsFit(GetExts(b).value) && |tail| < 4 && b == PutExts(GetExts(b).value) + tail
    decreases |b|
  {
    hide PutExt, GetExt;
    if |b| < 4 {
      tail := b;
    } else {
      var p := GetExt(b);
      tail := GetExtsExact(p.rest);
      GetExtHead(b);
      var es, more := GetExts(b).value, GetExts(p.rest).value;
      assert es == [p.value] + more && es[1..] == more;
      assert b == PutExt(p.value) + (PutExts(more) + tail);
    }
  }

  /** Bytes decode to these extensions exactly if they are their encoding and fewer than four bytes more. */
  lemma ExtensionsIff(b: Bytes, es: seq<Extension>)
    ensures GetExts(b) == Some(es) <==> ExtsFit(es) && exists tail: Bytes :: |tail| < 4 && b == PutExts(es) + tail
  {
    hide GetExts, PutExts;
    if GetExts(b) == Some(es) {
      var tail := GetExtsExact(b);
    }
    if ExtsFit(es) {
      forall tail: Bytes | |tail| < 4 && b == PutExts(es) + tail ensures GetExts(b) == Some(es) {
        PutExtsTail(es, tail);
      }
    }
  }

  /** A heartbeat decodes exactly if header and extensions are all there; what follows them is ignored. */
  lemma HeartbeatIff(b: Bytes)
    ensures Unmarshalled(b).Some? <==>
            |b| >= 20 && |b| >= 20 + Val(b[18..20]) && GetExts(b[20..20 + Val(b[18..20])]).Some?
    ensures Unmarshalled(b).Some? ==>
              var m, n := Unmarshalled(b).value, Val(b[18..20]);
              && b[..20] == Header(m, n) && GetExts(b[20..20 + n]) == Some(m.exts)
              && m.health == HealthIn(m.exts) && m.reason == ReasonIn(m.exts)
  {
    hide Big, Val, GetExts, HealthIn, ReasonIn;
    if Unmarshalled(b).Some? {
      BigVal(b[..8]);
      BigVal(b[8..16]);
      BigVal(b[18..20]);
      assert b[..20] == b[..8] + b[8..16] + [b[16], b[17]] + b[18..20];
    }
  }

  /**
   A heartbeat that fits arrives with its header and its Health, with the materialized
   extensions in order, and with its reason exactly as `Reported` says: in particular
   unchanged when the state is Failed and the reason is not empty.
   */
  lemma HeartbeatRoundTrip(m: Heartbeat)
    requires Fits(m)
    ensures Unmarshalled(Marshalled(m)) == Some(m.(exts := Materialized(m), reason := Reported(m)))
    ensures m.state == StateFailed && m.reason != [] ==> Unmarshalled(Marshalled(m)).value.reason == m.reason
  {
    hide Materialized, HealthIn, ReasonIn, Header, GetExts, PutExts;
    var body := PutExts(Materialized(m));
    HealthMaterialized(m);
    ReasonMaterialized(m);
    GetPutExts(Materialized(m));
    HeaderSlices(m, body);
  }

  lemma HeaderSlices(m: Heartbeat, body: Bytes)
    requires m.bootID < Span(8) && m.sequence < Span(8) && |body| < Span(2)
    ensures var b := Header(m, |body|) + body;
            && |b| == 20 + |body| && Val(b[..8]) == m.bootID && Val(b[8..16]) == m.sequence
            && b[16] == m.state && b[17] == m.flags && Val(b[18..20]) == |body| && b[20..20 + |body|] == body
  {
    hide Big, Val;
    var b := Header(m, |body|) + body;
    ValBig(m.bootID, 8);
    ValBig(m.sequence, 8);
    ValBig(|body|, 2);
    assert b[..8] == Big(m.bootID, 8);
    assert b[8..16] == Big(m.sequence, 8);
    assert b[18..20] == Big(|body|, 2);
  }

  // ---- The code ----

  method MaterializedExtensions(m: Heartbeat) returns (out: seq<Extension>)
    ensures out == Materialized(m)
  {
    out := [];
    var seenHealth, seenReason := false, false;
    var i := 0;
    while i < |m.exts|
      invariant 0 <= i <= |m.exts| && out == ProjectedAll(m, m.exts[..i])
      invariant seenHealth <==> Has(m.exts[..i], ExtHealth)
      invariant seenReason <==> Has(m.exts[..i], ExtFailureReason)
    {
      var e := m.exts[i];
      if e.typ == ExtHealth {
        seenHealth := true;
        e := e.(value := [m.health]);
      } else if e.typ == ExtFailureReason {
        seenReason := true;
        if m.reason != [] {
          e := e.(value := m.reason);
        }
      }
      HasNext(m.exts, i, ExtHealth);
      HasNext(m.exts, i, ExtFailureReason);
      assert m.exts[..i + 1][..i] == m.exts[..i];
      out := out + [e];
      i := i + 1;
    }
    assert m.exts[..i] == m.exts;
    if !seenHealth {
      out := out + [Extension(ExtHealth, [m.health])];
    }
    if m.state == StateFailed && m.reason != [] && !seenReason {
      out := out + [Extension(ExtFailureReason, m.reason)];
    }
  }

  lemma HasNext(es: seq<Extension>, i: nat, typ: nat)
    requires i < |es|
    ensures Has(es[..i + 1], typ) <==> Has(es[..i], typ) || es[i].typ == typ
  {
    assert es[..i + 1] == es[..i] + [es[i]];
    if Has(es[..i], typ) {
      var k :| 0 <= k < i && es[..i][k].typ == typ;
      assert es[..i + 1][k].typ == typ;
    }
    if es[i].typ == typ {
      assert es[..i + 1][i].typ == typ;
    }
  }

  method WriteExtensions(w: Buffer, es: seq<Extension>)
    modifies w
    ensures w.data == old(w.data) + PutExts(es)
  {
    hide PutField;
    var i := 0;
    while i < |es|
      invariant 0 <= i <= |es| && w.data == old(w.data) + PutExts(es[..i])
    {
      WriteExtension(w, es[i]);
      PutExtsSnoc(es[..i], es[i]);
      assert es[..i + 1] == es[..i] + [es[i]];
      i := i + 1;
    }
    assert es[..i] == es;
  }

  method WriteExtension(w: Buffer, e: Extension)
    modifies w
    ensures w.data == old(w.data) + PutExt(e)
  {
    hide Big;
    w.WriteUint16(e.typ);
    w.WriteUint16(|e.value|);
    w.data := w.data + e.value;
  }

  lemma {:induction false} PutExtsSnoc(es: seq<Extension>, e: Extension)
    ensures PutExts(es + [e]) == PutExts(es) + PutExt(e)
  {
    hide PutExt;
    if es == [] {
      assert (es + [e])[1..] == [];
    } else {
      assert (es + [e])[1..] == es[1..] + [e];
      PutExtsSnoc(es[1..], e);
    }
  }

  method MarshalBinary(m: Heartbeat) returns (b: Bytes)
    ensures b == Marshalled(m)
  {
    hide Big, Materialized, PutExts;
    var buf := new Buffer();
    buf.WriteUint64(m.bootID);
    assert buf.data == Big(m.bootID, 8);
    buf.WriteUint64(m.sequence);
    buf.WriteUint8(m.state);
    buf.WriteUint8(m.flags);
    OneByte(m.state);
    OneByte(m.flags);
    assert buf.data == Big(m.bootID, 8) + Big(m.sequence, 8) + [m.state, m.flags];
    var exts := MaterializedExtensions(m);
    var extBuf := new Buffer();
    WriteExtensions(extBuf, exts);
    assert extBuf.data == PutExts(exts);
    buf.WriteUint16(|extBuf.data|);
    b := buf.data + extBuf.data;
  }

  /** One entry, of which the header is known to be there. */
  method ReadExtension(r: Reader) returns (e: Option<Extension>)
    requires |r.rest| >= 4
    modifies r
    ensures var b := old(r.rest);
            var n := Val(b[2..4]);
            if |b| - 4 < n then e.None? else e == Some(Extension(Val(b[..2]), b[4..4 + n])) && r.rest == b[4 + n..]
  {
    hide Val;
    ghost var b := r.rest;
    assert b[2..][..2] == b[2..4] && b[2..][2..] == b[4..];
    var typ := r.ReadUint(2);
    var length := r.ReadUint(2);
    if |r.rest| < length.value {
      return None;
    }
    var value := r.ReadFull(length.value);
    assert b[4..][..length.value] == b[4..4 + length.value];
    e := Some(Extension(typ.value, value.value));
  }

  method ParseExtensions(raw: Bytes) returns (exts: Option<seq<Extension>>)
    ensures exts == GetExts(raw)
  {
    hide Val;
    var r := new Reader(raw);
    var es: seq<Extension> := [];
    ghost var all := GetExts(raw);
    if all.Some? {
      assert es + all.value == all.value;
    }
    while |r.rest| >= 4
      invariant all == Joined(es, GetExts(r.rest))
      decreases |r.rest|
    {
      JoinStep(es, r.rest);
      var e := ReadExtension(r);
      if e.None? {
        return None;
      }
      es := es + [e.value];
    }
    assert es + [] == es;
    exts := Some(es);
  }

  method ReadExtensions(r: Reader, payload: nat) returns (exts: Option<seq<Extension>>)
    modifies r
    ensures var b := old(r.rest);
            exts == if |b| < payload then None else GetExts(b[..payload])
  {
    if payload == 0 {
      assert r.rest[..0] == [];
      return Some([]);
    }
    var raw := r.ReadFull(payload);
    if raw.None? {
      return None;
    }
    exts := ParseExtensions(raw.value);
  }

  function Joined(es: seq<Extension>, rest: Option<seq<Extension>>): Option<seq<Extension>> {
    if rest.None? then None else Some(es + rest.value)
  }

  lemma JoinStep(es: seq<Extension>, b: Bytes)
    requires |b| >= 4
    ensures var n := Val(b[2..4]);
            Joined(es, GetExts(b)) ==
            if |b| - 4 < n then None
            else Joined(es + [Extension(Val(b[..2]), b[4..4 + n])], GetExts(b[4 + n..]))
  {
    hide Val;
    var n := Val(b[2..4]);
    if |b| - 4 >= n {
      var e, more := Extension(Val(b[..2]), b[4..4 + n]), GetExts(b[4 + n..]);
      if more.Some? {
        assert es + ([e] + more.value) == es + [e] + more.value;
      }
    }
  }

  method UnmarshalBinary(data: Bytes) returns (m: Option<Heartbeat>)
    ensures m == Unmarshalled(data)
  {
    hide GetExts;
    var r := new Reader(data);
    var bootID := r.ReadUint(8);
    if bootID.None? {
      return None;
    }
    var sequence := r.ReadUint(8);
    if sequence.None? {
      return None;
    }
    var state := r.ReadUint(1);
    if state.None? {
      return None;
    }
    var flags := r.ReadUint(1);
    if flags.None? {
      return None;
    }
    var payload := r.ReadUint(2);
    if payload.None? {
      return None;
    }
    Fields(data);
    assert |data| - 20 >= payload.value ==> data[20..][..payload.value] == data[20..20 + payload.value];
    var exts := ReadExtensions(r, payload.value);
    if exts.None? {
      return None;
    }
    var health, reason := HealthHealthy, [];
    var i := 0;
    while i < |exts.value|
      invariant 0 <= i <= |exts.value|
      invariant health == HealthIn(exts.value[..i]) && reason == ReasonIn(exts.value[..i])
    {
      var e := exts.value[i];
      assert exts.value[..i + 1][..i] == exts.value[..i];
      if e.typ == ExtHealth {
        if |e.value| >= 1 {
          health := e.value[0];
        }
      } else if e.typ == ExtFailureReason {
        reason := e.value;
      }
      i := i + 1;
    }
    assert exts.value[..i] == exts.value;
    m := Some(Heartbeat(bootID.value, sequence.value, state.value, flags.value, health, reason, exts.value));
  }

  /** Where the fixed fields are. */
  lemma Fields(b: Bytes)
    requires |b| >= 20
    ensures b[8..][..8] == b[8..16] && b[8..][8..] == b[16..]
    ensures Val(b[16..][..1]) == b[16] && b[16..][1..] == b[17..]
    ensures Val(b[17..][..1]) == b[17] && b[17..][1..] == b[18..]
    ensures b[18..][..2] == b[18..20] && b[18..][2..] == b[20..]
  {
    assert b[16..][..1] == [b[16]] && b[17..][..1] == [b[17]];
    assert [b[16]][..0] == [] && [b[17]][..0] == [];
  }
}
