/** The bodies of the seven APP_* messages (protocol/messages/app.go). */
module AppCodec {
  import opened Basics
  import opened Wire
  import opened AppLimits
  import opened AppMessages

  const TypeAppOpen: nat := 0x50
  const TypeAppAccept: nat := 0x51
  const TypeAppReject: nat := 0x52
  const TypeAppData: nat := 0x53
  const TypeAppCredit: nat := 0x54
  const TypeAppClose: nat := 0x55
  const TypeAppReset: nat := 0x56

  function TypeOf(m: AppMsg): nat {
    match m
    case AppOpen(_, _, _) => TypeAppOpen
    case AppAccept(_, _, _) => TypeAppAccept
    case AppReject(_, _, _) => TypeAppReject
    case AppData(_, _) => TypeAppData
    case AppCredit(_, _) => TypeAppCredit
    case AppClose(_) => TypeAppClose
    case AppReset(_, _, _) => TypeAppReset
  }

  function Fields(m: AppMsg): seq<Field> {
    match m
    case AppOpen(id, service, meta) => [Num(4, id), Blob(2, service), Blob(4, meta)]
    case AppAccept(id, meta, grant) => [Num(4, id), Blob(4, meta), Num(4, grant)]
    case AppReject(id, code, message) => [Num(4, id), Num(2, code), Blob(2, message)]
    case AppData(id, data) => [Num(4, id), Blob(4, data)]
    case AppCredit(id, n) => [Num(4, id), Num(4, n)]
    case AppClose(id) => [Num(4, id)]
    case AppReset(id, code, message) => [Num(4, id), Num(2, code), Blob(2, message)]
  }

  /** The layout of a message type; empty for a type that is no APP_* message. */
  function Layout(t: nat): seq<Shape> {
    if t == TypeAppOpen then [NumOf(4), BlobOf(2), BlobOf(4)]
    else if t == TypeAppAccept then [NumOf(4), BlobOf(4), NumOf(4)]
    else if t == TypeAppReject || t == TypeAppReset then [NumOf(4), NumOf(2), BlobOf(2)]
    else if t == TypeAppData then [NumOf(4), BlobOf(4)]
    else if t == TypeAppCredit then [NumOf(4), NumOf(4)]
    else if t == TypeAppClose then [NumOf(4)]
    else []
  }

  function FromFields(t: nat, fs: seq<Field>): AppMsg
    requires Layout(t) != [] && Shapes(fs) == Layout(t)
  {
    ShapesAre(fs);
    if t == TypeAppOpen then AppOpen(fs[0].value, fs[1].data, fs[2].data)
    else if t == TypeAppAccept then AppAccept(fs[0].value, fs[1].data, fs[2].value)
    else if t == TypeAppReject then AppReject(fs[0].value, fs[1].value, fs[2].data)
    else if t == TypeAppReset then AppReset(fs[0].value, fs[1].value, fs[2].data)
    else if t == TypeAppData then AppData(fs[0].value, fs[1].data)
    else if t == TypeAppCredit then AppCredit(fs[0].value, fs[1].value)
    else AppClose(fs[0].value)
  }

  lemma {:induction false} ShapesAre(fs: seq<Field>)
    ensures forall i :: 0 <= i < |fs| ==> Shapes(fs)[i] == ShapeOf(fs[i])
  {
    if fs != [] {
      ShapesAre(fs[1..]);
      forall i | 0 < i < |fs| ensures Shapes(fs)[i] == ShapeOf(fs[i]) {
        assert fs[i] == fs[1..][i - 1];
      }
    }
  }

  function Body(m: AppMsg): Bytes {
    Put(Fields(m))
  }

  function Decode(t: nat, body: Bytes): Option<AppMsg> {
    if Layout(t) == [] then None
    else match Strict(Layout(t), body)
         case None => None
         case Some(fs) => StrictShape(Layout(t), body); Some(FromFields(t, fs))
  }

  lemma FieldsLayout(m: AppMsg)
    ensures Shapes(Fields(m)) == Layout(TypeOf(m)) != []
    ensures FromFields(TypeOf(m), Fields(m)) == m
    ensures AllFit(Fields(m)) <==> Typed(m) && Fits(m)
  {
    var fs := Fields(m);
    ShapesAre(fs);
    assert |Shapes(fs)| == |Layout(TypeOf(m))|;
    assert Shapes(fs) == Layout(TypeOf(m));
    Spans();
    assert FieldFits(fs[0]) <==> m.streamID < Uint32Space;
    if |fs| > 1 {
      assert AllFit(fs) <==> FieldFits(fs[0]) && FieldFits(fs[1]) && (|fs| > 2 ==> FieldFits(fs[2]));
    }
  }

  lemma FieldsOf(t: nat, fs: seq<Field>)
    requires Layout(t) != [] && Shapes(fs) == Layout(t)
    ensures TypeOf(FromFields(t, fs)) == t && Fields(FromFields(t, fs)) == fs
  {
    ShapesAre(fs);
  }

  /** A body decodes to a message exactly if it is the encoding of that message and every length fits. */
  lemma DecodeIff(t: nat, body: Bytes, m: AppMsg)
    ensures Decode(t, body) == Some(m) <==> t == TypeOf(m) && body == Body(m) && Typed(m) && Fits(m)
  {
    FieldsLayout(m);
    if t == TypeOf(m) {
      StrictInverse(Layout(t), body, Fields(m));
    }
    if Decode(t, body).Some? {
      StrictShape(Layout(t), body);
      FieldsOf(t, Strict(Layout(t), body).value);
    }
  }

  lemma DecodeInjective(t: nat, a: Bytes, b: Bytes)
    requires Decode(t, a) == Decode(t, b) != None
    ensures a == b
  {
    DecodeIff(t, a, Decode(t, a).value);
    DecodeIff(t, b, Decode(t, b).value);
  }

  lemma DecodeRejectsMore(t: nat, body: Bytes, more: Bytes)
    requires Decode(t, body).Some? && more != []
    ensures Decode(t, body + more).None?
  {
    StrictRejectsMore(Layout(t), body, more);
  }

  /** What a session may hand to the encoder: the size checks of MarshalBinary pass and the service id is short. */
  predicate Sendable(m: AppMsg) {
    && Typed(m)
    && match m
       case AppOpen(_, service, meta) => |service| < Uint16Space && |meta| <= AppMaxMetaBytes
       case AppAccept(_, meta, _) => |meta| <= AppMaxMetaBytes
       case AppData(_, data) => |data| <= AppMaxDataBytes
       case _ => true
  }

  /** A reason longer than its length field arrives with bytes to spare and is refused. */
  lemma LongReasonRefused(t: nat, id: nat, code: nat, message: Bytes)
    requires t == TypeAppReject || t == TypeAppReset
    requires |message| >= Uint16Space
    ensures Decode(t, Put([Num(4, id), Num(2, code), Blob(2, message)])).None?
  {
    var b := Put([Num(4, id), Num(2, code), Blob(2, message)]);
    PutThree(Num(4, id), Num(2, code), Blob(2, message));
    var tail := PutField(Blob(2, message));
    GetThree(NumOf(4), NumOf(2), BlobOf(2), b);
    assert b == Big(id, 4) + (Big(code, 2) + tail);
    GetPutNum(4, id, Big(code, 2) + tail);
    GetPutNum(2, code, tail);
    GetPutNum(2, |message|, message);
    ValBig(|message|, 2);
    Spans();
  }

  /** What the peer makes of any message a session sends. */
  lemma SentDecodes(m: AppMsg)
    requires Sendable(m)
    ensures Decode(TypeOf(m), Body(m)) == if Fits(m) then Some(m) else None
  {
    if Fits(m) {
      DecodeIff(TypeOf(m), Body(m), m);
    } else {
      LongReasonRefused(TypeOf(m), m.streamID, m.code, m.message);
    }
  }

  // ---- Short layouts written out ----

  lemma PutTwo(a: Field, b: Field)
    ensures Put([a]) == PutField(a) && Put([a, b]) == PutField(a) + PutField(b)
  {
    hide PutField;
    assert [a][1..] == [] && [a, b][1..] == [b] && [b][1..] == [];
  }

  lemma PutThree(a: Field, b: Field, c: Field)
    ensures Put([a, b, c]) == PutField(a) + PutField(b) + PutField(c)
  {
    hide PutField;
    assert [a, b, c][1..] == [b, c];
    PutTwo(b, c);
  }

  lemma GetOne(a: Shape, x: Bytes)
    ensures Get([a], x) == match GetField(a, x) case Malformed => Malformed case Parsed(f, r) => Parsed([f], r)
  {
    hide GetField;
    assert [a][1..] == [];
    var p := GetField(a, x);
    if p.Parsed? {
      assert [p.value] + [] == [p.value];
    }
  }

  lemma GetTwo(a: Shape, b: Shape, x: Bytes)
    ensures Get([a, b], x) ==
            match GetField(a, x)
            case Malformed => Malformed
            case Parsed(f, r) =>
              match GetField(b, r) case Malformed => Malformed case Parsed(g, r') => Parsed([f, g], r')
  {
    hide GetField;
    assert [a, b][1..] == [b];
    var p := GetField(a, x);
    if p.Parsed? {
      GetOne(b, p.rest);
      var q := GetField(b, p.rest);
      if q.Parsed? {
        assert [p.value] + [q.value] == [p.value, q.value];
      }
    }
  }

  lemma GetThree(a: Shape, b: Shape, c: Shape, x: Bytes)
    ensures Get([a, b, c], x) ==
            match GetField(a, x)
            case Malformed => Malformed
            case Parsed(f, r) =>
              match GetField(b, r)
              case Malformed => Malformed
              case Parsed(g, r') =>
                match GetField(c, r') case Malformed => Malformed case Parsed(h, r'') => Parsed([f, g, h], r'')
  {
    hide GetField;
    assert [a, b, c][1..] == [b, c];
    var p := GetField(a, x);
    if p.Parsed? {
      GetTwo(b, c, p.rest);
      var q := Get([b, c], p.rest);
      if q.Parsed? {
        assert [p.value] + q.value == [p.value, q.value[0], q.value[1]];
      }
    }
  }
}
