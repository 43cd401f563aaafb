/** MarshalBinary and UnmarshalBinary of the APP_* messages, field by field as protocol/messages/app.go does it. */
module AppMarshal {
  import opened Basics
  import opened Wire
  import opened ByteIO
  import opened AppLimits
  import opened AppMessages
  import opened AppCodec

  /** The size checks of the encoders. */
  predicate Marshals(m: AppMsg) {
    match m
    case AppOpen(_, _, meta) => |meta| <= AppMaxMetaBytes
    case AppAccept(_, meta, _) => |meta| <= AppMaxMetaBytes
    case AppData(_, data) => |data| <= AppMaxDataBytes
    case _ => true
  }

  method MarshalBinary(m: AppMsg) returns (r: Option<Bytes>)
    ensures r == if Marshals(m) then Some(Body(m)) else None
  {
    hide PutField;
    var buf := new Buffer();
    buf.WriteUint32(m.streamID);
    ghost var id := Num(4, m.streamID);
    assert buf.data == PutField(id);
    match m {
      case AppOpen(_, service, meta) =>
        if |meta| > AppMaxMetaBytes {
          return None;
        }
        buf.WriteString(service);
        buf.WriteBytes(meta);
        PutThree(id, Blob(2, service), Blob(4, meta));
      case AppAccept(_, meta, grant) =>
        if |meta| > AppMaxMetaBytes {
          return None;
        }
        buf.WriteBytes(meta);
        buf.WriteUint32(grant);
        PutThree(id, Blob(4, meta), Num(4, grant));
      case AppReject(_, code, message) =>
        buf.WriteUint16(code);
        buf.WriteString(message);
        PutThree(id, Num(2, code), Blob(2, message));
      case AppData(_, data) =>
        if |data| > AppMaxDataBytes {
          return None;
        }
        buf.WriteBytes(data);
        PutTwo(id, Blob(4, data));
      case AppCredit(_, n) =>
        buf.WriteUint32(n);
        PutTwo(id, Num(4, n));
      case AppClose(_) =>
        PutTwo(id, id);
      case AppReset(_, code, message) =>
        buf.WriteUint16(code);
        buf.WriteString(message);
        PutThree(id, Num(2, code), Blob(2, message));
    }
    r := Some(buf.data);
  }

  method UnmarshalOpen(data: Bytes) returns (m: Option<AppMsg>)
    ensures m == Decode(TypeAppOpen, data)
  {
    GetThree(NumOf(4), BlobOf(2), BlobOf(4), data);
    var r := new Reader(data);
    var id := r.ReadUint(4);
    if id.None? {
      return None;
    }
    var service := r.ReadBlob(2);
    if service.None? {
      return None;
    }
    var meta := r.ReadBlob(4);
    if meta.None? || r.rest != [] {
      return None;
    }
    m := Some(AppOpen(id.value, service.value, meta.value));
  }

  method UnmarshalAccept(data: Bytes) returns (m: Option<AppMsg>)
    ensures m == Decode(TypeAppAccept, data)
  {
    GetThree(NumOf(4), BlobOf(4), NumOf(4), data);
    var r := new Reader(data);
    var id := r.ReadUint(4);
    if id.None? {
      return None;
    }
    var meta := r.ReadBlob(4);
    if meta.None? {
      return None;
    }
    var grant := r.ReadUint(4);
    if grant.None? || r.rest != [] {
      return None;
    }
    m := Some(AppAccept(id.value, meta.value, grant.value));
  }

  /** APP_REJECT and APP_RESET have the same layout. */
  method UnmarshalReason(data: Bytes) returns (reject: Option<AppMsg>, reset: Option<AppMsg>)
    ensures reject == Decode(TypeAppReject, data) && reset == Decode(TypeAppReset, data)
  {
    GetThree(NumOf(4), NumOf(2), BlobOf(2), data);
    reject, reset := None, None;
    var r := new Reader(data);
    var id := r.ReadUint(4);
    if id.None? {
      return;
    }
    var code := r.ReadUint(2);
    if code.None? {
      return;
    }
    var message := r.ReadBlob(2);
    if message.None? || r.rest != [] {
      return;
    }
    reject := Some(AppReject(id.value, code.value, message.value));
    reset := Some(AppReset(id.value, code.value, message.value));
  }

  method UnmarshalData(data: Bytes) returns (m: Option<AppMsg>)
    ensures m == Decode(TypeAppData, data)
  {
    GetTwo(NumOf(4), BlobOf(4), data);
    var r := new Reader(data);
    var id := r.ReadUint(4);
    if id.None? {
      return None;
    }
    var d := r.ReadBlob(4);
    if d.None? || r.rest != [] {
      return None;
    }
    m := Some(AppData(id.value, d.value));
  }

  method UnmarshalCredit(data: Bytes) returns (m: Option<AppMsg>)
    ensures m == Decode(TypeAppCredit, data)
  {
    GetTwo(NumOf(4), NumOf(4), data);
    var r := new Reader(data);
    var id := r.ReadUint(4);
    if id.None? {
      return None;
    }
    var n := r.ReadUint(4);
    if n.None? || r.rest != [] {
      return None;
    }
    m := Some(AppCredit(id.value, n.value));
  }

  method UnmarshalClose(data: Bytes) returns (m: Option<AppMsg>)
    ensures m == Decode(TypeAppClose, data)
  {
    GetOne(NumOf(4), data);
    var r := new Reader(data);
    var id := r.ReadUint(4);
    if id.None? || r.rest != [] {
      return None;
    }
    m := Some(AppClose(id.value));
  }

  /** The message registry, for the types of the app channel; every other type is an error here. */
  method DecodeMessage(t: nat, body: Bytes) returns (m: Option<AppMsg>)
    ensures m == Decode(t, body)
  {
    hide Strict;
    if t == TypeAppOpen {
      m := UnmarshalOpen(body);
    } else if t == TypeAppAccept {
      m := UnmarshalAccept(body);
    } else if t == TypeAppReject || t == TypeAppReset {
      var reject, reset := UnmarshalReason(body);
      m := if t == TypeAppReject then reject else reset;
    } else if t == TypeAppData {
      m := UnmarshalData(body);
    } else if t == TypeAppCredit {
      m := UnmarshalCredit(body);
    } else if t == TypeAppClose {
      m := UnmarshalClose(body);
    } else {
      m := None;
    }
  }
}
