/** ServerHandshake and ClientHandshake as the sequences of reads and writes of protocol/handshake.go. */
module HandshakeCode {
  import opened Basics
  import opened AppLimits
  import opened Wire
  import opened ByteIO
  import opened Capabilities
  import opened Hello
  import opened HelloCodec
  import HelloCode
  import opened Handshake
  import F = Frames
  import C = AppCodec

  method WritePrefix(w: Buffer)
    modifies w
    ensures w.data == old(w.data) + (Magic + [MvcpVersion])
  {
    w.data := w.data + (Magic + [MvcpVersion]);
  }

  method WriteFrame(w: Buffer, f: F.Frame)
    modifies w
    ensures w.data == old(w.data) + F.Encode(f)
  {
    var b := F.EncodeMVCPFrame(f);
    w.data := w.data + b;
  }

  method WriteHandshakeError(w: Buffer, code: nat, text: Bytes)
    modifies w
    ensures w.data == old(w.data) + ErrorFrame(code, text)
  {
    var buf := new Buffer();
    buf.WriteUint16(code);
    assert buf.data == PutField(Num(2, code));
    buf.WriteString(text);
    C.PutTwo(Num(2, code), Blob(2, text));
    WriteFrame(w, F.Frame(TypeError, FlagResponse, 0, buf.data));
  }

  method ReadPeerHello(r: Reader) returns (p: PeerRead)
    modifies r
    ensures p == ReadPeer(old(r.rest))
  {
    var prefix := r.ReadFull(5);
    if prefix.None? {
      return Broken;
    }
    assert prefix.value[..4] == old(r.rest)[..4];
    if prefix.value[..4] != Magic {
      return BadMagic;
    }
    if prefix.value[4] != MvcpVersion {
      return BadVersion;
    }
    var frame := F.ReadMVCPFrame(r);
    if frame.None? {
      return Broken;
    }
    if frame.value.typ != TypeHello {
      return BadHello;
    }
    var h := HelloCode.UnmarshalBinary(frame.value.body);
    p := if h.None? then BadHello else Peer(h.value);
  }

  method RoleAccepted(role: nat, roles: seq<nat>) returns (ok: bool)
    ensures ok <==> role in roles
  {
    var i := 0;
    while i < |roles|
      invariant 0 <= i <= |roles| && role !in roles[..i]
    {
      if roles[i] == role {
        return true;
      }
      i := i + 1;
    }
    ok := false;
  }

  method NegotiateWith(p: Party, peer: Hello) returns (n: Agreement, ok: bool)
    ensures n == Common(Advertised(peer.caps), Advertised(p.hello.caps)) && (ok <==> Satisfied(p.reqs, n))
  {
    var theirs := HelloCode.AdvertisedOf(peer);
    var ours := HelloCode.AdvertisedOf(p.hello);
    n := Negotiate(theirs, ours);
    var bad := Check(p.reqs, n);
    ok := bad.None?;
  }

  /** The HELLO with its list in the order it was written in. */
  ghost function Said(h: Hello, b: Bytes): (said: Hello)
    requires HelloCode.Encodes(h, b)
    ensures said == h.(caps := said.caps) && Arranged(h.caps, said.caps) && b == HelloBytes(said)
  {
    var cs :| Arranged(h.caps, cs) && b == HelloBytes(h.(caps := cs));
    h.(caps := cs)
  }

  /** `text` is the wording of an error frame; `said` the HELLO as written. */
  method ServerHandshake(r: Reader, w: Buffer, p: Party, text: Bytes)
    returns (res: Outcome, ghost said: Hello)
    modifies r, w
    ensures said == p.hello.(caps := said.caps)
    ensures Marshalable(p.hello) ==> Arranged(p.hello.caps, said.caps)
    ensures res == ServerOutcome(p, old(r.rest))
    ensures w.data == old(w.data) + ServerSends(p, said, old(r.rest), text)
  {
    hide Marshalable, Arranged, ReadPeer, Common, Satisfied, HelloBytes, F.Encode, Advertised;
    res, said := Failed, p.hello;
    WritePrefix(w);
    var body := HelloCode.MarshalBinary(p.hello);
    if body.None? {
      return;
    }
    said := Said(p.hello, body.value);
    WriteFrame(w, F.Frame(TypeHello, 0, 0, body.value));
    assert w.data == old(w.data) + Opening(said);
    var peer := ReadPeerHello(r);
    if peer.BadHello? {
      WriteHandshakeError(w, BadPayload, text);
      return;
    }
    if !peer.Peer? {
      return;
    }
    var ok := RoleAccepted(peer.hello.role, p.roles);
    if !ok {
      WriteHandshakeError(w, UnexpectedRole, text);
      res := Rejected(UnexpectedRole);
      return;
    }
    var n, enough := NegotiateWith(p, peer.hello);
    if !enough {
      WriteHandshakeError(w, NoCommonCapability, text);
      res := Rejected(NoCommonCapability);
      return;
    }
    res := Agreed(peer.hello, n);
  }

  method ClientHandshake(r: Reader, w: Buffer, p: Party, text: Bytes)
    returns (res: Outcome, ghost said: Hello)
    modifies r, w
    ensures said == p.hello.(caps := said.caps)
    ensures Marshalable(p.hello) && w.data != old(w.data) ==> Arranged(p.hello.caps, said.caps)
    ensures res == ClientOutcome(p, old(r.rest))
    ensures w.data == old(w.data) + ClientSends(p, said, old(r.rest), text)
  {
    hide Marshalable, Arranged, ReadPeer, Common, Satisfied, HelloBytes, F.Encode, Advertised;
    res, said := Failed, p.hello;
    var peer := ReadPeerHello(r);
    if !peer.Peer? {
      return;
    }
    var ok := RoleAccepted(peer.hello.role, p.roles);
    if !ok {
      res := Rejected(UnexpectedRole);
      return;
    }
    WritePrefix(w);
    var body := HelloCode.MarshalBinary(p.hello);
    if body.None? {
      return;
    }
    said := Said(p.hello, body.value);
    WriteFrame(w, F.Frame(TypeHello, 0, 0, body.value));
    assert w.data == old(w.data) + Opening(said);
    var n, enough := NegotiateWith(p, peer.hello);
    if !enough {
      WriteHandshakeError(w, NoCommonCapability, text);
      res := Rejected(NoCommonCapability);
      return;
    }
    res := Agreed(peer.hello, n);
  }
}
