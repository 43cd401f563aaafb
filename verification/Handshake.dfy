/**
 The MVCP handshake (protocol/handshake.go): a wire prefix and a HELLO in each
 direction, then the same negotiation on both sides.
 */
module Handshake {
  import opened Basics
  import opened AppLimits
  import opened Wire
  import opened Capabilities
  import opened Hello
  import opened HelloCodec
  import F = Frames
  import C = AppCodec

  const Magic: Bytes := Ascii("MVCP")
  const MvcpVersion: byte := 1

  const TypeHello: byte := 0x00
  const TypeError: byte := 0xFE
  const FlagResponse: byte := 0x01

  const UnexpectedRole: nat := 0x0B
  const NoCommonCapability: nat := 0x0C

  /** The prefix and the HELLO frame. */
  function Opening(h: Hello): Bytes {
    Magic + [MvcpVersion] + F.Encode(F.Frame(TypeHello, 0, 0, HelloBytes(h)))
  }

  function ErrorFrame(code: nat, text: Bytes): Bytes {
    F.Encode(F.Frame(TypeError, FlagResponse, 0, Put([Num(2, code), Blob(2, text)])))
  }

  /** What reading the peer's prefix and HELLO comes to. */
  datatype PeerRead = Peer(hello: Hello) | Broken | BadMagic | BadVersion | BadHello

  function ReadPeer(b: Bytes): PeerRead {
    if |b| < 5 then Broken
    else if b[..4] != Magic then BadMagic
    else if b[4] != MvcpVersion then BadVersion
    else match F.GetFrame(b[5..])
         case Malformed => Broken
         case Parsed(f, _) =>
           if f.typ != TypeHello then BadHello
           else match DecodeHello(f.body) case None => BadHello case Some(h) => Peer(h)
  }

  /** The bytes start with the prefix and this frame. */
  ghost predicate Leads(b: Bytes, f: F.Frame) {
    F.FrameOk(f) && exists tail: Bytes :: b == Magic + [MvcpVersion] + (F.Encode(f) + tail)
  }

  lemma LeadsIff(b: Bytes, f: F.Frame)
    ensures Leads(b, f) <==> |b| >= 5 && b[..4] == Magic && b[4] == MvcpVersion
                             && F.GetFrame(b[5..]).Parsed? && F.GetFrame(b[5..]).value == f
  {
    hide F.GetFrame, F.Encode, F.FrameOk;
    var prefix := Magic + [MvcpVersion];
    if |b| >= 5 && b[..4] == Magic && b[4] == MvcpVersion && F.GetFrame(b[5..]).Parsed? {
      F.FrameIff(b[5..], F.GetFrame(b[5..]).value, F.GetFrame(b[5..]).rest);
      assert b == prefix + b[5..];
    }
    if Leads(b, f) {
      var tail :| b == prefix + (F.Encode(f) + tail);
      assert b[..4] == Magic && b[4] == MvcpVersion && b[5..] == F.Encode(f) + tail;
      F.FrameIff(b[5..], f, tail);
    }
  }

  /** A peer is accepted exactly if its bytes start with the prefix and a frame of type 0 with a well-formed HELLO. */
  lemma PeerIff(b: Bytes, h: Hello)
    ensures ReadPeer(b) == Peer(h) <==>
            exists f: F.Frame :: Leads(b, f) && f.typ == 0 && WellFormed(h) && f.body == HelloBytes(h)
  {
    hide F.GetFrame, Leads, DecodeHello, HelloBytes, WellFormed;
    if ReadPeer(b) == Peer(h) {
      var f := F.GetFrame(b[5..]).value;
      LeadsIff(b, f);
      HelloIff(f.body, h);
    }
    if f: F.Frame :| Leads(b, f) && f.typ == 0 && WellFormed(h) && f.body == HelloBytes(h) {
      LeadsIff(b, f);
      HelloIff(f.body, h);
    }
  }

  /** It is faulted for its HELLO exactly if they start with the prefix and some other whole frame. */
  lemma BadHelloIff(b: Bytes)
    ensures ReadPeer(b).BadHello? <==>
            exists f: F.Frame :: Leads(b, f) && (f.typ != 0 || forall h :: WellFormed(h) ==> f.body != HelloBytes(h))
  {
    hide F.GetFrame, Leads, DecodeHello, HelloBytes, WellFormed;
    if ReadPeer(b).BadHello? {
      var f := F.GetFrame(b[5..]).value;
      LeadsIff(b, f);
      NoHello(f.body);
    }
    if f: F.Frame :| Leads(b, f) && (f.typ != 0 || forall h :: WellFormed(h) ==> f.body != HelloBytes(h)) {
      LeadsIff(b, f);
      NoHello(f.body);
    }
  }

  lemma NoHello(body: Bytes)
    ensures DecodeHello(body).None? <==> forall h :: WellFormed(h) ==> body != HelloBytes(h)
  {
    hide DecodeHello, HelloBytes, WellFormed;
    if DecodeHello(body).Some? {
      HelloIff(body, DecodeHello(body).value);
    }
    forall h | WellFormed(h) && body == HelloBytes(h) ensures DecodeHello(body).Some? {
      HelloIff(body, h);
    }
  }

  /** One side's configuration. */
  datatype Party = Party(hello: Hello, roles: seq<nat>, reqs: map<byte, nat>)

  datatype Outcome = Agreed(peer: Hello, negotiated: Agreement) | Rejected(code: nat) | Failed

  /** After the peer's HELLO is in: the role check and the negotiation. */
  function Judge(p: Party, peer: Hello): Outcome {
    var n := Common(Advertised(peer.caps), Advertised(p.hello.caps));
    if peer.role !in p.roles then Rejected(UnexpectedRole)
    else if !Satisfied(p.reqs, n) then Rejected(NoCommonCapability)
    else Agreed(peer, n)
  }

  function ServerOutcome(p: Party, input: Bytes): Outcome {
    if !Marshalable(p.hello) then Failed
    else match ReadPeer(input) case Peer(h) => Judge(p, h) case _ => Failed
  }

  /** The server speaks first, and says why it refuses once the prefix is accepted. `said` is its HELLO as written. */
  function ServerSends(p: Party, said: Hello, input: Bytes, text: Bytes): Bytes {
    if !Marshalable(p.hello) then Magic + [MvcpVersion]
    else
      Opening(said) +
      match ReadPeer(input)
      case Peer(h) => (match Judge(p, h) case Rejected(code) => ErrorFrame(code, text) case _ => [])
      case BadHello => ErrorFrame(BadPayload, text)
      case _ => []
  }

  function ClientOutcome(p: Party, input: Bytes): Outcome {
    match ReadPeer(input)
    case Peer(h) =>
      if h.role !in p.roles then Rejected(UnexpectedRole)
      else if !Marshalable(p.hello) then Failed
      else Judge(p, h)
    case _ => Failed
  }

  /** The client says nothing to a server it does not accept. */
  function ClientSends(p: Party, said: Hello, input: Bytes, text: Bytes): Bytes {
    match ReadPeer(input)
    case Peer(h) =>
      if h.role !in p.roles then []
      else if !Marshalable(p.hello) then Magic + [MvcpVersion]
      else Opening(said) + if Judge(p, h).Rejected? then ErrorFrame(NoCommonCapability, text) else []
    case _ => []
  }

  // ---- Two sides ----

  /** A party whose HELLO was built by NewHello within the limits of the encoder. */
  predicate Proper(p: Party) {
    && p.hello.caps == ByID(Advertised(p.hello.caps))
    && Marshalable(p.hello) && Revisions(p.hello.caps)
  }

  /** The limits in terms of the table NewHello was given. */
  lemma NewHelloProper(p: Party, t: Table)
    requires RoleCore <= p.hello.role <= RoleVHandler && |p.hello.version| <= MaxHelloVersionLen
    requires p.hello.caps == ByID(t) && |t| <= MaxHelloCapabilities
    requires forall id :: id in t ==> t[id].min <= t[id].max < Span(2)
    ensures Proper(p) && Advertised(p.hello.caps) == t
  {
    ListingOf(t, 256);
    AdvertisedListing(t);
    TableSize(p.hello.caps);
    forall i | 0 <= i < |p.hello.caps| ensures CapOk(p.hello.caps[i]) {
      assert p.hello.caps[i] in p.hello.caps;
    }
  }

  /** The encoder leaves the list of such a HELLO as it is. */
  lemma SaidAsIs(p: Party, cs: seq<Capability>)
    requires Proper(p) && Arranged(p.hello.caps, cs)
    ensures cs == p.hello.caps
  {
    ListingOf(Advertised(p.hello.caps), 256);
    ArrangedIsListing(p.hello.caps, cs);
  }

  lemma {:induction false} TableSize(cs: seq<Capability>)
    requires Distinct(cs)
    ensures |Advertised(cs)| == |cs|
  {
    if cs != [] {
      var init, last := cs[..|cs| - 1], cs[|cs| - 1];
      TableSize(init);
      AdvertisedMembers(init);
      assert !HasID(init, last.id);
      assert Advertised(cs).Keys == Advertised(init).Keys + {last.id};
      assert |Advertised(cs).Keys| == |Advertised(init).Keys| + 1;
    }
  }

  lemma ProperDecodes(p: Party)
    requires Proper(p)
    ensures DecodeHello(HelloBytes(p.hello)) == Some(p.hello)
    ensures F.FrameOk(F.Frame(TypeHello, 0, 0, HelloBytes(p.hello)))
  {
    NewHelloRoundTrip(p.hello.role, p.hello.version, Advertised(p.hello.caps));
    HelloLength(p.hello);
    Spans();
  }

  lemma HelloLength(h: Hello)
    requires Marshalable(h)
    ensures |HelloBytes(h)| <= 1000
  {
    C.PutThree(Num(1, h.role), Blob(2, h.version), Num(2, |h.caps|));
    CapsLength(h.caps);
  }

  lemma {:induction false} CapsLength(cs: seq<Capability>)
    ensures |PutCaps(cs)| == 5 * |cs|
  {
    if cs != [] {
      CapsLength(cs[1..]);
    }
  }

  /** However much of an opening and what follows it has arrived, it is read as that HELLO or not yet. */
  lemma ReadOpening(p: Party, tail: Bytes, b: Bytes)
    requires Proper(p) && b <= Opening(p.hello) + tail
    ensures ReadPeer(b) == if |b| < |Opening(p.hello)| then Broken else Peer(p.hello)
  {
    hide DecodeHello, HelloBytes, F.GetFrame, F.Encode, Proper;
    ProperDecodes(p);
    var f := F.Frame(TypeHello, 0, 0, HelloBytes(p.hello));
    var e, whole := F.Encode(f), Opening(p.hello) + tail;
    assert b == whole[..|b|];
    if |b| >= 5 {
      assert whole[..4] == Magic && whole[4] == MvcpVersion && whole[5..] == e + tail;
      assert b[..4] == whole[..4] && b[4] == whole[4] && b[5..] == (e + tail)[..|b| - 5];
      if |b| < 5 + |e| {
        F.CutFrame(f, |b| - 5);
        assert b[5..] == e[..|b| - 5];
      } else {
        var rest := tail[..|b| - 5 - |e|];
        assert b[5..] == e + rest;
        F.FrameIff(b[5..], f, rest);
      }
    }
  }

  /** Each side has received some part of what the other has sent. */
  ghost predicate Joint(s: Party, c: Party, sIn: Bytes, cIn: Bytes, sText: Bytes, cText: Bytes) {
    sIn <= ClientSends(c, c.hello, cIn, cText) && cIn <= ServerSends(s, s.hello, sIn, sText)
  }

  lemma Heard(s: Party, c: Party, sIn: Bytes, cIn: Bytes, sText: Bytes, cText: Bytes)
    requires Proper(s) && Proper(c) && Joint(s, c, sIn, cIn, sText, cText)
    ensures ReadPeer(cIn) == if |cIn| < |Opening(s.hello)| then Broken else Peer(s.hello)
    ensures ReadPeer(sIn) == if |sIn| < |Opening(c.hello)| then Broken else Peer(c.hello)
  {
    hide Opening, ReadPeer, ErrorFrame, Judge;
    var sent := ServerSends(s, s.hello, sIn, sText);
    ReadOpening(s, sent[|Opening(s.hello)|..], cIn);
    var said := ClientSends(c, c.hello, cIn, cText);
    if said == [] {
      ReadOpening(c, [], sIn);
    } else {
      ReadOpening(c, said[|Opening(c.hello)|..], sIn);
    }
  }

  /**
   Whatever part of the exchange arrives: if both sides succeed, each has the other's
   HELLO and lists its role, they hold the same negotiated map, and it meets both
   requirement tables.
   */
  lemma Agreement(s: Party, c: Party, sIn: Bytes, cIn: Bytes, sText: Bytes, cText: Bytes)
    requires Proper(s) && Proper(c) && Joint(s, c, sIn, cIn, sText, cText)
    requires ServerOutcome(s, sIn).Agreed? && ClientOutcome(c, cIn).Agreed?
    ensures var a, b := ServerOutcome(s, sIn), ClientOutcome(c, cIn);
            && a.peer == c.hello && b.peer == s.hello && a.negotiated == b.negotiated
            && Satisfied(s.reqs, a.negotiated) && Satisfied(c.reqs, a.negotiated)
            && c.hello.role in s.roles && s.hello.role in c.roles
  {
    hide Opening, ReadPeer, Proper, Joint, Common;
    Heard(s, c, sIn, cIn, sText, cText);
    NegotiateSymmetric(Advertised(c.hello.caps), Advertised(s.hello.caps));
  }

  /**
   With the roles accepted, equal requirements and everything delivered, either both
   sides succeed with the same map or both reject with NO_COMMON_CAPABILITY.
   */
  lemma SameVerdict(s: Party, c: Party, sIn: Bytes, cIn: Bytes, sText: Bytes, cText: Bytes)
    requires Proper(s) && Proper(c) && Joint(s, c, sIn, cIn, sText, cText)
    requires s.reqs == c.reqs && s.hello.role in c.roles && c.hello.role in s.roles
    requires |cIn| >= |Opening(s.hello)| && |sIn| >= |Opening(c.hello)|
    ensures var n := Common(Advertised(c.hello.caps), Advertised(s.hello.caps));
            if Satisfied(s.reqs, n)
            then ServerOutcome(s, sIn) == Agreed(c.hello, n) && ClientOutcome(c, cIn) == Agreed(s.hello, n)
            else ServerOutcome(s, sIn) == ClientOutcome(c, cIn) == Rejected(NoCommonCapability)
  {
    hide Opening, ReadPeer, Joint, Common;
    Heard(s, c, sIn, cIn, sText, cText);
    NegotiateSymmetric(Advertised(c.hello.caps), Advertised(s.hello.caps));
  }

  /** An ERROR frame: type 0xFE, a response to no request, and a body that starts with the code. */
  ghost predicate IsError(b: Bytes, code: nat) {
    exists f: F.Frame ::
      b == F.Encode(f) && f.typ == 0xFE && f.flags == 1 && f.msgID == 0 && |f.body| >= 4 && Val(f.body[..2]) == code
  }

  lemma ErrorFormat(code: nat, text: Bytes)
    requires code < Span(2)
    ensures IsError(ErrorFrame(code, text), code)
  {
    var body := Put([Num(2, code), Blob(2, text)]);
    C.PutTwo(Num(2, code), Blob(2, text));
    ValBig(code, 2);
    assert body[..2] == Big(code, 2);
    assert ErrorFrame(code, text) == F.Encode(F.Frame(TypeError, FlagResponse, 0, body));
  }

  /**
   A server that has the client's opening: it refuses a role it does not list with
   UNEXPECTED_ROLE and a negotiation that misses a requirement with NO_COMMON_CAPABILITY, and
   says so in an ERROR frame behind its own opening; otherwise it succeeds and says no more.
   */
  lemma ServerVerdict(s: Party, c: Party, sIn: Bytes, tail: Bytes, sText: Bytes)
    requires Proper(s) && Proper(c) && sIn == Opening(c.hello) + tail
    ensures var n := Common(Advertised(c.hello.caps), Advertised(s.hello.caps));
            var said := ServerSends(s, s.hello, sIn, sText);
            && Opening(s.hello) <= said
            && var more := said[|Opening(s.hello)|..];
               if c.hello.role !in s.roles then ServerOutcome(s, sIn) == Rejected(0x0B) && IsError(more, 0x0B)
               else if !Satisfied(s.reqs, n) then ServerOutcome(s, sIn) == Rejected(0x0C) && IsError(more, 0x0C)
               else ServerOutcome(s, sIn) == Agreed(c.hello, n) && more == []
  {
    hide Opening, ReadPeer, ErrorFrame, Common, IsError;
    ReadOpening(c, tail, sIn);
    Spans();
    ErrorFormat(UnexpectedRole, sText);
    ErrorFormat(NoCommonCapability, sText);
  }

  /** A HELLO that does not decode behind a good prefix is answered with BAD_PAYLOAD; a bad prefix with nothing. */
  lemma ServerBadInput(s: Party, sIn: Bytes, sText: Bytes)
    requires Marshalable(s.hello) && !ReadPeer(sIn).Peer?
    ensures var said := ServerSends(s, s.hello, sIn, sText);
            && ServerOutcome(s, sIn) == Failed && Opening(s.hello) <= said
            && var more := said[|Opening(s.hello)|..];
               if ReadPeer(sIn).BadHello? then IsError(more, 0x02) else more == []
  {
    hide Opening, ReadPeer, ErrorFrame, IsError, Marshalable;
    Spans();
    ErrorFormat(BadPayload, sText);
  }

  /**
   The same for a client that has the server's opening, except that it says nothing at all to a role
   it does not list.
   */
  lemma ClientVerdict(s: Party, c: Party, cIn: Bytes, tail: Bytes, cText: Bytes)
    requires Proper(s) && Proper(c) && cIn == Opening(s.hello) + tail
    ensures var n := Common(Advertised(s.hello.caps), Advertised(c.hello.caps));
            var said := ClientSends(c, c.hello, cIn, cText);
            if s.hello.role !in c.roles then ClientOutcome(c, cIn) == Rejected(0x0B) && said == []
            else
              && Opening(c.hello) <= said
              && var more := said[|Opening(c.hello)|..];
                 if !Satisfied(c.reqs, n) then ClientOutcome(c, cIn) == Rejected(0x0C) && IsError(more, 0x0C)
                 else ClientOutcome(c, cIn) == Agreed(s.hello, n) && more == []
  {
    hide Opening, ReadPeer, ErrorFrame, Common, IsError;
    ReadOpening(s, tail, cIn);
    Spans();
    ErrorFormat(NoCommonCapability, cText);
  }

  /** A client that does not accept the server's role stays silent, and the server is left with a broken connection. */
  lemma SilentRefusal(s: Party, c: Party, sIn: Bytes, cIn: Bytes, sText: Bytes, cText: Bytes)
    requires Proper(s) && Proper(c) && Joint(s, c, sIn, cIn, sText, cText)
    requires s.hello.role !in c.roles
    ensures sIn == [] && ServerOutcome(s, sIn) == Failed
    ensures ClientOutcome(c, cIn) == if |cIn| < |Opening(s.hello)| then Failed else Rejected(UnexpectedRole)
  {
    hide Opening, Judge;
    Heard(s, c, sIn, cIn, sText, cText);
  }

  /** The complete exchange: the client gets the server's opening and accepts it, and the server gets the client's. */
  lemma Exchange(s: Party, c: Party, sText: Bytes, cText: Bytes)
    requires Proper(s) && Proper(c) && s.hello.role in c.roles
    ensures Joint(s, c, Opening(c.hello), Opening(s.hello), sText, cText)
  {
    hide Opening, ReadPeer, ErrorFrame, Judge;
    assert Opening(s.hello) + [] == Opening(s.hello);
    ReadOpening(s, [], Opening(s.hello));
  }
}
