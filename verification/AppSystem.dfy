/**
 A host and a guest session over one connection: two FIFO wires, and every
 interleaving of calls, goroutine steps, deliveries and connection loss.
 */
module AppSystem {
  import opened Basics
  import opened AppLimits
  import opened AppMessages
  import opened AppStream
  import opened AppStreamProofs
  import opened AppSession
  import opened AppSessionProofs
  import opened AppPair
  import opened AppPhase
  import opened AppDelivery

  datatype System = System(host: Session, guest: Session, toGuest: seq<AppMsg>, toHost: seq<AppMsg>)

  /** `Local`: a call or goroutine step of one side; `Arrive`: its read loop takes a message. True is the guest. */
  datatype Event = Local(side: bool, c: Call) | Arrive(side: bool)

  function Start(): System {
    System(NewSession(false), NewSession(true), [], [])
  }

  function End(sys: System, side: bool): Session {
    if side then sys.guest else sys.host
  }

  /** The wire that a side writes to. */
  function Sent(sys: System, side: bool): seq<AppMsg> {
    if side then sys.toHost else sys.toGuest
  }

  /** One side with its outgoing and its incoming wire replaced. */
  function With(sys: System, side: bool, s: Session, out: seq<AppMsg>, inn: seq<AppMsg>): (sys': System)
    ensures End(sys', side) == s && End(sys', !side) == End(sys, !side)
    ensures Sent(sys', side) == out && Sent(sys', !side) == inn
  {
    if side then System(sys.host, s, inn, out) else System(s, sys.guest, out, inn)
  }

  function StepTo(sys: System, ev: Event): System {
    match ev
    case Local(side, c) =>
      if c.Incoming? then sys
      else
        var e := Next(End(sys, side), c);
        With(sys, side, e.s, Sent(sys, side) + e.sent, Sent(sys, !side))
    case Arrive(side) =>
      if End(sys, side).closed || Sent(sys, !side) == [] then sys
      else
        var e := Next(End(sys, side), Incoming(Sent(sys, !side)[0]));
        With(sys, side, e.s, Sent(sys, side) + e.sent, Sent(sys, !side)[1..])
  }

  /** The system after a run. */
  function Run(sys: System, evs: seq<Event>): System
    decreases |evs|
  {
    if evs == [] then sys else Run(StepTo(sys, evs[0]), evs[1..])
  }

  // ---- One stream in the system ----

  function Proj(w: seq<AppMsg>, id: nat): seq<AppMsg> {
    if w == [] then [] else (if w[0].streamID == id then [w[0]] else []) + Proj(w[1..], id)
  }

  lemma {:induction false} ProjAppend(w: seq<AppMsg>, m: AppMsg, id: nat)
    ensures Proj(w + [m], id) == Proj(w, id) + (if m.streamID == id then [m] else [])
  {
    if w == [] {
      assert w + [m] == [m] && [m][1..] == [];
    } else {
      var rest := w[1..];
      assert (w + [m])[0] == w[0] && (w + [m])[1..] == rest + [m];
      ProjAppend(rest, m, id);
      assert Proj(w + [m], id) == (if w[0].streamID == id then [w[0]] else []) + Proj(rest + [m], id);
    }
  }

  lemma ProjSent(w: seq<AppMsg>, sent: seq<AppMsg>, k: nat, id: nat)
    requires About(sent, k)
    ensures Proj(w + sent, id) == if id == k then Proj(w, id) + sent else Proj(w, id)
  {
    if sent == [] {
      assert w + sent == w;
    } else {
      assert sent == [sent[0]];
      ProjAppend(w, sent[0], id);
    }
  }

  function Lookup(streams: map<nat, Stream>, id: nat): Option<Stream> {
    if id in streams then Some(streams[id]) else None
  }

  /** The pair of ends of stream `id`, its opener being the side its initiator bit names. */
  predicate PairAt(sys: System, id: nat) {
    var side := GuestID(id);
    var out, back := Proj(Sent(sys, side), id), Proj(Sent(sys, !side), id);
    match Lookup(End(sys, side).streams, id)
    case Some(a) =>
      PairInv(a, Lookup(End(sys, !side).streams, id), out, back, End(sys, side).closed, End(sys, !side).closed)
    case None => id !in End(sys, !side).streams && out == [] && back == []
  }

  ghost predicate SysInv(sys: System) {
    && !sys.host.guest && sys.guest.guest
    && SessionInv(sys.host) && SessionInv(sys.guest)
    && forall id: nat :: PairAt(sys, id)
  }

  /** A step that leaves everything about a stream alone leaves its pair alone. */
  lemma Untroubled(sys: System, sys': System, side: bool, id: nat)
    requires PairAt(sys, id)
    requires End(sys', side).closed == End(sys, side).closed && End(sys', !side) == End(sys, !side)
    requires Lookup(End(sys', side).streams, id) == Lookup(End(sys, side).streams, id)
    requires Proj(Sent(sys', side), id) == Proj(Sent(sys, side), id)
    requires Proj(Sent(sys', !side), id) == Proj(Sent(sys, !side), id)
    ensures PairAt(sys', id)
  {
    hide PairInv, GuestID, Proj;
  }

  // ---- Calls about one stream ----

  lemma CallPair(sys: System, side: bool, c: Call)
    requires SysInv(sys) && AboutStream(c) && c.id in End(sys, side).streams
    ensures PairAt(StepTo(sys, Local(side, c)), c.id)
  {
    hide PairInv, GuestID, StreamCall, Keeps, Ready;
    var s := End(sys, side);
    var sys' := StepTo(sys, Local(side, c));
    var st := s.streams[c.id];
    var out := StreamCall(st, s.buffered, s.closed, c);
    StreamCallKeeps(s, c);
    StreamReady(s, c.id);
    SentAbout(st, s.buffered, out);
    assert StreamOk(s, c.id) && PairAt(sys, c.id);
    ProjSent(Sent(sys, side), Emit(s.closed, out.sent), c.id, c.id);
    if GuestID(c.id) == side {
      OpenerCall(st, Lookup(End(sys, !side).streams, c.id), Proj(Sent(sys, side), c.id), Proj(Sent(sys, !side), c.id),
                 s.closed, End(sys, !side).closed, s.buffered, c);
    } else {
      AcceptorCall(End(sys, !side).streams[c.id], st, Proj(Sent(sys, !side), c.id), Proj(Sent(sys, side), c.id),
                   End(sys, !side).closed, s.closed, s.buffered, c);
    }
  }

  lemma SentAbout(st: Stream, buffered: int, out: Out)
    requires Keeps(st, buffered, out)
    ensures About(out.sent, st.id) && About([], st.id)
  {
  }

  lemma CallInv(sys: System, side: bool, c: Call)
    requires SysInv(sys) && AboutStream(c) && c.id in End(sys, side).streams
    ensures SysInv(StepTo(sys, Local(side, c)))
  {
    hide PairAt, StreamCall, Keeps, SessionInv;
    var s := End(sys, side);
    var sys' := StepTo(sys, Local(side, c));
    var st := s.streams[c.id];
    var out := StreamCall(st, s.buffered, s.closed, c);
    NextInv(s, c);
    StreamCallKeeps(s, c);
    SentAbout(st, s.buffered, out);
    NamedByKey(s, c.id);
    CallPair(sys, side, c);
    forall id: nat ensures PairAt(sys', id) {
      if id != c.id {
        ProjSent(Sent(sys, side), Emit(s.closed, out.sent), c.id, id);
        Untroubled(sys, sys', side, id);
      }
    }
  }

  lemma NamedByKey(s: Session, id: nat)
    requires SessionInv(s) && id in s.streams
    ensures s.streams[id].id == id
  {
    assert StreamOk(s, id);
  }

  // ---- Opening a stream ----

  lemma NewPair(id: nat, service: Bytes, meta: Bytes, bDown: bool)
    requires ValidAppService(service) && |meta| <= AppMaxMetaBytes
    ensures PairInv(NewStream(id, false), None, [AppOpen(id, service, meta)], [], false, bDown)
  {
    NewStreamSane(id, false);
    var w := [AppOpen(id, service, meta)];
    assert w[1..] == [];
    assert HasReset(w) == HasReset(w[1..]);
  }

  lemma OpenPair(sys: System, side: bool, c: Call)
    requires SysInv(sys) && c.OpenCall? && Next(End(sys, side), c).sent != []
    ensures PairAt(StepTo(sys, Local(side, c)), LocalBit(side) + End(sys, side).nextID + 1)
  {
    hide PairInv, SessionInv, GuestID, ValidAppService, Table, Proj;
    var s := End(sys, side);
    var sys' := StepTo(sys, Local(side, c));
    var k := LocalBit(side) + s.nextID + 1;
    OpenFresh(s);
    assert PairAt(sys, k);
    var sent := [AppOpen(k, c.service, c.meta)];
    assert Next(s, c).sent == sent;
    ProjSent(Sent(sys, side), sent, k, k);
    NewPair(k, c.service, c.meta, End(sys, !side).closed);
    assert Proj(Sent(sys', side), k) == sent;
  }

  lemma OpenInv(sys: System, side: bool, c: Call)
    requires SysInv(sys) && c.OpenCall?
    ensures SysInv(StepTo(sys, Local(side, c)))
  {
    hide PairAt, SessionInv, GuestID, ValidAppService, Table;
    var s := End(sys, side);
    var sys' := StepTo(sys, Local(side, c));
    var e := Next(s, c);
    NextInv(s, c);
    if e.sent == [] {
      assert Sent(sys, side) + e.sent == Sent(sys, side);
      assert sys' == sys;
    } else {
      var k := LocalBit(side) + s.nextID + 1;
      OpenPair(sys, side, c);
      forall id: nat ensures PairAt(sys', id) {
        if id != k {
          ProjSent(Sent(sys, side), e.sent, k, id);
          Untroubled(sys, sys', side, id);
        }
      }
    }
  }

  // ---- Losing a connection ----

  function Down(sys: System, side: bool): System {
    With(sys, side, Fail(End(sys, side)), Sent(sys, side), Sent(sys, !side))
  }

  lemma DownPair(sys: System, side: bool, id: nat)
    requires PairAt(sys, id) && !End(sys, side).closed
    ensures PairAt(Down(sys, side), id)
  {
    hide PairInv, GuestID, Lost;
    var sys' := Down(sys, side);
    var out, back := Proj(Sent(sys, GuestID(id)), id), Proj(Sent(sys, !GuestID(id)), id);
    var o, t := End(sys, GuestID(id)), End(sys, !GuestID(id));
    if id in o.streams {
      if GuestID(id) == side {
        OpenerLost(o.streams[id], Lookup(t.streams, id), out, back, o.closed, t.closed);
      } else if id in t.streams {
        AcceptorLost(o.streams[id], t.streams[id], out, back, o.closed, t.closed);
      } else {
        NobodyLost(o.streams[id], out, back, o.closed, t.closed, true);
      }
    }
  }

  lemma DownInv(sys: System, side: bool)
    requires SysInv(sys)
    ensures SysInv(Down(sys, side))
  {
    hide PairAt, SessionInv;
    FailInv(End(sys, side));
    if End(sys, side).closed {
      assert Down(sys, side) == sys;
    } else {
      forall id: nat ensures PairAt(Down(sys, side), id) {
        DownPair(sys, side, id);
      }
    }
  }

  // ---- Delivering a message ----

  lemma ProjHead(w: seq<AppMsg>, id: nat)
    requires w != []
    ensures if w[0].streamID == id
            then Proj(w, id) != [] && Proj(w, id)[0] == w[0] && Proj(w[1..], id) == Proj(w, id)[1..]
            else Proj(w[1..], id) == Proj(w, id)
  {
  }

  /** The message changes at most the stream it names. */
  ghost predicate TargetOnly(s: Session, m: AppMsg) {
    var e := HandleMessage(s, m);
    && e.s.closed == s.closed && About(e.sent, m.streamID)
    && forall id: nat :: id != m.streamID ==> Lookup(e.s.streams, id) == Lookup(s.streams, id)
  }

  /**
   A message that fits leaves the session open and is answered only by a refusal for want of room or
   of memory, or, if it is data, behind an early close. One that does not fit is answered with
   ERROR(BAD_PAYLOAD) and ends the session.
   */
  predicate Civil(s: Session, m: AppMsg, early: bool) {
    var e := HandleMessage(s, m);
    if Fits(m) || s.closed then
      && e.errors == [] && e.s.closed == s.closed
      && (|| e.sent == []
          || ((e.sent[0].AppReset? || e.sent[0].AppReject?) && e.sent[0].code == AppQuotaExceeded)
          || (early && m.AppData? && e.sent[0] == AppReset(m.streamID, AppProtocolError, Ascii("data after close"))))
    else e.errors == [BadPayload] && e.s.closed && e.sent == []
  }

  /** The CloseWrite of this end overtook a chunk. */
  predicate EarlyAt(sys: System, side: bool, id: nat) {
    Early(Lookup(End(sys, side).streams, id))
  }

  /** The next message for a side is answered civilly. */
  predicate CivilArrival(sys: System, side: bool)
    requires Sent(sys, !side) != []
  {
    var m := Sent(sys, !side)[0];
    Civil(End(sys, side), m, EarlyAt(sys, !side, m.streamID))
  }

  /** How a session takes a message about one of its streams. */
  lemma MessageTaken(s: Session, m: AppMsg)
    requires !s.closed && Fits(m) && !m.AppOpen? && m.streamID in s.streams
    ensures var out := Reception(s.streams[m.streamID], s.buffered, m);
            && HandleMessage(s, m).s == s.(streams := s.streams[m.streamID := out.st], buffered := out.buffered)
            && HandleMessage(s, m).sent == out.sent && HandleMessage(s, m).errors == []
  {
    hide Receive;
    if m.streamID !in Table(s) {
      assert s.streams[m.streamID := s.streams[m.streamID]] == s.streams;
    }
  }

  lemma MessageTargets(s: Session, m: AppMsg, early: bool)
    requires SessionInv(s) && !s.closed && Fits(m) && !m.AppOpen? && m.streamID in s.streams
    ensures TargetOnly(s, m)
    ensures Peaceful(Reception(s.streams[m.streamID], s.buffered, m), early) ==> Civil(s, m, early)
  {
    hide HandleMessage, Receive, Keeps, Ready, SessionInv;
    var st := s.streams[m.streamID];
    MessageTaken(s, m);
    NamedByKey(s, m.streamID);
    StreamReady(s, m.streamID);
    if st.attached {
      ReceiveKeeps(st, s.buffered, m);
      SentAbout(st, s.buffered, Receive(st, s.buffered, m));
      PeacefulSends(st, s.buffered, m);
    }
  }

  lemma PeacefulSends(st: Stream, buffered: int, m: AppMsg)
    ensures var out := Receive(st, buffered, m);
            out.sent != [] ==>
              && out.sent[0].AppReset?
              && (out.res == Failed(SessionBufferExceeded) ==> out.sent[0].code == AppQuotaExceeded)
              && (out.res == Failed(Violation("data after close")) ==>
                    m.AppData? && out.sent[0] == AppReset(st.id, AppProtocolError, Ascii("data after close")))
  {
  }

  /** A message that names a stream this side opened. */
  lemma ToOpener(sys: System, side: bool)
    requires SysInv(sys) && !End(sys, side).closed && Sent(sys, !side) != [] && Fits(Sent(sys, !side)[0])
    requires GuestID(Sent(sys, !side)[0].streamID) == side
    ensures PairAt(StepTo(sys, Arrive(side)), Sent(sys, !side)[0].streamID)
    ensures TargetOnly(End(sys, side), Sent(sys, !side)[0]) && CivilArrival(sys, side)
  {
    hide PairInv, GuestID, Receive, Reception, Peaceful, HandleMessage, SessionInv, TargetOnly, Civil, Early;
    var s, m := End(sys, side), Sent(sys, !side)[0];
    var k := m.streamID;
    ProjHead(Sent(sys, !side), k);
    assert PairAt(sys, k) && k in s.streams;
    var a, b := s.streams[k], Lookup(End(sys, !side).streams, k);
    var out, back := Proj(Sent(sys, side), k), Proj(Sent(sys, !side), k);
    StreamReady(s, k);
    NotOpen(a, b, out, back, s.closed, End(sys, !side).closed);
    OpenerReceive(a, b, out, back, s.closed, End(sys, !side).closed, s.buffered);
    MessageTaken(s, m);
    MessageTargets(s, m, EarlyAt(sys, !side, k));
    AnswerAbout(s, m);
    ProjSent(Sent(sys, side), HandleMessage(s, m).sent, k, k);
  }

  lemma AnswerAbout(s: Session, m: AppMsg)
    requires TargetOnly(s, m)
    ensures About(HandleMessage(s, m).sent, m.streamID)
  {
  }

  lemma NotOpen(a: Stream, b: Option<Stream>, ab: seq<AppMsg>, ba: seq<AppMsg>, aDown: bool, bDown: bool)
    requires PairInv(a, b, ab, ba, aDown, bDown) && ba != []
    ensures !ba[0].AppOpen?
  {
  }

  /** A message that names a stream the other side opened and this side knows. */
  lemma ToAcceptor(sys: System, side: bool)
    requires SysInv(sys) && !End(sys, side).closed && Sent(sys, !side) != [] && Fits(Sent(sys, !side)[0])
    requires GuestID(Sent(sys, !side)[0].streamID) != side
    requires Sent(sys, !side)[0].streamID in End(sys, side).streams
    ensures PairAt(StepTo(sys, Arrive(side)), Sent(sys, !side)[0].streamID)
    ensures TargetOnly(End(sys, side), Sent(sys, !side)[0]) && CivilArrival(sys, side)
  {
    hide PairInv, GuestID, Receive, Reception, Peaceful, HandleMessage, SessionInv, TargetOnly, Civil;
    var s, m := End(sys, side), Sent(sys, !side)[0];
    var k := m.streamID;
    ProjHead(Sent(sys, !side), k);
    assert PairAt(sys, k);
    var a, b := End(sys, !side).streams[k], s.streams[k];
    var out, back := Proj(Sent(sys, !side), k), Proj(Sent(sys, side), k);
    StreamReady(s, k);
    AcceptorReceive(a, b, out, back, End(sys, !side).closed, s.closed, s.buffered);
    MessageTaken(s, m);
    MessageTargets(s, m, EarlyAt(sys, !side, k));
    AnswerAbout(s, m);
    ProjSent(Sent(sys, side), HandleMessage(s, m).sent, k, k);
  }

  lemma NoStreamZero(s: Session)
    requires SessionInv(s) && !s.guest
    ensures 0 !in s.streams
  {
    assert !GuestID(0);
  }

  /** An APP_OPEN from a correct peer is well-formed and new: it is taken, or refused for want of room. */
  lemma OpenWelcome(sys: System, side: bool)
    requires SysInv(sys) && !End(sys, side).closed && Sent(sys, !side) != [] && Sent(sys, !side)[0].AppOpen?
    ensures var s, m := End(sys, side), Sent(sys, !side)[0];
            && m.streamID !in s.streams && GuestID(m.streamID) != side
            && HandleMessage(s, m) ==
               if |Table(s)| >= AppMaxStreams
               then Effect(s, [AppReject(m.streamID, AppQuotaExceeded, Ascii("stream quota exceeded"))], [], Done)
               else Effect(s.(streams := s.streams[m.streamID := NewStream(m.streamID, true)]), [], [], Done)
  {
    hide PairInv, GuestID, SessionInv, NewStream;
    var s, m := End(sys, side), Sent(sys, !side)[0];
    var k := m.streamID;
    ProjHead(Sent(sys, !side), k);
    assert PairAt(sys, k);
    var o, t := End(sys, GuestID(k)), End(sys, !GuestID(k));
    var out, back := Proj(Sent(sys, GuestID(k)), k), Proj(Sent(sys, !GuestID(k)), k);
    if GuestID(k) == side {
      NotOpen(o.streams[k], Lookup(t.streams, k), out, back, o.closed, t.closed);
    } else {
      if k in t.streams {
        StreamReady(t, k);
        AcceptorReceive(o.streams[k], t.streams[k], out, back, o.closed, t.closed, t.buffered);
      }
      OpenArrives(o.streams[k], out, back, o.closed, t.closed);
      NoStreamZero(sys.host);
      ZeroIsHost();
    }
  }

  lemma ZeroIsHost()
    ensures !GuestID(0)
  {
  }

  /** APP_OPEN reaches the acceptor. */
  lemma OpenToAcceptor(sys: System, side: bool)
    requires SysInv(sys) && !End(sys, side).closed && Sent(sys, !side) != [] && Sent(sys, !side)[0].AppOpen?
    ensures PairAt(StepTo(sys, Arrive(side)), Sent(sys, !side)[0].streamID)
    ensures TargetOnly(End(sys, side), Sent(sys, !side)[0]) && CivilArrival(sys, side)
  {
    hide PairInv, GuestID, HandleMessage, SessionInv, NewStream, Table;
    var s, m := End(sys, side), Sent(sys, !side)[0];
    var k := m.streamID;
    OpenWelcome(sys, side);
    ProjHead(Sent(sys, !side), k);
    assert PairAt(sys, k);
    var o := End(sys, !side);
    var out, back := Proj(Sent(sys, !side), k), Proj(Sent(sys, side), k);
    var e := HandleMessage(s, m);
    ProjSent(Sent(sys, side), e.sent, k, k);
    OpenArrives(o.streams[k], out, back, o.closed, s.closed);
    if |Table(s)| >= AppMaxStreams {
      OpenRefused(o.streams[k], out, back, o.closed, s.closed, e.sent[0]);
    } else {
      assert back + e.sent == back;
    }
  }

  /** A message about a stream this side has never had. */
  lemma ToNobody(sys: System, side: bool)
    requires SysInv(sys) && !End(sys, side).closed && Sent(sys, !side) != [] && Fits(Sent(sys, !side)[0])
    requires GuestID(Sent(sys, !side)[0].streamID) != side && !Sent(sys, !side)[0].AppOpen?
    requires Sent(sys, !side)[0].streamID !in End(sys, side).streams
    ensures PairAt(StepTo(sys, Arrive(side)), Sent(sys, !side)[0].streamID)
    ensures TargetOnly(End(sys, side), Sent(sys, !side)[0]) && CivilArrival(sys, side)
  {
    hide PairInv, GuestID, SessionInv, HandleOpen, Receive;
    var s, m := End(sys, side), Sent(sys, !side)[0];
    var k := m.streamID;
    ProjHead(Sent(sys, !side), k);
    assert PairAt(sys, k);
    assert Sent(sys, side) + [] == Sent(sys, side);
    UnknownDropped(End(sys, !side).streams[k], Proj(Sent(sys, !side), k), Proj(Sent(sys, side), k),
                   End(sys, !side).closed, s.closed);
  }

  lemma SameSide(s: Session, m: AppMsg)
    ensures HandleMessage(s, m).s.guest == s.guest
  {
  }

  lemma DeliverInv(sys: System, side: bool)
    requires SysInv(sys) && !End(sys, side).closed && Sent(sys, !side) != [] && Fits(Sent(sys, !side)[0])
    ensures SysInv(StepTo(sys, Arrive(side)))
    ensures CivilArrival(sys, side)
  {
    hide PairAt, GuestID, SessionInv, HandleMessage, Civil;
    var s, m := End(sys, side), Sent(sys, !side)[0];
    var sys' := StepTo(sys, Arrive(side));
    NextInv(s, Incoming(m));
    SameSide(s, m);
    if m.AppOpen? {
      OpenToAcceptor(sys, side);
    } else if GuestID(m.streamID) == side {
      ToOpener(sys, side);
    } else if m.streamID in s.streams {
      ToAcceptor(sys, side);
    } else {
      ToNobody(sys, side);
    }
    forall id: nat ensures PairAt(sys', id) {
      if id != m.streamID {
        ProjHead(Sent(sys, !side), id);
        ProjSent(Sent(sys, side), HandleMessage(s, m).sent, m.streamID, id);
        Untroubled(sys, sys', side, id);
      }
    }
  }

  /** A body that does not decode ends the session that reads it. */
  lemma UndecodedInv(sys: System, side: bool)
    requires SysInv(sys) && !End(sys, side).closed && Sent(sys, !side) != [] && !Fits(Sent(sys, !side)[0])
    ensures SysInv(StepTo(sys, Arrive(side)))
  {
    hide PairAt, SessionInv;
    var sys1, sys' := Down(sys, side), StepTo(sys, Arrive(side));
    DownInv(sys, side);
    assert Sent(sys, side) + [] == Sent(sys, side);
    forall id: nat ensures PairAt(sys', id) {
      ProjHead(Sent(sys, !side), id);
      if id == Sent(sys, !side)[0].streamID {
        SkipPair(sys1, sys', side);
      } else {
        Untroubled(sys1, sys', side, id);
      }
    }
  }

  /** A closed session skips the message. */
  lemma SkipPair(sys: System, sys': System, side: bool)
    requires SysInv(sys) && End(sys, side).closed && Sent(sys, !side) != [] && !Fits(Sent(sys, !side)[0])
    requires sys' == With(sys, side, End(sys, side), Sent(sys, side), Sent(sys, !side)[1..])
    ensures PairAt(sys', Sent(sys, !side)[0].streamID)
  {
    hide PairInv, GuestID, SessionInv;
    var s, k := End(sys, side), Sent(sys, !side)[0].streamID;
    ProjHead(Sent(sys, !side), k);
    assert PairAt(sys, k);
    var o, t := End(sys, GuestID(k)), End(sys, !GuestID(k));
    var out, back := Proj(Sent(sys, GuestID(k)), k), Proj(Sent(sys, !GuestID(k)), k);
    if GuestID(k) == side {
      GoneWhenClosed(s, k);
      OpenerReceive(o.streams[k], Lookup(t.streams, k), out, back, o.closed, t.closed, s.buffered);
      assert out + Emit(true, []) == out;
    } else if k in s.streams {
      GoneWhenClosed(s, k);
      AcceptorReceive(o.streams[k], s.streams[k], out, back, o.closed, t.closed, s.buffered);
      assert back + Emit(true, []) == back;
    } else {
      OpenFits(o.streams[k], out, back, o.closed, t.closed);
      UnknownDropped(o.streams[k], out, back, o.closed, t.closed);
    }
  }

  lemma GoneWhenClosed(s: Session, id: nat)
    requires SessionInv(s) && s.closed && id in s.streams
    ensures !s.streams[id].attached && Ready(s.streams[id], s.buffered)
  {
    StreamReady(s, id);
    assert StreamOk(s, id);
  }

  lemma OpenFits(a: Stream, ab: seq<AppMsg>, ba: seq<AppMsg>, aDown: bool, bDown: bool)
    requires PairInv(a, None, ab, ba, aDown, bDown) && ab != []
    ensures ab[0].AppOpen? ==> Fits(ab[0])
  {
  }

  // ---- Runs ----

  /** Every event keeps the invariant. */
  lemma StepInv(sys: System, ev: Event)
    requires SysInv(sys)
    ensures SysInv(StepTo(sys, ev))
  {
    hide SysInv;
    match ev
    case Local(side, c) =>
      if c.OpenCall? {
        OpenInv(sys, side, c);
      } else if c.ConnectionLost? {
        DownInv(sys, side);
        assert Sent(sys, side) + [] == Sent(sys, side);
      } else if AboutStream(c) {
        if c.id in End(sys, side).streams {
          CallInv(sys, side, c);
        } else {
          assert Sent(sys, side) + [] == Sent(sys, side);
        }
      }
    case Arrive(side) =>
      if !End(sys, side).closed && Sent(sys, !side) != [] {
        if Fits(Sent(sys, !side)[0]) {
          DeliverInv(sys, side);
        } else {
          UndecodedInv(sys, side);
        }
      }
  }

  lemma StartInv()
    ensures SysInv(Start())
  {
    NewSessionInv(false);
    NewSessionInv(true);
  }

  lemma {:induction false} RunInv(sys: System, evs: seq<Event>)
    requires SysInv(sys)
    ensures SysInv(Run(sys, evs))
    decreases |evs|
  {
    if evs != [] {
      StepInv(sys, evs[0]);
      RunInv(StepTo(sys, evs[0]), evs[1..]);
    }
  }
}
