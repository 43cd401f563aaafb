/**
 One session (protocol/app/session.go) as a value: its streams, its ID allocator
 and its buffered-byte ledger, and what each call, goroutine step or incoming
 message does to it.
 */
module AppSession {
  import opened Basics
  import opened AppLimits
  import opened AppMessages
  import opened AppStream

  /**
   `streams` keeps every stream by its ID, also after it has left the table; the
   table of the session is the streams that are `attached`.
   */
  datatype Session = Session(guest: bool, streams: map<nat, Stream>, nextID: nat, closed: bool, buffered: int)

  /** A call of the application, a step of one of the session's goroutines, or an incoming message. */
  datatype Call =
    | OpenCall(service: Bytes, meta: Bytes)
    | OpenReady(id: nat)
    | OpenTimeout(id: nat)
    | OpenAborted(id: nat)
    | WriteCall(id: nat, p: Bytes)
    | ReadCall(id: nat, room: nat)
    | CloseCall(id: nat)
    | ResetCall(id: nat, fault: Fault)
    | LoopTake(id: nat)
    | LoopSend(id: nat)
    | HandlerAccept(id: nat, meta: Bytes)
    | HandlerReject(id: nat, fault: Fault)
    | ConnectionLost
    | Incoming(m: AppMsg)

  /** The new session, the messages sent, the codes of the ERROR frames sent, and the caller's result. */
  datatype Effect = Effect(s: Session, sent: seq<AppMsg>, errors: seq<nat>, res: Result)

  function NewSession(guest: bool): Session {
    Session(guest, map[], 0, false, 0)
  }

  function LocalBit(guest: bool): nat {
    if guest then InitiatorBit else 0
  }

  /** The initiator bit of an ID. */
  predicate GuestID(id: nat) {
    id / InitiatorBit % 2 == 1
  }

  function Table(s: Session): set<nat> {
    set id | id in s.streams && s.streams[id].attached
  }

  /** A closed session cannot send. */
  function OnStream(s: Session, id: nat, out: Out): Effect {
    Effect(s.(streams := s.streams[id := out.st], buffered := out.buffered),
           if s.closed then [] else out.sent, [], out.res)
  }

  function Idle(s: Session, res: Result): Effect {
    Effect(s, [], [], res)
  }

  // ---- Opening ----

  function OpenStream(s: Session, service: Bytes, meta: Bytes): Effect {
    if !ValidAppService(service) || |meta| > AppMaxMetaBytes then Idle(s, Invalid)
    else if s.closed then Idle(s, Closed)
    else if |Table(s)| >= AppMaxStreams then
      Idle(s, Failed(Fault(AppQuotaExceeded, Ascii("stream quota exceeded"))))
    else if s.nextID >= MaxLocalStreamID then Idle(s, Exhausted)
    else
      var id := LocalBit(s.guest) + s.nextID + 1;
      Effect(s.(nextID := s.nextID + 1, streams := s.streams[id := NewStream(id, false)]),
             [AppOpen(id, service, meta)], [], Opened(id))
  }

  function HandleOpen(s: Session, id: nat, service: Bytes, meta: Bytes): Effect {
    if id == 0 || GuestID(id) == s.guest || !ValidAppService(service) || |meta| > AppMaxMetaBytes then
      Effect(s, [AppReject(id, AppProtocolError, Ascii("invalid APP_OPEN"))], [], Done)
    else if id in Table(s) then
      Effect(s, [AppReject(id, AppProtocolError, Ascii("duplicate stream_id"))], [], Done)
    else if |Table(s)| >= AppMaxStreams then
      Effect(s, [AppReject(id, AppQuotaExceeded, Ascii("stream quota exceeded"))], [], Done)
    else
      Effect(s.(streams := s.streams[id := NewStream(id, true)]), [], [], Done)
  }

  // ---- Failing ----

  function Lost(st: Stream): Stream {
    if st.attached then RemoteReset(st, 0, ConnectionClosed).st else st
  }

  function Fail(s: Session): Session {
    if s.closed then s
    else s.(closed := true, buffered := 0, streams := map id | id in s.streams :: Lost(s.streams[id]))
  }

  // ---- Everything ----

  /** What a call about one stream does to it. */
  function StreamCall(st: Stream, buffered: int, closed: bool, c: Call): (out: Out)
    ensures !st.hs.handling ==> Plain(st, out)
  {
    match c
    case OpenReady(_) => OpenReturn(st, buffered, closed)
    case OpenTimeout(_) => OpenExpire(st, buffered)
    case OpenAborted(_) =>
      if st.hs.waiting && closed then Out(st.(hs := st.hs.(waiting := false)), buffered, [], Closed)
      else Out(st, buffered, [], Blocked)
    case WriteCall(_, p) => if st.handle then Write(st, buffered, p) else Out(st, buffered, [], Blocked)
    case ReadCall(_, room) => if st.handle then Read(st, buffered, room) else Out(st, buffered, [], Blocked)
    case CloseCall(_) => if st.handle then CloseWrite(st, buffered) else Out(st, buffered, [], Blocked)
    case ResetCall(_, fault) => if st.handle then ResetRemote(st, buffered, fault) else Out(st, buffered, [], Blocked)
    case LoopTake(_) => WriterTake(st, buffered)
    case LoopSend(_) =>
      if closed then Out(st.(tx := st.tx.(held := []), writer := st.writer && st.tx.held == []), buffered, [], Done)
      else WriterSend(st, buffered)
    case HandlerAccept(_, meta) => AcceptOk(st, buffered, meta, closed)
    case HandlerReject(_, fault) => AcceptFail(st, buffered, fault)
    case _ => Out(st, buffered, [], Blocked)
  }

  /** The read loop of a closed session has stopped; a body that does not decode draws ERROR and ends the session. */
  function HandleMessage(s: Session, m: AppMsg): Effect {
    if s.closed then Idle(s, Closed)
    else if !Fits(m) then Effect(Fail(s), [], [BadPayload], Closed)
    else if m.AppOpen? then HandleOpen(s, m.streamID, m.service, m.meta)
    else if m.streamID in Table(s) then
      OnStream(s, m.streamID, Receive(s.streams[m.streamID], s.buffered, m))
    else Idle(s, Done)
  }

  function Next(s: Session, c: Call): Effect {
    match c
    case OpenCall(service, meta) => OpenStream(s, service, meta)
    case ConnectionLost => Effect(Fail(s), [], [], Closed)
    case Incoming(m) => HandleMessage(s, m)
    case _ =>
      if c.id in s.streams then OnStream(s, c.id, StreamCall(s.streams[c.id], s.buffered, s.closed, c))
      else Idle(s, Blocked)
  }
}
