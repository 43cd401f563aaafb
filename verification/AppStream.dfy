/**
 One end of an app-channel stream as a value, and what each operation of
 protocol/app/stream.go does to it.

 An operation is a function from a stream and the session's buffered-byte ledger
 to an `Out`: the new stream, the new ledger, the messages handed to the
 connection and the result the caller sees.
 */
module AppStream {
  import opened Basics
  import opened AppLimits
  import opened AppMessages

  /** A wire code with its text: the payload of ResetError and RejectError. */
  datatype Fault = Fault(code: nat, message: Bytes)

  datatype Report = StreamOpened | StreamClosed

  /**
   The sending half.
   - `held`: the chunk the write loop has dequeued and not yet sent
   - `wrote`: every byte `Write` has accepted
   - `early`: `CloseWrite` sent APP_CLOSE while the write loop held a chunk
   */
  datatype Sender = Sender(sndCredit: int, sendQ: seq<Bytes>, held: Bytes, wrote: Bytes,
                           closeAfterFlush: bool, localClosed: bool, early: bool)

  /** The receiving half; `got` is every byte `Read` has returned. */
  datatype Receiver = Receiver(rcvWindow: int, inQ: seq<Bytes>, got: Bytes, remoteClosed: bool)

  /**
   The open handshake.
   - `waiting`: the `Open` call that created the stream has not returned
   - `handling`: the `acceptOpen` goroutine has not returned
   - `readyCloses`: how often the `ready` channel has been closed (a second time would panic)
   - `grant`: the credit APP_ACCEPT granted
   */
  datatype Handshake = Handshake(opening: bool, accepting: bool, waiting: bool, handling: bool,
                                 openErr: Option<Fault>, readyCloses: int, grant: nat)

  /** The end of the stream; `reports` is what the observer has been told, `announced` that StreamOpened is in it. */
  datatype Life = Life(reset: Option<Fault>, announced: bool, finished: bool, reports: seq<Report>)

  /**
   The fields of `Stream` in four groups.
   - `attached`: the session's table maps `id` to this stream
   - `writer`: the write loop is running
   - `handle`: the application (or its bridge) holds the stream
   */
  datatype Stream = Stream(
    id: nat, inbound: bool,
    tx: Sender, rx: Receiver, hs: Handshake, life: Life,
    sendBytes: int, inBytes: int,
    attached: bool, writer: bool, handle: bool)

  /** What a call returns; `Blocked` means that it waits, or that no such call is under way. */
  datatype Result =
    | Done
    | Wrote(n: int)
    | Got(data: Bytes)
    | Eof
    | Blocked
    | Closed
    | Failed(fault: Fault)
    | Opened(id: nat)
    | Invalid
    | Exhausted

  datatype Out = Out(st: Stream, buffered: int, sent: seq<AppMsg>, res: Result)

  /** Messages of the open handshake. */
  predicate Answer(m: AppMsg) {
    m.AppOpen? || m.AppAccept? || m.AppReject?
  }

  /** At most one message, about this stream and no part of the open handshake. */
  predicate Plain(st: Stream, out: Out) {
    && |out.sent| <= 1
    && (out.sent != [] ==> out.sent[0].streamID == st.id && !Answer(out.sent[0]))
    && out.st.hs.openErr == st.hs.openErr
  }

  const SendQueueOverflow := Fault(AppOverflow, Ascii("send queue overflow"))
  const SessionBufferExceeded := Fault(AppQuotaExceeded, Ascii("session buffer exceeded"))
  const OpenContextDone := Fault(AppTimeout, Ascii("open context done"))
  const ConnectionClosed := Fault(AppPeerGone, Ascii("connection closed"))

  function Violation(text: string): Fault {
    Fault(AppProtocolError, Ascii(text))
  }

  // ---- Construction ----

  function NewStream(id: nat, inbound: bool): Stream {
    Stream(id, inbound,
           Sender(0, [], [], [], false, false, false),
           Receiver(if inbound then 0 else AppInitialWindow, [], [], false),
           Handshake(!inbound, inbound, !inbound, inbound, None, 0, 0),
           Life(None, false, false, []),
           0, 0, true, false, false)
  }

  // ---- Teardown ----

  /** The ledger after n bytes are given back; it never goes below zero. */
  function Release(buffered: int, n: int): int {
    if n >= buffered then 0 else buffered - n
  }

  function Detach(st: Stream, buffered: int): Out {
    Out(st.(attached := false, sendBytes := 0, inBytes := 0),
        Release(buffered, st.sendBytes + st.inBytes), [], Done)
  }

  function Finish(st: Stream, buffered: int): Out {
    if st.life.finished then Out(st, buffered, [], Done)
    else
      Detach(st.(life := st.life.(finished := true,
                                  reports := if st.life.announced then st.life.reports + [StreamClosed]
                                             else st.life.reports)),
             buffered)
  }

  function MarkOpened(st: Stream): Stream {
    if st.life.finished || st.life.announced then st
    else st.(life := st.life.(announced := true, reports := st.life.reports + [StreamOpened]))
  }

  /** The first reset reason sticks; a reset during the open handshake wakes `Open`. */
  function SetReset(st: Stream, fault: Fault): Stream {
    if st.life.reset.Some? then st
    else
      st.(life := st.life.(reset := Some(fault)),
          hs := st.hs.(opening := false,
                       readyCloses := if st.hs.opening then st.hs.readyCloses + 1 else st.hs.readyCloses))
  }

  function RemoteReset(st: Stream, buffered: int, fault: Fault): Out {
    Finish(SetReset(st, fault), buffered)
  }

  function ResetRemote(st: Stream, buffered: int, fault: Fault): (out: Out)
    ensures Plain(st, out) && out.res == Failed(fault)
  {
    RemoteReset(st, buffered, fault).(
      sent := [AppReset(st.id, fault.code, fault.message)], res := Failed(fault))
  }

  /** Clean teardown: both directions closed and nothing left to send or read. */
  function MaybeFinish(st: Stream, buffered: int): (out: Out)
    ensures out.sent == [] && out.res == Done
  {
    if st.tx.localClosed && st.rx.remoteClosed && st.tx.sendQ == [] && st.rx.inQ == [] then Finish(st, buffered)
    else Out(st, buffered, [], Done)
  }

  // ---- Calls of the application ----

  function Write(st: Stream, buffered: int, p: Bytes): (out: Out)
    ensures Plain(st, out)
  {
    if p == [] then Out(st, buffered, [], Wrote(0))
    else if st.life.reset.Some? then Out(st, buffered, [], Failed(st.life.reset.value))
    else if st.tx.localClosed || st.tx.closeAfterFlush then Out(st, buffered, [], Closed)
    else if st.sendBytes + |p| > AppMaxSendQueue then ResetRemote(st, buffered, SendQueueOverflow)
    else if buffered + |p| > AppMaxBuffered then ResetRemote(st, buffered, SessionBufferExceeded)
    else
      Out(st.(tx := st.tx.(sendQ := st.tx.sendQ + [p], wrote := st.tx.wrote + p), sendBytes := st.sendBytes + |p|),
          buffered + |p|, [], Wrote(|p|))
  }

  /** The queue without its first n bytes, which all lie in its first chunk. */
  function DropFront(q: seq<Bytes>, n: int): seq<Bytes>
    requires q != [] && 0 <= n <= |q[0]|
  {
    if n == |q[0]| then q[1..] else [q[0][n..]] + q[1..]
  }

  function Read(st: Stream, buffered: int, room: nat): (out: Out)
    ensures Plain(st, out)
  {
    if room == 0 then Out(st, buffered, [], Got([]))
    else if st.life.reset.Some? then Out(st, buffered, [], Failed(st.life.reset.value))
    else if st.rx.inQ != [] then
      var n := Min(room, |st.rx.inQ[0]|);
      Out(st.(rx := st.rx.(inQ := DropFront(st.rx.inQ, n), rcvWindow := st.rx.rcvWindow + n,
                           got := st.rx.got + st.rx.inQ[0][..n]),
              inBytes := st.inBytes - n),
          Release(buffered, n), [AppCredit(st.id, n)], Got(st.rx.inQ[0][..n]))
    else if st.rx.remoteClosed then MaybeFinish(st, buffered).(res := Eof)
    else Out(st, buffered, [], Blocked)
  }

  function CloseWrite(st: Stream, buffered: int): (out: Out)
    ensures Plain(st, out)
  {
    if st.life.reset.Some? then Out(st, buffered, [], Failed(st.life.reset.value))
    else if st.tx.localClosed || st.tx.closeAfterFlush then Out(st, buffered, [], Done)
    else if st.tx.sendQ == [] then
      var tx := st.tx.(closeAfterFlush := true, localClosed := true, early := st.tx.held != []);
      MaybeFinish(st.(tx := tx), buffered).(sent := [AppClose(st.id)])
    else Out(st.(tx := st.tx.(closeAfterFlush := true)), buffered, [], Done)
  }

  // ---- The write loop ----

  /** How much of the first queued chunk the write loop takes. */
  function TakeSize(st: Stream): int
    requires st.tx.sendQ != []
  {
    Min(Min(|st.tx.sendQ[0]|, st.tx.sndCredit), AppMaxDataBytes)
  }

  /** One pass of the write loop up to the point where it gives up the stream's lock. */
  function WriterTake(st: Stream, buffered: int): (out: Out)
    ensures Plain(st, out)
  {
    if !st.writer || st.tx.held != [] then Out(st, buffered, [], Blocked)
    else if st.life.reset.Some? then Out(st.(writer := false), buffered, [], Done)
    else if st.tx.sendQ != [] && st.tx.sndCredit > 0 then
      var n := TakeSize(st);
      Out(st.(tx := st.tx.(sndCredit := st.tx.sndCredit - n, held := st.tx.sendQ[0][..n],
                           sendQ := DropFront(st.tx.sendQ, n)),
              sendBytes := st.sendBytes - n),
          Release(buffered, n), [], Done)
    else if st.tx.sendQ == [] && st.tx.closeAfterFlush then
      MaybeFinish(st.(tx := st.tx.(localClosed := true), writer := false), buffered).(sent := [AppClose(st.id)])
    else Out(st, buffered, [], Blocked)
  }

  /** The rest of the pass: the chunk goes to the connection. */
  function WriterSend(st: Stream, buffered: int): (out: Out)
    ensures Plain(st, out)
  {
    if st.tx.held == [] then Out(st, buffered, [], Blocked)
    else Out(st.(tx := st.tx.(held := [])), buffered, [AppData(st.id, st.tx.held)], Done)
  }

  // ---- Incoming messages ----

  function Deliver(st: Stream, buffered: int, data: Bytes): Out {
    if data == [] then Out(st, buffered, [], Done)
    else if |data| > AppMaxDataBytes then ResetRemote(st, buffered, Violation("data frame too large"))
    else if st.hs.accepting || st.hs.opening then ResetRemote(st, buffered, Violation("data before accept"))
    else if st.rx.remoteClosed || st.life.reset.Some? then ResetRemote(st, buffered, Violation("data after close"))
    else if |data| > st.rx.rcvWindow then ResetRemote(st, buffered, Violation("credit exceeded"))
    else if buffered + |data| > AppMaxBuffered then ResetRemote(st, buffered, SessionBufferExceeded)
    else
      Out(st.(rx := st.rx.(rcvWindow := st.rx.rcvWindow - |data|, inQ := st.rx.inQ + [data]),
              inBytes := st.inBytes + |data|),
          buffered + |data|, [], Done)
  }

  /** The sum is a uint32 and wraps. */
  function AddCredit(st: Stream, buffered: int, n: nat): Out {
    if n == 0 || st.life.reset.Some? then Out(st, buffered, [], Done)
    else if (st.tx.sndCredit + n) % Uint32Space > AppMaxCredit then
      ResetRemote(st, buffered, Violation("credit cap exceeded"))
    else Out(st.(tx := st.tx.(sndCredit := (st.tx.sndCredit + n) % Uint32Space)), buffered, [], Done)
  }

  function RemoteClose(st: Stream, buffered: int): Out {
    if st.life.reset.Some? || st.rx.remoteClosed then Out(st, buffered, [], Done)
    else MaybeFinish(st.(rx := st.rx.(remoteClosed := true)), buffered)
  }

  function HandleAccept(st: Stream, buffered: int, meta: Bytes, grant: nat): Out {
    if |meta| > AppMaxMetaBytes then ResetRemote(st, buffered, Violation("accept meta too large"))
    else if grant == 0 || grant > AppMaxCredit then ResetRemote(st, buffered, Violation("invalid accept grant"))
    else if !st.hs.opening then Out(st, buffered, [], Done)
    else
      Out(st.(hs := st.hs.(opening := false, grant := grant, readyCloses := st.hs.readyCloses + 1),
              tx := st.tx.(sndCredit := grant)),
          buffered, [], Done)
  }

  function HandleReject(st: Stream, buffered: int, fault: Fault): Out {
    if !st.hs.opening then Out(st, buffered, [], Done)
    else
      Detach(st.(hs := st.hs.(opening := false, openErr := Some(fault), readyCloses := st.hs.readyCloses + 1)),
             buffered)
  }

  /** What an incoming message does to the stream it names; APP_OPEN names none. */
  function Receive(st: Stream, buffered: int, m: AppMsg): Out {
    match m
    case AppOpen(_, _, _) => Out(st, buffered, [], Done)
    case AppAccept(_, meta, grant) => HandleAccept(st, buffered, meta, grant)
    case AppReject(_, code, message) => HandleReject(st, buffered, Fault(code, message))
    case AppData(_, data) => Deliver(st, buffered, data)
    case AppCredit(_, n) => AddCredit(st, buffered, n)
    case AppClose(_) => RemoteClose(st, buffered)
    case AppReset(_, code, message) => RemoteReset(st, buffered, Fault(code, message))
  }

  // ---- The open handshake ----

  /** The `Open` call wakes because `ready` is closed. */
  function OpenReturn(st: Stream, buffered: int, sessionClosed: bool): (out: Out)
    ensures Plain(st, out)
  {
    if !st.hs.waiting || st.hs.readyCloses == 0 then Out(st, buffered, [], Blocked)
    else if st.hs.openErr.Some? then Out(st.(hs := st.hs.(waiting := false)), buffered, [], Failed(st.hs.openErr.value))
    else if st.life.reset.Some? then Out(st.(hs := st.hs.(waiting := false)), buffered, [], Failed(st.life.reset.value))
    else
      Out(MarkOpened(st.(hs := st.hs.(waiting := false), writer := !sessionClosed, handle := true)),
          buffered, [], Opened(st.id))
  }

  /** The context of the `Open` call ends first. */
  function OpenExpire(st: Stream, buffered: int): (out: Out)
    ensures Plain(st, out)
  {
    if !st.hs.waiting then Out(st, buffered, [], Blocked)
    else ResetRemote(st.(hs := st.hs.(waiting := false)), buffered, OpenContextDone)
  }

  /** The handler took the stream. On a closed session the APP_ACCEPT cannot be sent and no bridge starts. */
  function AcceptOk(st: Stream, buffered: int, meta: Bytes, sessionClosed: bool): Out {
    if !st.hs.handling then Out(st, buffered, [], Blocked)
    else if |meta| > AppMaxMetaBytes then AcceptFail(st, buffered, Violation("accept meta too large"))
    else
      Out(MarkOpened(st.(hs := st.hs.(accepting := false, handling := false),
                         tx := st.tx.(sndCredit := AppInitialWindow), rx := st.rx.(rcvWindow := AppInitialWindow),
                         writer := !sessionClosed, handle := !sessionClosed)),
          buffered, [AppAccept(st.id, meta, AppInitialWindow)], Done)
  }

  function AcceptFail(st: Stream, buffered: int, fault: Fault): Out {
    if !st.hs.handling then Out(st, buffered, [], Blocked)
    else
      Detach(st.(hs := st.hs.(handling := false)), buffered).(sent := [AppReject(st.id, fault.code, fault.message)])
  }
}
