# MVCP in Dafny

A model of the MVCP protocol library and machine-checked proofs about it: the app
channel (credit-controlled byte streams multiplexed over one connection), the
handshake with its capability negotiation, the wire codec under both, the routing of
the RPC client and the heartbeat message. `dafny verify dfyconfig.toml` checks
everything.

## How it is organised

**App channel.** `AppStream` and `AppSession` give every operation of
`protocol/app/stream.go` and `protocol/app/session.go` as a function on values: a stream
and the session's buffered-byte ledger go in; the new stream, the new ledger, the messages
sent and the caller's result come out. `AppChannel` is the same code as objects that are
updated in place; each method is proved to have exactly the outcome of the function, and
`Session.Perform` / `Stream.Perform` show that the objects do, call by call, what the
value-level session does. So everything below about sessions holds of the objects.

- `AppStreamProofs`, `AppSessionProofs`: what one session keeps against an arbitrary peer.
- `AppContracts`: what each call and message does to such a session, case by case: results,
  messages, resets with their codes, with limits and codes as numbers.
- `AppHistory`: the bytes that calls accept and return over whole runs. `EndToEnd` speaks of the
  results of Write and Read calls alone.
- `AppPair`, `AppDuplex`, `AppPhase`, `AppDelivery`: the invariant of the two ends of one
  stream and the messages between them, through the open handshake, data, half-close,
  reset and loss of the connection.
- `AppSystem`: a host and a guest over two FIFO wires. An event is a call of an
  application, a step of a goroutine, the arrival of a message, or the loss of the
  connection, in any order. `SysInv` holds in every run.
- `AppTheorems`, `AppLifecycle`, `AppProgress`: the theorems about runs.
- `AppCalm`, `AppRace`, `AppRaceRun`, `AppAtomic`: the one interleaving that breaks a
  stream, exactly when it happens, what it costs, and what excludes it.
- `AppReasons`: reasons too long for their length field, exactly when they are sent and what
  they cost.

**A result about the code.** The write loop gives up the stream's lock between dequeuing
a chunk and sending it (stream.go:169-171), and `CloseWrite` sends APP_CLOSE itself when the
queue is empty (stream.go:266-275). The close can overtake the last chunk. The model keeps
dequeue and send as two steps, so this is visible. The sender's history field `early` records
that its CloseWrite sent the close while the write loop held a chunk (`CallEarly`), and the
theorems about every run say with it exactly what is lost: a receiver at EOF has everything if
and only if the sender was not early (`EofComplete`, `Drained`), and the only protocol error
two correct sessions can see is data behind an early close (`NoProtocolViolation`,
`NoProtocolErrorReset`). `CloseOrder` and `CalmIsExact` prove that data follows the close on the
wire exactly if `CloseWrite` is called while the write loop holds a chunk (`Overtakes`).
`RaceLosesTheChunk` proves that the receiver then resets the stream or reports EOF without the
chunk, and `OvertakenForGood` that nothing that happens later repairs it. `RaceRun` is such a
run from the start. A run is *calm* if no such call happens; `CalmIffPunctual` proves that this
is the same as no end being early, and `AtomicIsCalm` that every run is calm if dequeue and send
are one step.

**Bytes.** `Wire` treats a message body as a list of fields and proves encoding and strict
decoding once for every layout. `AppCodec`, `AppMarshal` are the APP_* bodies, `Frames` the
frames, and `AppTransport` proves that the bytes in flight carry exactly the messages in
flight, in every run.

**Handshake.** `Capabilities`, `Hello`, `HelloCodec`, `HelloCode`, `Handshake`,
`HandshakeCode`.

**RPC and heartbeat.** `RpcCall`, `RpcClient`, `Heartbeat`.

**Formats.** `Formats` states the byte layouts of the wire documents with their numbers and
proves that the encoders produce them.

## Assumptions of the model

- Between the two halves of a write-loop pass anything may happen. Every other call is one
  step: `Open` up to its wait, its return, `Write`, `Read`, `CloseWrite`, a reset with its
  APP_RESET, the end of `acceptOpen`, the handling of one message. Observers do not call
  back into the stream.
- A closed session cannot send: its connection is gone. Loss of the connection is an event
  that may happen at any time, on either side.
- A blocked call returns `Blocked` and may be repeated; a goroutine that waits does nothing.
- Choices of Go's `select` are parameters. Map iteration takes any order.
- Some fields are history only and decide nothing: the bytes written and read, the reports to
  observers, the number of times `ready` was closed, and whether a close was early.
- Numbers are unbounded in the model; the uint32 wrap of the credit sum, the truncation of
  lengths by the encoders, and the wrap of message IDs are written out.
- The texts of handshake errors are parameters.

## Where the code and its documentation disagree

The model follows the code.

- docs/services/app-channel.md says that an APP_CREDIT over the cap resets the stream. The
  sum is a uint32: `OverGrantResetsIffNoWrap` proves that the reset happens exactly if the
  sum does not wrap.
- The comment on `CloseWrite` says that it flushes queued data first; see the race above.
- docs/services/app-channel.md says that stream IDs are never reused. The code enforces this
  for the IDs it allocates (`OpenedIsNew`), and between two correct sessions nothing is ever
  taken back (`RunOnward`). An APP_OPEN for an ID that has left the table is accepted
  (`ReopenedRun`). `OnwardIff` and `PeerOnward` prove that such an APP_OPEN is the only thing
  with which any peer can make a session take anything back.
- Reasons of 65536 bytes or more are encoded with a truncated length, so the peer refuses the
  message (`SentDecodes`), answers ERROR(BAD_PAYLOAD) and ends its session with every stream on
  it, as `Serve` does. `WiresFitIff` proves that this needs a Reset call or a rejection of a
  handler with such a reason, `OverlongEnds` that it then happens from any state,
  `SessionsSurvive` that without one a session ends only with its own connection, and
  `LongRefusal` is a run from the start.
- The comment on `pendingCall` says that frames are never dropped. That holds until the call
  is abandoned; after that frames may be lost, but `PendingCall.Valid` keeps their order.

## Model

| member | source | states |
|---|---|---|
| `AppTheorems.Fidelity` | protocol/app/stream.go:130-252 | In every run of two sessions, per direction of each stream: bytes read are a prefix of bytes accepted by Write; while the receiver is in its table and the sender unreset and in its table or not early, accepted bytes are read bytes, receive queue, data on the wire, chunk in hand and send queue, in order; an unreset receiver that has seen the close has everything exactly if the sender was not early |
| `AppTheorems.EofComplete` | protocol/app/stream.go:214-235 | In every run a Read that returns EOF means that the other end exists and has closed, and it has returned everything the peer's Write accepted exactly if the peer's close did not overtake a chunk |
| `AppHistory.EndToEnd` | protocol/app/stream.go:180-252 | In every run, what one side's Read calls on a stream have returned is a prefix of what the other side's Write calls on it have accepted, both as the results of the calls say |
| `AppHistory.ReadReturnsNext` | protocol/app/stream.go:214-252 | In every run a Read returns the next bytes the peer's Write calls accepted, at least one and no more than it has room for |
| `AppHistory.EofReturnsAll` | protocol/app/stream.go:232-235 | At EOF the Read calls have returned everything the peer's Write calls accepted, exactly if its close was not early |
| `AppHistory.PeerBytes` | protocol/app/stream.go:180-325 | Against an arbitrary peer that reopens nothing: the histories are what Read calls returned and Write calls accepted, and on an unreset stream every byte of data that came for it has been read or is queued, in order |
| `AppTheorems.CreditConserved` | protocol/app/stream.go:153-168 | In every run, between two ends in their tables: credit, bytes in hand and on the wire and credit on its way back add up to the receiver's window; window and unread bytes add up to the initial window |
| `AppTheorems.NoCreditDeadlock` | protocol/app/stream.go:133-168 | In every run a sender without credit has bytes in hand, or data bytes or credit are under way, or its peer has bytes to read |
| `AppTheorems.NoProtocolViolation` | protocol/app/stream.go:291-344 | In every run, the next message of a correct peer: if its reason fits its length field, it is taken, ignored, or refused with QUOTA_EXCEEDED, or is data behind an early close and refused as data after close, and the session stays open; if it does not fit, it is answered with ERROR(BAD_PAYLOAD) and ends the session |
| `AppTheorems.OpenedIsNew` | protocol/app/session.go:406-419 | In every run an ID given out by Open is non-zero, carries the local bit, and is unknown to both sides and both wires |
| `AppTheorems.Drained` | protocol/app/stream.go:386-397 | When no message, write loop or Read can make a further step in an open system: on an unreset stream every half-close has been sent and seen, everything written has been read exactly if the sender was not early, and an end of a stream closed from both sides has left its table with StreamOpened and StreamClosed reported |
| `AppLifecycle.NoProtocolErrorReset` | protocol/app/stream.go:364-384 | In every run a stream between two correct sessions is reset with PROTOCOL_ERROR only as data after close and only if one of its ends closed early, unless an application passes that code to Reset |
| `AppLifecycle.RunOnward` | protocol/app/stream.go:372-384 | Over every run of two sessions the first reset reason stays, closed directions stay closed with their bytes final, a detached stream never returns, and `ready` is closed exactly when `opening` falls |
| `AppLifecycle.OnwardIff` | protocol/app/session.go:278-304 | Against an arbitrary peer: a call or message makes a session take back a reset reason, a close, bytes or the end of a stream exactly if it is a valid APP_OPEN, on an open session with room, for a known ID that has left the table |
| `AppLifecycle.PeerOnward` | protocol/app/session.go:238-304 | Every step of a session against an arbitrary peer takes nothing back exactly if none is such an APP_OPEN, and then the whole run takes nothing back |
| `AppLifecycle.ReopenedRun` | protocol/app/session.go:283-301 | A stream that was opened and refused is back in the table, as new, after a second APP_OPEN |
| `AppLifecycle.Lifecycle` | protocol/app/session.go:394-515 | In every run: StreamClosed at most once and only after StreamOpened, `ready` closed at most once, a stream returned by Open has a grant between 1 and the cap, a failed session's table is empty |
| `AppLifecycle.PeerLifecycle` | protocol/app/session.go:394-515 | Against an arbitrary peer too: StreamClosed at most once and only after StreamOpened, `ready` closed at most once, a stream returned by Open has a grant between 1 and the cap |
| `AppProgress.StepSettles` | protocol/app/stream.go:130-176 | Every event that is not an Open, Write, CloseWrite or Reset call changes nothing or strictly lowers a measure over frames in flight, pending opens, write loops and queued bytes |
| `AppProgress.Quiescence` | protocol/app/session.go:214-276 | Without further demands of the applications the number of changes is bounded by that measure, whatever the interleaving |
| `AppProgress.NoReply` | protocol/app/session.go:260-271 | A session never answers a RESET, a REJECT or a CLOSE about a stream; it answers one with ERROR(BAD_PAYLOAD) exactly if it is open and the reason is too long for its length field |
| `AppProgress.StepsMoveBytes` | protocol/app/stream.go:153-165 | In every run an enabled write-loop pass takes between one byte and a frame's worth, and a Read that finds a chunk returns at least one byte |
| `AppRace.CloseOrder` | protocol/app/stream.go:255-280 | Of a sender not yet early: data follows the close on the wire exactly if CloseWrite is called while the write loop holds a chunk |
| `AppRace.CalmIsExact` | protocol/app/stream.go:166-280 | After any run, a CloseWrite of a sender not yet early and the pending send of the write loop leave data behind a close in flight exactly if that CloseWrite was not calm |
| `AppRace.RaceLosesTheChunk` | protocol/app/stream.go:301-305 | After that, whatever is still on the wire ahead of the close: once everything has arrived the receiver has been reset, or has seen the close without the chunk |
| `AppRace.RaceInRuns` | protocol/app/stream.go:291-356 | In every run, wherever the receiver is, also in the open handshake or out of its table: once everything under way, the overtaking close and the chunk have arrived it has been reset or has seen the close without the chunk |
| `AppRace.EarlyLosesBytes` | protocol/app/stream.go:255-280 | In every run an early closer has a peer that has not read all its bytes; once its messages have been taken the peer has been reset or has seen the close |
| `AppRace.OvertakenForGood` | protocol/app/stream.go:255-280 | After an overtaking CloseWrite in any run, whatever happens next, the peer never has everything that was written |
| `AppCalm.CallEarly` | protocol/app/stream.go:255-280 | A call makes a stream early exactly if it is a CloseWrite while the write loop holds the last chunk |
| `AppCalm.CalmIffPunctual` | protocol/app/stream.go:166-280 | A run is calm exactly if no end of any stream is early after it |
| `AppRaceRun.RaceRun` | protocol/app/stream.go:166-175 | A run from the start in which this happens, with no Reset call |
| `AppAtomic.AtomicIsCalm` | protocol/app/stream.go:162-175 | Every run in which dequeue and send are one step is calm, and no end of any stream is early after it |
| `AppAtomic.AtomicEof` | protocol/app/stream.go:162-175 | Then EOF always means that everything written has been read |
| `AppAtomic.AtomicReset` | protocol/app/stream.go:162-175 | And no stream is ever reset with PROTOCOL_ERROR, unless an application passes that code to Reset |
| `AppReasons.CallFits` | protocol/app/stream.go:364-370 | A call sends a message that does not fit exactly if it is a Reset on a stream the application holds, or a rejection of a pending open, with a reason of 65536 bytes or more, on an open session |
| `AppReasons.WiresFitIff` | protocol/app/session.go:159-190 | In every run, everything in flight fits throughout exactly if there is no such call |
| `AppReasons.ClosedIff` | protocol/app/session.go:214-248 | In every run a session has ended exactly if it lost its connection or took a message that does not decode |
| `AppReasons.SessionsSurvive` | protocol/app/session.go:214-248 | In every run without such a call a session has ended exactly if it lost its own connection |
| `AppReasons.ShortReasons` | protocol/encode.go:49-55 | Reasons under 65536 bytes are enough for that |
| `AppReasons.OverlongEnds` | protocol/app/session.go:224-248 | From any state, once such a call and the messages ahead have arrived, the peer's session has ended and its table is empty |
| `AppReasons.LongRefusal` | protocol/app/session.go:243-246 | A run from the start: a refused open reaches the opener as a refusal exactly if the reason is under 65536 bytes; otherwise the opener's session ends with ERROR(BAD_PAYLOAD) and its stream with the connection |
| `AppReasons.BytesCarryAll` | protocol/app/session.go:159-175 | In every run without such a call the bytes in flight decode to exactly the messages in flight |
| `AppSystem.StepInv` | protocol/app/session.go:238-276 | Every event keeps the invariant of both sessions, both wires and every stream pair |
| `AppSystem.RunInv` | protocol/app/session.go:214-236 | So does every run |
| `AppSystem.OpenWelcome` | protocol/app/session.go:278-304 | An APP_OPEN of a correct peer passes the ID and duplicate checks: only the stream quota can refuse it |
| `AppDuplex.DataWelcome` | protocol/app/stream.go:291-313 | A data message of the pair is queued, or refused for want of session memory; of the protocol-error branches of deliver only data after close can apply, and only behind an early close |
| `AppDuplex.DataTaken` | protocol/app/stream.go:291-325 | Its delivery, or its refusal for want of session memory, keeps the byte order and the credit equation of the pair |
| `AppDuplex.CreditAdded` | protocol/app/stream.go:335-342 | A credit message of the pair is added in full: the sum neither exceeds the cap nor wraps |
| `AppDuplex.CreditTaken` | protocol/app/stream.go:327-344 | Taking it keeps the credit equation of the pair |
| `AppDuplex.CloseTaken` | protocol/app/stream.go:346-356 | Taking a close, first or repeated, keeps the pair: a receiver that has seen it has all the data exactly if it was not early |
| `AppDuplex.CloseWriteKept` | protocol/app/stream.go:255-280 | CloseWrite keeps the pair, and is recorded as early exactly if the write loop holds a chunk |
| `AppDuplex.WriterTakeKept` | protocol/app/stream.go:130-170 | Dequeuing keeps the byte order and the credit equation of the pair, and so does the closing branch |
| `AppDuplex.ReadKept` | protocol/app/stream.go:214-252 | A Read and its credit message keep the pair |
| `AppDuplex.AcceptTaken` | protocol/app/session.go:351-374 | The accept of a correct peer gives the opener exactly the credit the acceptor's window covers |
| `AppSessionProofs.ArbitraryPeer` | protocol/app/session.go:456-535 | Against any peer and any calls: the ledger is exactly the bytes the queues hold and at most 8 MiB, at most 64 streams, credit at most the cap, send queues at most 1 MiB, window plus unread bytes equal the initial window, and the table is empty after a failure |
| `AppSessionProofs.NextInv` | protocol/app/session.go:238-535 | Every call, goroutine step and message keeps that invariant; the clamp of releaseBuffer never discards bytes outside fail |
| `AppSessionProofs.FailInv` | protocol/app/session.go:456-481 | Failing keeps the invariant and empties the table |
| `AppSessionProofs.LedgerIsQueues` | protocol/app/session.go:484-535 | The ledger equals the sum of the queue contents of the table |
| `AppSessionProofs.OpenFresh` | protocol/app/session.go:406-419 | The next local ID is non-zero, fits 32 bits, carries the local bit and was never used |
| `AppContracts.WriteContract` | protocol/app/stream.go:180-210 | Result and effect of Write in every case: all bytes accepted and queued in order, or none; OVERFLOW over 1 MiB queued, QUOTA_EXCEEDED over 8 MiB in the session, each with its reset; refused after a reset or a close |
| `AppContracts.ReadContract` | protocol/app/stream.go:214-252 | Result and effect of Read in every case: the front of the first chunk as far as there is room, with its credit message; EOF, a reset's reason, or waiting |
| `AppContracts.CloseContract` | protocol/app/stream.go:255-280 | CloseWrite closes an unreset stream for good and sends APP_CLOSE itself exactly if nothing is queued; a second one does nothing |
| `AppContracts.CleanTeardown` | protocol/app/stream.go:386-397 | The CloseWrite or write-loop pass that closes the second direction with both queues empty, and the Read that sees EOF then, take the stream out of the table with StreamOpened and StreamClosed reported |
| `AppContracts.RemoteTeardown` | protocol/app/stream.go:346-397 | So does the peer's close |
| `AppContracts.ResetContract` | protocol/app/stream.go:364-384 | Reset ends the stream with its reason, unless it has one, and tells the peer |
| `AppContracts.TakeContract` | protocol/app/stream.go:130-170 | A write-loop pass ends after a reset, takes all that credit and a 64 KiB frame allow of the first chunk, sends the pending close and ends, or waits |
| `AppContracts.SendContract` | protocol/app/stream.go:171-175 | The chunk goes out as it is; on a closed session it is lost and the loop ends |
| `AppContracts.DataContract` | protocol/app/stream.go:291-325 | Data from any peer is queued whole, or the stream is reset: with PROTOCOL_ERROR exactly if it is too big, too early, after the close or over the window, with QUOTA_EXCEEDED exactly if only the session's memory is missing |
| `AppContracts.CreditContract` | protocol/app/stream.go:327-344 | Credit from any peer is added as a uint32, or resets the stream with PROTOCOL_ERROR exactly if the sum is over 1 MiB |
| `AppContracts.CloseArrives` | protocol/app/stream.go:346-356 | A close ends the peer's direction and draws no reply; a second one changes nothing |
| `AppContracts.ResetArrives` | protocol/app/stream.go:358-361 | A reset ends the stream with the peer's reason, wakes Open and draws no reply |
| `AppContracts.AcceptArrives` | protocol/app/session.go:351-374 | An accept from any peer resets the stream with PROTOCOL_ERROR exactly for meta over 1 KiB or a grant outside 1 to 1 MiB; else it opens an opening stream and is ignored by others |
| `AppContracts.RejectArrives` | protocol/app/session.go:376-391 | A reject ends an opening stream with the peer's reason and is ignored by others |
| `AppContracts.StrangerIgnored` | protocol/app/session.go:255-270 | A message about a stream not in the table changes nothing and draws no reply |
| `AppContracts.OpenContract` | protocol/app/session.go:394-425 | Open: the exact refusals in order, or the next ID, a stream that is opening and APP_OPEN with the service and meta given |
| `AppContracts.OpenArrives` | protocol/app/session.go:278-304 | APP_OPEN from any peer: refused with PROTOCOL_ERROR, with QUOTA_EXCEEDED, or handed to the handler, and exactly when each |
| `AppContracts.ReturnContract` | protocol/app/session.go:426-446 | The return of Open: it waits exactly while opening; then the reason of a reject or reset, or the stream with StreamOpened reported and the write loop running |
| `AppContracts.ExpiryContract` | protocol/app/session.go:430-432 | Open whose context ends first resets the stream with TIMEOUT |
| `AppContracts.AbortContract` | protocol/app/session.go:428-429 | Open returns when the session ends first |
| `AppContracts.AcceptContract` | protocol/app/session.go:320-349 | The handler's acceptance sends APP_ACCEPT with 256 KiB, opens both windows, reports StreamOpened and starts the bridge |
| `AppContracts.RejectContract` | protocol/app/session.go:306-319 | The handler's refusal sends APP_REJECT with its reason and takes the stream out |
| `AppContracts.LossContract` | protocol/app/session.go:456-481 | Loss of the connection resets exactly the streams in the table, with PEER_GONE, and empties table and ledger |
| `AppContracts.ServiceFormat` | protocol/mvcp.go:269-275 | The service names that are valid |
| `AppContracts.InitiatorFormat` | protocol/app/session.go:150-151 | Bit 31 of an ID names its initiator |
| `AppStreamProofs.WriteKeeps` | protocol/app/stream.go:180-210 | Write keeps the stream invariant (counters, windows, stages, reports), takes nothing back and moves the ledger by exactly the bytes the stream gains or gives up, also on overflow |
| `AppStreamProofs.ReadKeeps` | protocol/app/stream.go:214-252 | Read keeps the stream invariant, takes nothing back and moves the ledger by exactly the bytes read |
| `AppStreamProofs.CloseWriteKeeps` | protocol/app/stream.go:255-280 | CloseWrite keeps the stream invariant, takes nothing back and balances the ledger |
| `AppStreamProofs.WriterTakeKeeps` | protocol/app/stream.go:130-170 | A write-loop pass up to the unlock keeps the stream invariant, takes nothing back and moves the ledger by exactly the bytes dequeued |
| `AppStreamProofs.DeliverKeeps` | protocol/app/stream.go:291-325 | Delivery of any data, violations included, keeps the stream invariant, takes nothing back and moves the ledger by exactly the bytes queued or dropped; `DataContract` says which |
| `AppStreamProofs.AddCreditKeeps` | protocol/app/stream.go:327-344 | Any credit keeps the stream invariant, its cap on the credit included: the cap survives the uint32 wrap |
| `AppStreamProofs.RemoteCloseKeeps` | protocol/app/stream.go:346-356 | A remote close keeps the stream invariant, takes nothing back and balances the ledger |
| `AppStreamProofs.HandleAcceptKeeps` | protocol/app/session.go:351-374 | Any accept, also a malformed or a repeated one, keeps the stream invariant, takes nothing back and balances the ledger |
| `AppStreamProofs.HandleRejectKeeps` | protocol/app/session.go:376-391 | Any reject, also a repeated one, keeps the stream invariant, takes nothing back and balances the ledger |
| `AppStreamProofs.AcceptOkKeeps` | protocol/app/session.go:306-349 | The end of acceptOpen keeps the stream invariant, takes nothing back and balances the ledger |
| `AppStreamProofs.OpenReturnKeeps` | protocol/app/session.go:426-446 | The return of Open keeps the stream invariant, takes nothing back and balances the ledger |
| `AppStreamProofs.OverGrantResetsIffNoWrap` | protocol/app/stream.go:335-342 | A grant over the cap resets the stream exactly if the uint32 sum does not wrap; if it wraps, the credit falls |
| `AppChannel.Session.constructor` | protocol/app/session.go:138-148 | A new session is valid and is the value-level new session |
| `AppChannel.Session.ReserveBuffer` | protocol/app/session.go:517-525 | Reserves exactly if the cap allows it |
| `AppChannel.Session.ReleaseBuffer` | protocol/app/session.go:527-535 | Gives back with a clamp at zero |
| `AppChannel.Session.SendApp` | protocol/app/session.go:159-175 | Appends to the connection unless it is gone |
| `AppChannel.Session.SendError` | protocol/app/session.go:177-184 | Records the code of an ERROR frame unless the connection is gone |
| `AppChannel.Session.Detach` | protocol/app/session.go:484-497 | Outcome of the value-level detach on stream, table and ledger |
| `AppChannel.Session.Finish` | protocol/app/session.go:501-515 | Outcome of the value-level finish, report included |
| `AppChannel.Session.Open` | protocol/app/session.go:394-425 | Outcome of the value-level open for every argument, refusals included |
| `AppChannel.Session.HandleOpen` | protocol/app/session.go:278-304 | Outcome of the value-level APP_OPEN handling, all refusals included; a closed session does nothing |
| `AppChannel.Session.Fail` | protocol/app/session.go:456-481 | The loop over the old table resets exactly the streams that were in it |
| `AppChannel.Session.HandleMessage` | protocol/app/session.go:238-276 | Outcome of the value-level handling of every message: session, messages sent and ERROR frames sent |
| `AppChannel.Session.Perform` | protocol/app/session.go:214-276 | Keeps the session valid and does exactly what the value-level session does, ERROR frames included |
| `AppChannel.Stream.constructor` | protocol/app/stream.go:51-55 | A new stream is the value-level new stream |
| `AppChannel.Stream.SetReset` | protocol/app/stream.go:372-384 | Outcome of the value-level setReset |
| `AppChannel.Stream.RemoteReset` | protocol/app/stream.go:358-361 | Outcome of the value-level remoteReset |
| `AppChannel.Stream.ResetRemote` | protocol/app/stream.go:364-370 | Outcome of the value-level resetRemote, message included |
| `AppChannel.Stream.MaybeFinish` | protocol/app/stream.go:386-397 | Outcome of the value-level maybeFinish, of which `CleanTeardown` and `RemoteTeardown` state what it is for |
| `AppChannel.Stream.MarkOpened` | protocol/app/stream.go:87-97 | Outcome of the value-level markOpened |
| `AppChannel.Stream.Write` | protocol/app/stream.go:180-210 | Outcome and result of the value-level Write in every branch |
| `AppChannel.Stream.Read` | protocol/app/stream.go:214-252 | Outcome and result of the value-level Read, of which `ReadContract` and `ReadReturnsNext` state what it returns |
| `AppChannel.Stream.CloseWrite` | protocol/app/stream.go:255-280 | Outcome and result of the value-level CloseWrite |
| `AppChannel.Stream.WriterTake` | protocol/app/stream.go:130-170 | Outcome of a write-loop pass up to the unlock |
| `AppChannel.Stream.WriterSend` | protocol/app/stream.go:171-175 | Outcome of the rest of the pass; on a closed session the loop ends |
| `AppChannel.Stream.Deliver` | protocol/app/stream.go:291-325 | Outcome of the value-level deliver in every branch, of which `DataContract` states when it refuses and with which code |
| `AppChannel.Stream.AddCredit` | protocol/app/stream.go:327-344 | Outcome of the value-level addCredit, wrap included |
| `AppChannel.Stream.RemoteClose` | protocol/app/stream.go:346-356 | Outcome of the value-level remoteClose |
| `AppChannel.Stream.HandleAccept` | protocol/app/session.go:351-374 | Outcome of the value-level handleAccept |
| `AppChannel.Stream.HandleReject` | protocol/app/session.go:376-391 | Outcome of the value-level handleReject |
| `AppChannel.Stream.OpenReturn` | protocol/app/session.go:426-446 | Outcome and result when `ready` wakes Open |
| `AppChannel.Stream.OpenExpire` | protocol/app/session.go:430-432 | Outcome when the context of Open ends first |
| `AppChannel.Stream.AcceptOk` | protocol/app/session.go:320-349 | Outcome when the handler takes the stream |
| `AppChannel.Stream.AcceptFail` | protocol/app/session.go:306-319 | Outcome when it does not |
| `AppChannel.Stream.Perform` | protocol/app/stream.go:130-397 | A call on a stream keeps the session valid and does exactly what the value-level session does |
| `Wire.ValBig` | protocol/encode.go:13-32 | A number survives its width exactly if it fits; otherwise a smaller one arrives |
| `Wire.StrictInverse` | protocol/decode.go:16-86 | For every layout, strict decoding is the exact inverse of encoding on the values that fit |
| `Wire.StrictRejectsMore` | protocol/messages/app.go:48-50 | No proper extension of an accepted body is accepted |
| `ByteIO.Buffer.WriteUint16` | protocol/encode.go:13-18 | Appends the big-endian field |
| `ByteIO.Buffer.WriteUint32` | protocol/encode.go:20-25 | Appends the big-endian field |
| `ByteIO.Buffer.WriteUint64` | protocol/encode.go:27-32 | Appends the big-endian field |
| `ByteIO.Buffer.WriteString` | protocol/encode.go:49-55 | Appends a 16-bit length, truncated, and the bytes |
| `ByteIO.Buffer.WriteBytes` | protocol/encode.go:57-63 | Appends a 32-bit length, truncated, and the bytes |
| `ByteIO.Reader.ReadUint` | protocol/decode.go:8-38 | Reads and consumes a big-endian field, or fails on a short input |
| `ByteIO.Reader.ReadBlob` | protocol/decode.go:58-86 | Reads and consumes a length-prefixed field, or fails |
| `AppCodec.DecodeIff` | protocol/messages/app.go:17-245 | A body decodes to a message exactly if it is the encoding of that message and every length fits |
| `AppCodec.DecodeInjective` | protocol/messages/app.go:34-53 | Two bodies of a type never decode to the same message |
| `AppCodec.DecodeRejectsMore` | protocol/messages/app.go:48-50 | No proper extension of an accepted body is accepted |
| `AppCodec.SentDecodes` | protocol/messages/app.go:99-126 | Whatever a session sends arrives as it is if it fits, and is refused if its reason is too long |
| `AppMarshal.MarshalBinary` | protocol/messages/app.go:17-224 | Writes the encoding exactly if the size checks pass, for all seven messages |
| `AppMarshal.UnmarshalOpen` | protocol/messages/app.go:34-53 | Computes the strict decoding |
| `AppMarshal.UnmarshalAccept` | protocol/messages/app.go:72-91 | Computes the strict decoding |
| `AppMarshal.UnmarshalReason` | protocol/messages/app.go:107-126 | Computes the strict decoding of APP_REJECT and of APP_RESET |
| `AppMarshal.UnmarshalData` | protocol/messages/app.go:143-158 | Computes the strict decoding |
| `AppMarshal.UnmarshalCredit` | protocol/messages/app.go:172-187 | Computes the strict decoding |
| `AppMarshal.UnmarshalClose` | protocol/messages/app.go:199-210 | Computes the strict decoding |
| `AppMarshal.DecodeMessage` | protocol/messages/app.go:247-280 | Dispatches on the type |
| `Frames.FrameIff` | protocol/mvcp.go:212-249 | A frame is read exactly if its encoding is in front and it is within the size limit |
| `Frames.CutFrame` | protocol/frame.go:13-27 | A frame that has not arrived whole is not read |
| `Frames.ReadCut` | protocol/mvcp.go:212-226 | Reading any cut of a stream of frames returns exactly the frames that have arrived whole |
| `Frames.ReadBack` | protocol/mvcp.go:212-249 | Reading the concatenation of the encodings returns the list of frames |
| `Frames.EncodeMVCPFrame` | protocol/mvcp.go:238-249 | Fills the buffers with the encoding |
| `Frames.ReadFrame` | protocol/frame.go:13-27 | Reads and consumes one payload, or fails |
| `Frames.ReadMVCPFrame` | protocol/mvcp.go:212-226 | Reads and consumes one frame, or fails |
| `AppTransport.HearAll` | protocol/app/session.go:224-235 | The read loop hears exactly what was sent, up to the first message whose reason was too long |
| `AppTransport.HearCut` | protocol/app/session.go:224-235 | While bytes are arriving it hears exactly the messages that have arrived whole, up to the first one too long |
| `AppTransport.BytesCarryTheRun` | protocol/app/session.go:159-175 | In every run the bytes in flight decode to exactly the messages in flight, up to the first one whose reason is too long for its length field |
| `Capabilities.Negotiate` | protocol/capabilities.go:17-31 | The loop computes the common table whatever the order of the map |
| `Capabilities.NegotiateExact` | protocol/capabilities.go:17-31 | An ID is agreed on exactly if some revision lies in both ranges, and at the greatest such revision |
| `Capabilities.NegotiateSymmetric` | protocol/capabilities.go:12-16 | Negotiation is symmetric |
| `Capabilities.Check` | protocol/capabilities.go:39-50 | Returns an unmet requirement exactly if there is one |
| `Capabilities.CheckExact` | protocol/capabilities.go:33-50 | The check passes exactly if every required ID has a common revision at or above its minimum |
| `Hello.AdvertisedListing` | protocol/hello.go:108-124 | The sorted listing of a table stands for that table |
| `Hello.LastStands` | protocol/hello.go:118-124 | Of several entries with one ID the last stands |
| `Hello.ArrangedIsListing` | protocol/hello.go:148-150 | However a list without repeated IDs is sorted, the result is the listing of its table |
| `HelloCodec.HelloIff` | protocol/hello.go:182-250 | The decoder accepts exactly the encodings of well-formed HELLOs, so decoding is injective and nothing may follow |
| `HelloCodec.MarshalledDecodes` | protocol/hello.go:135-250 | What the encoder writes is accepted exactly if no ID is listed twice, and arrives sorted by ID |
| `HelloCodec.NewHelloRoundTrip` | protocol/hello.go:108-250 | A HELLO built from a table survives the wire unchanged |
| `HelloCodec.Remarshal` | protocol/hello.go:135-250 | Marshalling an accepted HELLO again gives its ID-sorted form with the same table, and the same bytes if it was sorted |
| `HelloCode.NewHello` | protocol/hello.go:108-115 | The loop and the sort give the listing of the table |
| `HelloCode.AdvertisedOf` | protocol/hello.go:118-124 | The loop gives the table of the list, later entries winning |
| `HelloCode.MarshalBinary` | protocol/hello.go:135-175 | Writes the encoding of some sorted arrangement exactly if the checks pass |
| `HelloCode.UnmarshalBinary` | protocol/hello.go:182-250 | Computes the strict decoding |
| `Handshake.ReadOpening` | protocol/handshake.go:102-118 | However much of an opening has arrived, it is read as that HELLO or not yet |
| `Handshake.Agreement` | protocol/handshake.go:136-216 | Whatever part of the exchange arrives: if both sides succeed they have each other's HELLO and list its role, hold the same map, and it meets both requirement tables |
| `Handshake.SameVerdict` | protocol/handshake.go:136-216 | With accepted roles, equal requirements and both openings delivered: both succeed with the same map or both reject with NO_COMMON_CAPABILITY |
| `Handshake.PeerIff` | protocol/handshake.go:56-118 | A peer is accepted exactly if its bytes start with the prefix and a frame of type 0 that holds a well-formed HELLO |
| `Handshake.BadHelloIff` | protocol/handshake.go:56-118 | It is faulted for its HELLO exactly if they start with the prefix and another whole frame |
| `Handshake.ServerVerdict` | protocol/handshake.go:155-171 | A server that has the client's opening: UNEXPECTED_ROLE exactly for a role it does not list, else NO_COMMON_CAPABILITY exactly for an unmet requirement, each said in an ERROR frame behind its opening; else success, and nothing more said |
| `Handshake.ServerBadInput` | protocol/handshake.go:155-160 | A faulted HELLO is answered with ERROR(BAD_PAYLOAD), a bad prefix or a broken connection with nothing |
| `Handshake.ClientVerdict` | protocol/handshake.go:188-215 | The same for a client, which says nothing at all to a role it does not list |
| `Handshake.SilentRefusal` | protocol/handshake.go:196-198 | A client that refuses the server's role sends nothing and the server fails |
| `Handshake.Exchange` | protocol/handshake.go:136-216 | Both openings delivered is a possible exchange whenever the client accepts the server's role |
| `Handshake.SaidAsIs` | protocol/hello.go:148-150 | The encoder does not reorder a HELLO built by NewHello, so the code writes exactly the openings these lemmas speak of |
| `Handshake.NewHelloProper` | protocol/hello.go:108-175 | The premises of these, in terms of the table NewHello was given |
| `HandshakeCode.ReadPeerHello` | protocol/handshake.go:56-118 | Prefix, frame and HELLO are checked in this order |
| `HandshakeCode.WriteHandshakeError` | protocol/handshake.go:72-81 | Writes the ERROR frame |
| `HandshakeCode.RoleAccepted` | protocol/handshake.go:120-127 | Finds the role exactly if it is listed |
| `HandshakeCode.ServerHandshake` | protocol/handshake.go:136-172 | Result and bytes written, in every case |
| `HandshakeCode.ClientHandshake` | protocol/handshake.go:181-216 | Result and bytes written, in every case |
| `RpcCall.PendingCall.Send` | protocol/rpc/client.go:56-63 | Queues, waits or, once abandoned, may drop; the call stays valid: nothing lost or reordered before it is abandoned, order kept after |
| `RpcCall.PendingCall.ForwardTake` | protocol/rpc/client.go:33-50 | The forwarder takes the oldest frame of the inbox |
| `RpcCall.PendingCall.ForwardPut` | protocol/rpc/client.go:37-44 | It hands the frame on, and closes out right after the final one |
| `RpcCall.PendingCall.Take` | protocol/rpc/client.go:218-230 | The consumer gets frames in order; at the end of a call that was not abandoned it has taken everything routed to it, the final frame last |
| `RpcCall.PendingCall.Finish` | protocol/rpc/client.go:67-69 | Abandons the call |
| `RpcCall.WithinDrop` | protocol/rpc/client.go:37-41 | Losing one frame leaves the others in order |
| `RpcClient.FirstRound` | protocol/rpc/client.go:143-151 | The first 2^32-1 message IDs are 1, 2, 3 and so on |
| `RpcClient.NextRound` | protocol/rpc/client.go:143-151 | Each further round of 2^32-1 IDs repeats the one before: the counter skips zero |
| `RpcClient.IDsDistinct` | protocol/rpc/client.go:143-151 | Any 2^32-1 consecutive message IDs are distinct and non-zero |
| `RpcClient.SameIDIff` | protocol/rpc/client.go:143-151 | Two allocations share an ID exactly if a multiple of 2^32-1 allocations separates them |
| `RpcClient.AddressedNext` | protocol/rpc/client.go:196-214 | How one more frame extends what is addressed to a call; at most the last frame is final |
| `RpcClient.AddressedFrames` | protocol/rpc/client.go:196-214 | What is addressed to a call, in terms of the positions, types, bodies and flags of the frames read |
| `RpcClient.Client.AllocMsgID` | protocol/rpc/client.go:143-151 | Gives the next ID, never zero |
| `RpcClient.Client.AddPending` | protocol/rpc/client.go:153-159 | Registers a call for any allocated ID; a call still in the table under that ID is displaced and no other; within a span of 2^32-1 IDs none is |
| `RpcClient.Client.Route` | protocol/rpc/client.go:196-214 | One frame of the read loop keeps the routing of every call; it waits exactly while the call is not abandoned and its inbox of 16 is full |
| `RpcClient.Client.Routing` | protocol/rpc/client.go:27-63 | For every call not abandoned: taken, out, held and inbox together are, in order, copies of exactly the frames of the log at the positions that carry its ID, since it was registered and up to the first response: same type, same body, and `more` exactly if bit 0 of the flags is clear; out is closed exactly after the final frame |
| `RpcClient.Client.StepKeeps` | protocol/rpc/client.go:33-50 | A step of a forwarder or consumer, or the end of a call, keeps the routing of every call |
| `RpcClient.Client.ForwardTake` | protocol/rpc/client.go:33-50 | The forwarder of a registered call takes the oldest frame of its inbox, waits or ends, and the routing of every call is kept |
| `RpcClient.Client.ForwardPut` | protocol/rpc/client.go:37-44 | The forwarder of a registered call hands its frame on, waits or drops it, and the routing of every call is kept |
| `RpcClient.Client.Receive` | protocol/rpc/client.go:218-230 | The consumer of a registered call quits exactly if its context or the client has ended and the select takes that case, and else gets the oldest frame, waits or sees the end; at the end of a call that was not abandoned it has taken exactly the frames read with its ID since it was registered, the final one last |
| `RpcClient.Client.Abandon` | protocol/rpc/client.go:239-242 | Ends one call and leaves the routing of the others |
| `RpcClient.Client.Shutdown` | protocol/rpc/client.go:110-127 | Abandons every call in the table and empties it; what has been routed and taken stays |
| `Heartbeat.HeartbeatRoundTrip` | protocol/messages/status.go:93-266 | A heartbeat that fits arrives with its header and Health, the materialized extensions in order, and its reason unchanged when it is Failed and the reason is not empty |
| `Heartbeat.ExtensionsIff` | protocol/messages/status.go:237-266 | Bytes decode to these extensions exactly if they are their encoding and fewer than four bytes more |
| `Heartbeat.HeartbeatIff` | protocol/messages/status.go:172-220 | A heartbeat decodes exactly if header and extensions are all there, and to what they say |
| `Heartbeat.HealthMaterialized` | protocol/messages/status.go:137-170 | The Health field wins over any extension, repeated or not |
| `Heartbeat.ReasonMaterialized` | protocol/messages/status.go:137-170 | Exactly which reason arrives |
| `Heartbeat.MaterializedExtensions` | protocol/messages/status.go:137-170 | The loop with its flags computes the materialized list |
| `Heartbeat.WriteExtensions` | protocol/messages/status.go:222-235 | Appends the entries |
| `Heartbeat.MarshalBinary` | protocol/messages/status.go:93-123 | Writes header and entries |
| `Heartbeat.ReadExtensions` | protocol/messages/status.go:237-266 | Reads entries while a whole entry header is left, or fails |
| `Heartbeat.UnmarshalBinary` | protocol/messages/status.go:172-220 | Computes the decoding; the last extension of a type wins |
| `Formats.BigIsU64` | protocol/encode.go:27-32 | Numbers are written most significant byte first |
| `Formats.FrameFormat` | docs/02-wire-format.md:9-61 | The layout of a frame, and its limit of 16 MiB |
| `Formats.AppFormat` | docs/services/app-channel.md:15-23 | Types and layouts of the seven messages |
| `Formats.AppLimitsFormat` | protocol/messages/app.go:17-158 | What the encoder refuses; a session sends nothing that it refuses |
| `Formats.HelloFormat` | docs/06-negotiation.md:71-75 | The prefix, the HELLO frame and the layout of its body |
| `Formats.HelloLimits` | protocol/hello.go:135-250 | Exactly which HELLOs are accepted and which may be sent |
| `Formats.HeartbeatFormat` | docs/services/heartbeat.md:20-64 | The layout of a heartbeat |
| `Formats.HeartbeatExtensions` | protocol/messages/status.go:137-170 | Exactly which extensions go out, with which values |
| `Formats.HealthDecoded` | protocol/messages/status.go:205-219 | The last Health extension with a value decides |
| `Formats.ReasonDecoded` | protocol/messages/status.go:205-219 | The last failure-reason extension decides |
| `Formats.NeitherDecoded` | protocol/messages/status.go:205-219 | Without them the machine is healthy and there is no reason |

## Left out

- AppRace.RaceLosesTheChunk: for a receiver in its table and past the open handshake; `RaceInRuns` has the other cases.
- AppChannel.Session.SendApp: a write that fails while the session is still open; the model loses a connection as a whole, by an event of its own.
- AppChannel.Session.Open: the detach after a failed write of APP_OPEN that does not end the session (session.go:422-425), for the same reason.
- AppChannel.Session.SendError: the text of the frame, and its arrival; at the peer it ends the session, which the model has as a loss of the connection.
- AppChannel.Session.HandleMessage: frames with flags, a message ID or another type, which draw the same ERROR and end the session (session.go:239-242 and 271-274); correct sessions send none but ERROR.
- AppChannel.Stream.Perform: for the stream last created under its ID; a stream whose ID a misbehaving peer has opened again (`OnwardIff`) is not followed any further.
- AppChannel.Stream.constructor: the fields of the source's struct are held in four records (sender, receiver, handshake, life) plus the byte counters, and the fields that only count bytes or hold the service name, the accept meta and the endpoint are left out.
- AppTransport.BytesCarryTheRun: for reasons shorter than 4 GiB less 64 bytes, since the frame length is a uint32 the writer does not check.
- RpcClient.Client.AddPending: what becomes of a displaced call, which the read loop no longer knows.
- AppMarshal.DecodeMessage: the other message types of the registry.
- HandshakeCode.ServerHandshake: failed writes and the deadline.
- HandshakeCode.ClientHandshake: failed writes and the deadline.
- RpcCall.PendingCall.Take: the cases in which the caller's context or the client ends first; `Client.Receive` has them.
- `Bridge` and endpoints: the model stops at the bytes Read returns.
- Liveness of goroutines: `Session.Close` and `Client.shutdown` waiting on their wait groups; deadlines and contexts.
- `Client.CallFlags` and `rpc.Server`: only the routing is modelled.
- EXEC, events, file, tools, control and STATUS bodies, string slices and string maps: they would only add easy round trips.
- The registry's own heartbeat decoder, which does not project Health or the reason.
