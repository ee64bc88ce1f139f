# A verified model of code-quest

The repository serves a Claude Code session to browsers and to remote machines over sockets that break. The
modules here model the code that has to stay right when they do, and the storage behind it. Code that changes state
is a class whose methods are proved against a specification function or against a relation of old and new state; the
laws are then proved about those functions, over every sequence of steps.

## The parts

- **Reconnecting transport.** `Replay` (ResumableSocket and the socket below it), `ReconnectSession` (both ends of one
  client session over any number of connections, as a transition system, with the guard it needs and what then holds),
  `SessionLosses` (what happens outside the guard), `SessionOrder` (what a client receives, how often and in what order),
  `ResumableMiddleware` (the registry of ResumableSockets, which drives each of them through the steps of that system),
  `WsClientModel` (outbox, pending requests, reconnect), `Rpc` and `RpcLink` (one RpcChannel, and two of them joined by a
  link that can be cut), `ControlRequests`, `Reconnectable`, and `Promises`, the bookkeeping they share: each promise
  handed out is pending or settled, once.
- **Indexes and subscriptions.** `Channels` (three maps, one relation), `Broadcasting` (a single-flight snapshot),
  `Topics` (reference counts), `Lines` (a queue with one wake-up slot).
- **Storage.** `RawEvents` and `CompositeRawEvents` (ordered read, keyset pages, clones, identical replicas),
  `Projects` and `CompositeProjects` (replicas that know the same projects under different ids), `Jsonl` (export and
  import; `JsonlText` shows that what it takes for granted about printed JSON can be met).

`Wire` holds the envelopes, `Basics` and `SessionEvents` what several modules share.

## What turned out false, and when it is true

- *A resume never skips a missed event.* True while nothing goes out between a connection and the client's resume
  (`SessionOrder.LastSeqIsReceived`, `ReconnectSession.ResumeSkipsNothing`). An event emitted there is harmless exactly
  if fewer such events went out so far than the client's `lastSeq`; or the log was longer than the buffer when the
  connection began; or it was exactly as long, and the client has the events numbered up to the count of early ones (this
  one included, the buffer's size at most) or a refresh above that number is in the log. Outside that guard, from every
  state guarded steps can reach, a continuation leaves a caught-up client without an event
  (`SessionLosses.GuardIsExact`), and no further step short of an expiry ever delivers it: only a refresh numbered at
  least as high makes up for it (`SessionLosses.SkippedForGood`). apps/server/src/bin/server.ts:162-164 emits
  `remote:status` from the connection handler, before the resume arrives, so a first connection is always outside
  (`SessionLosses.FirstConnectionEarlyEmitLoses`).
- *A session that expires starts afresh.* Only the server forgets: the client still counts from the old session, and
  nobody tells it what the old buffer held. An expiry is safe exactly when the client's `lastSeq` is 0 and it is without no
  event emitted so far (`SessionLosses.GuardIsExact`); otherwise what it lacks is made up for only by a later refresh
  (`SessionLosses.OwedUntilRefresh`). A first connection that breaks before its frame is processed is enough
  (`SessionLosses.UnprocessedThenExpired`).
- *A live session does not expire.* True over every sequence of steps in which a connection of the session begins only
  after the end of the one before has been noticed, and a step is inside that guard exactly when no guarded
  continuation takes the entry away under a live connection (`ResumableMiddleware.HoldIsExact`). In the other order the
  timer of the older connection does (`ResumableMiddleware.LateEndForgets`).
- *Exactly once.* Holds over the first connection, one drop and the first ok resume. After any number of connections with
  ok resumes the client has received exactly events 1 to m, each at least once (`SessionOrder.ReceivedIsAPrefix`), and the
  next connection begins with an event it has exactly when `lastSeq`, the largest count of any one connection, is less
  than m (`SessionOrder.ReplayDoublesIffBehind`, `SessionOrder.ThirdConnectionDoubles`).
- *A gap is reported.* Not with a buffer size of 0, which answers ok with nothing: a client that has missed anything is
  then left without it (`SessionLosses.NoRoomLosesIff`).
- *A rejected request is not sent.* `disconnect` rejects the pending requests but leaves the outbox alone: a rejected
  request is sent by the next connection exactly when it was waiting there (`WsClientModel.RejectedIsSentIffWaiting`). An
  outbox limit of 0 keeps one entry (`WsClientModel.ZeroLimitKeepsTheNewest`).
- *A released listener is gone.* ReconnectableRpc's release takes a callback off the channel that was current when it was
  registered; after a `replace` it stays attached to the new one (`Reconnectable.ReconnectableRpc.Release` says
  exactly when, `Reconnectable.ReleasedYetAttached` is the sequence of calls). A `disconnect` callback registered after
  the last `replace` is never told (`Reconnectable.ReconnectableRpc.ChannelDisconnects`).
- *At most one read in flight.* Exactly while the last subscriber does not leave during a read
  (`Broadcasting.TeardownGuardIsExact`), and exactly then does every subscriber last receive what is cached
  (`Broadcasting.SharingGuardIsExact`); otherwise the older read can overwrite the newer snapshot
  (`Broadcasting.StaleReadOverwrites`).
- *A change reaches the subscribers.* With a value read after it exactly when no read is in flight at the change, which then
  starts one; otherwise no read follows, and what was in flight is what everyone gets
  (`Broadcasting.ChangeIsServedIffIdle`).
- *An unsubscribed callback is not called.* True in every run in which nobody subscribes under its id again
  (`Broadcasting.UnsubscribedHearsNothing`). The deliveries look only for the id: if it subscribes again, the old callback
  can be called exactly when a delivery to it was outstanding at the unsubscribe
  (`Broadcasting.CalledAgainIffOutstanding`).
- *The socket maps agree.* A socket object keeps its place in the channels while its id changes with every connection.
  The maps agree and track the live sockets exactly as long as a connection comes after the end of the one before has
  been noticed, only a live socket enters a channel, and no session lapses with a live socket in a channel
  (`Channels.AgreementIsExact`); losing a connection and coming back then leaves every channel with the members it had
  (`Channels.LoseAndReturn`). In the other order a broadcast reaches the socket twice, because it is kept under both ids,
  and the late end of the old connection, whose listener asks the socket for its id, takes the live socket out of all
  its channels (`Channels.LateCloseTakesOut`, `Channels.CloseTakesOutLiveIff`).
- *A closed channel drops its listeners and handlers.* Unless a disconnect listener throws: the rest are then not called, and
  nothing is dropped (`Rpc.RpcChannel.HandleClose`).
- *A composite over one store behaves like the store.* For projects it makes the write and then reports that all stores
  failed, because the fan-out to no store fails (`CompositeProjects.CompositeProjectStore.Upsert`).
- *A clone keeps the order.* Exactly when the new ids keep events of the same instant in order (`RawEvents.CloneOrderIff`).
  The composite's clone of an empty session succeeds even onto itself, where a single store refuses.
- *An export succeeds.* It throws exactly when the text of some event other than an error one is `null`
  (`Jsonl.EncodeFailsIff`), and an import then leaves out the sidechain entries of what was exported.

## What is taken for granted

- A client has one live socket at a time and does not call `connect` between `disconnect` and the old socket's close
  event. A connection delivers, in order, a prefix of what was sent on it. `send` does not throw.
- Random ids do not repeat; they, the clock and the outcome of reads are parameters. Callbacks do not call back into the
  object that calls them, except the `reconnect` callbacks of ReconnectableRpc, which may register listeners, and the
  listeners of RpcChannel, which may take each other off and may throw, like the subscribers of TopicEmitter; other
  callbacks do not throw. ReconnectableRpc is handed each channel once, and a callback is fresh for every registration.
- A time stands for its ISO text; for the years 0 to 9999 the two are in the same order and convert there and back.
- Printed JSON reads back, has no raw newline (section 7 of RFC 8259) and is not blank. The fields of a JSON line that
  should be strings are strings or absent.

## Model

| member | source | states |
|---|---|---|
| Replay.GapIffNextEvicted | packages/transport/src/resumable-socket.ts:45-58 | with room for one event, `resume(k)` reports a gap exactly when event k + 1 was emitted and has been evicted; otherwise the first k events and the replay make up the whole log, and the count is right |
| Replay.TypedSocket.Emit | packages/transport/src/ws-transport.ts:179-187 | frames are numbered 1, 2, ... on each connection; nothing is sent once the socket is not open |
| Replay.ResumableSocket.Emit | packages/transport/src/resumable-socket.ts:30-35 | the log grows by the event, the buffer is still the last `bufferSize` events with consecutive numbers, and the frame goes out if the socket is open |
| Replay.ResumableSocket.Rebind | packages/transport/src/resumable-socket.ts:41-43 | only the target changes: log, buffer and numbers survive |
| Replay.ResumableSocket.AnswerFromBuffer | packages/transport/src/resumable-socket.ts:48-57 | where the first unseen event sits in the buffer decides the answer defined on the whole log, and the tail from there is what was missed |
| Replay.ResumableSocket.FindFirstAfter | packages/transport/src/resumable-socket.ts:53-54 | the index of the first buffered number above `lastSeq`, or the length |
| Replay.ResumableSocket.SendAgain | packages/transport/src/resumable-socket.ts:55-57 | the replayed events are stamped after what this connection already sent, in order |
| Replay.ResumableSocket.Resume | packages/transport/src/resumable-socket.ts:45-58 | from the buffer alone: the answer and the frames that the definition on the whole log demands |
| Replay.ResumableSocket.BufferSeqs | packages/transport/src/resumable-socket.ts:60-62 | consecutive numbers ending at the last one, min(emitted, bufferSize) of them |
| ResumableMiddleware.HoldIsExact | packages/transport/src/middleware/resumable.ts:43-85 | in every state of a session key that guarded steps reach, a step is inside the guard if and only if no guarded continuation takes the entry away under a live connection |
| ResumableMiddleware.LiveSessionsDoNotExpire | packages/transport/src/middleware/resumable.ts:43-85 | over every guarded sequence of connections, ends and timers a live connection has its entry |
| ResumableMiddleware.LateEndLetsGo | packages/transport/src/middleware/resumable.ts:74-85 | wherever two connections of a key are live, the end of the older and its timer take the entry away under the newer |
| ResumableMiddleware.Middleware.TransformSocket | packages/transport/src/middleware/resumable.ts:43-72 | a registered key keeps its socket, log and numbers on the new connection, and the previous socket id is reported; any other connection gets a fresh socket, registered if it has a key; the key takes the begin step, no other key is disturbed |
| ResumableMiddleware.Middleware.ClearTimer | packages/transport/src/middleware/resumable.ts:51-55 | the stored timer of the key is cleared; every other key keeps its own |
| ResumableMiddleware.Middleware.ConnectionEnded | packages/transport/src/middleware/resumable.ts:74-85 | the key takes the end step with a new timer, no other key is disturbed |
| ResumableMiddleware.Middleware.TimerFired | packages/transport/src/middleware/resumable.ts:78-83 | the key takes the fire step: it is forgotten, and the id of the socket it held is reported as expired |
| ResumableMiddleware.Middleware.OnResume | packages/transport/src/middleware/resumable.ts:62-69 | at any time, with any payload: the replay, or the refresh event on a gap; in a session whose resume is due it refines that step |
| ResumableMiddleware.Middleware.Reconnect | packages/transport/src/middleware/resumable.ts:46-56 | refines a drop followed by a connect, whether or not the old connection has been seen to end; in an orderly state the entry is safe from then on exactly if it had |
| ResumableMiddleware.Middleware.FirstConnection | packages/transport/src/middleware/resumable.ts:57-60 | refines an expiry followed by a connect, whatever the client has counted |
| ResumableMiddleware.LateEndForgets | packages/transport/src/middleware/resumable.ts:74-85 | the instance outside the guard: the live connection has no entry and its id is reported as expired |
| ResumableMiddleware.EmitNow | packages/transport/src/resumable-socket.ts:30-35 | refines an emit at any moment, connected or not |
| ReconnectSession.StepKeepsInv | packages/transport/src/ws-client.ts:207-236 | every guarded step keeps what relates the connection's counter, the client's lastSeq and the log |
| ReconnectSession.RunKeepsInv | packages/transport/src/ws-transport.ts:151-187 | so does every guarded sequence of steps, over any number of connections |
| ReconnectSession.ResumeSkipsNothing | packages/transport/src/resumable-socket.ts:45-58 | after any guarded sequence of drops and reconnects, an ok resume replays exactly what follows a prefix of the log the client already has |
| ReconnectSession.CaughtUpClientsHaveEverything | packages/transport/src/ws-client.ts:232-236 | a client with nothing on the way has received every event, or a refresh after it, and is owed none from before an expiry; each event it received is the one emitted under that number |
| ReconnectSession.NeverLost | packages/transport/src/ws-client.ts:232-236 | in every state with the invariant, a caught-up client is without no event, of the log or dropped from it by an expiry |
| ReconnectSession.EmittedWhileGoingIsReplayed | packages/transport/src/ws-transport.ts:182-187 | an event emitted once the server's socket has left OPEN is not sent; if the buffer still holds what the client has not counted, the next connection's resume sends exactly that, numbered from 1, this event last |
| SessionLosses.SkippedForGood | packages/transport/src/resumable-socket.ts:53-57 | an event the client counts past without having it, and not on its way, is never delivered in any continuation without an expiry: only a refresh numbered at least as high makes up for it |
| SessionLosses.GuardIsExact | packages/transport/src/middleware/resumable.ts:43-85 | in every state guarded steps reach, an early emit or an expiry is inside the guard if and only if no guarded continuation leaves a caught-up client without an event, of the log or dropped from it by an expiry |
| SessionLosses.EarlyEmitLoses | packages/transport/src/ws-transport.ts:182-187 | every early emit outside the guard has a continuation after which an event has been passed over for good |
| SessionLosses.ExpireLoses | packages/transport/src/middleware/resumable.ts:77-85 | every expiry outside the guard has a continuation that leaves a caught-up client without an event; under a client that has counted frames, one passed over for good |
| SessionLosses.OwedUntilRefresh | packages/transport/src/middleware/resumable.ts:77-85 | after an expiry under a client that is without some event, in every continuation up to the next expiry it stays owed if and only if it has processed no refresh |
| SessionLosses.UnprocessedThenExpired | packages/transport/src/resumable-socket.ts:45-46 | for every buffer size: a first connection that drops before its only frame is processed, with nothing counted, and an expiry that is then unsafe |
| SessionLosses.StaleResumeLoses | packages/transport/src/resumable-socket.ts:53-54 | a client whose lastSeq has reached the end of a log it lacks is answered ok with nothing, and the last event is passed over for good |
| SessionLosses.FirstConnectionEarlyEmitLoses | apps/server/src/bin/server.ts:162-164 | one event before the first resume has such a continuation, whatever the buffer size |
| SessionLosses.FullBufferEarlyEmitIff | packages/transport/src/middleware/resumable.ts:62-69 | events that just fill a buffer of any size before the first connection: one early event is safe if and only if a refresh follows the first of them |
| SessionLosses.NoRoomLosesIff | packages/transport/src/resumable-socket.ts:45-46 | with a buffer of size 0, reconnecting leaves a caught-up client without an event if and only if it has missed one or is owed one |
| SessionOrder.ReceivedIsAPrefix | packages/transport/src/ws-client.ts:207-236 | over any number of connections with ok resumes the client has received exactly events 1 to m, each at least once, and lastSeq is at most m |
| SessionOrder.LastSeqIsReceived | packages/transport/src/ws-client.ts:232-236 | in every state of such a run lastSeq is within the fully received prefix |
| SessionOrder.TwoConnectionsDeliverAPrefix | packages/transport/src/ws-client.ts:207-236 | over at most two connections with ok resumes the client's received sequence is a prefix of the log |
| SessionOrder.ReplayDoublesIffBehind | packages/transport/src/ws-transport.ts:151-155 | after any number of them, the next connection's first frame is one the client has if and only if lastSeq is behind the newest event received |
| SessionOrder.ThirdConnectionDoubles | packages/transport/src/ws-transport.ts:151-155 | two connections of one event each, and a third whose first frame doubles the second event |
| WsClientModel.IssuesAreConserved | packages/transport/src/ws-client.ts:100-117 | over every sequence of operations each event or request issued is sent once, waiting, or evicted; what was sent is in issue order across reconnects, each envelope with the name, data and id that were issued; the outbox keeps its limit and is empty while open |
| WsClientModel.RequestsSettleOnce | packages/transport/src/ws-client.ts:106-117 | no request settles twice or is both settled and pending, none is forgotten, and a pending one was not evicted |
| WsClientModel.RepliesStayOnTheirConnection | packages/transport/src/ws-client.ts:159-183 | a response to the server leaves on the connection its request came in on |
| WsClientModel.StepOnlyAdds | packages/transport/src/ws-client.ts:86-98 | nothing sent or settled is taken back; `disconnect` leaves nothing pending; losing and opening connections settle no promise |
| WsClientModel.OverflowRejectsOnlyTheEvicted | packages/transport/src/ws-client.ts:315-327 | an overflow evicts the oldest waiting issue, rejects that request if it is one and still pending, and touches no other promise |
| WsClientModel.RejectedIsSentIffWaiting | packages/transport/src/ws-client.ts:86-98 | `disconnect` rejects every pending request; over the old close event, the next `connect` and its opening, the whole outbox and no other payload goes out, so a rejected request is sent if and only if it was waiting |
| WsClientModel.ZeroLimitKeepsTheNewest | packages/transport/src/ws-client.ts:315-327 | with an outbox limit of 0 the newest issue still waits, alone |
| WsClientModel.RefinesSessionClient | packages/transport/src/ws-client.ts:232-236 | over every sequence of operations the client receives the events, and reaches the lastSeq, of the ReconnectSession client that processes the same frames |
| WsClientModel.ResumesFromLastSeq | packages/transport/src/ws-client.ts:207-211 | a resume goes out exactly when a connection opens, first, with the number reached by then |
| WsClientModel.LostConnectionsAreReplaced | packages/transport/src/ws-client.ts:255-270 | over every sequence of operations the reconnect timer is set if and only if a connection has been lost and not replaced, and its firing opens a socket; a client told to disconnect has none |
| WsClientModel.ConnectionComesBack | packages/transport/src/ws-client.ts:207-270 | a client that loses its connection, and was not told to disconnect, is connected again after the timer and the opening, over a new connection that begins with the resume; then everything goes out that was waiting by then, whatever was issued meanwhile |
| WsClientModel.StaysDisconnected | packages/transport/src/ws-client.ts:86-98 | after `disconnect`, whatever follows without a `connect`, no socket is opened and nothing is sent |
| WsClientModel.ConnectOpensIffNoneAlive | packages/transport/src/ws-client.ts:77-84 | `connect` opens a socket if and only if none is alive, in place of a reconnect still to come |
| WsClientModel.SendsOnlyWhileOpen | packages/transport/src/ws-client.ts:298-304 | no operation sends anything but on the connection that is open |
| WsClientModel.ClosingSocketSendsNothing | packages/transport/src/ws-client.ts:100-104 | once a socket has left OPEN, what is issued waits |
| WsClientModel.ResponseSettles | packages/transport/src/ws-client.ts:237-244 | a response resolves its pending request with its data, or rejects it with its text, and touches no other promise; a late or repeated one does nothing |
| WsClientModel.ServerRequestIsTaken | packages/transport/src/ws-client.ts:159-166 | a request of the server gets its handler called, or is answered at once with the name of the unknown method |
| WsClientModel.HandlerAnswers | packages/transport/src/ws-client.ts:170-182 | what a handler returns goes out under the id of its request if and only if the connection that came in on is still the open one |
| WsClientModel.ServerRequestIsAnswered | packages/transport/src/ws-client.ts:159-183 | so a request of the server is answered with exactly what its handler returns |
| WsClientModel.LateAnswerIsDropped | packages/transport/src/ws-client.ts:167-182 | a handler that returns after the connection was lost or replaced is not heard |
| WsClientModel.RunKeepsInv | packages/transport/src/ws-client.ts:77-327 | every sequence of operations with fresh request ids keeps queue, promises and replies in order |
| WsClientModel.WsClient.Connect | packages/transport/src/ws-client.ts:77-84 | the connect transition: nothing while a socket is alive |
| WsClientModel.WsClient.DisconnectCall | packages/transport/src/ws-client.ts:86-98 | the disconnect transition: every pending promise rejected in order, the outbox left alone |
| WsClientModel.WsClient.EmitEvent | packages/transport/src/ws-client.ts:100-104 | the emit transition on the whole state |
| WsClientModel.WsClient.RequestCall | packages/transport/src/ws-client.ts:106-117 | the request transition on the whole state |
| WsClientModel.WsClient.HandleOpen | packages/transport/src/ws-client.ts:207-215 | the open transition: the resume first, then everything that waited, in order |
| WsClientModel.WsClient.HandleEnvelope | packages/transport/src/ws-client.ts:232-252 | the transition for each kind of incoming envelope, with the events handed to the listeners |
| WsClientModel.WsClient.HandlerSettled | packages/transport/src/ws-client.ts:170-182 | the answer goes out only if the connection is still the one that asked, and open |
| WsClientModel.WsClient.HandleClose | packages/transport/src/ws-client.ts:255-263 | the close transition: a reconnect timer unless explicitly closed |
| WsClientModel.WsClient.TimerFired | packages/transport/src/ws-client.ts:265-270 | the reconnect transition |
| WsClientModel.WsClient.Enqueue | packages/transport/src/ws-client.ts:315-327 | the outbox transition, with the eviction of the oldest |
| WsClientModel.WsClient.SettlePending | packages/transport/src/ws-client.ts:237-244 | settles a pending promise and ignores any other id |
| Promises.SettledOnce | packages/transport/src/rpc-channel.ts:145-155 | the shared ledger's law: no id settled twice, none both settled and pending, none forgotten |
| Promises.SettleSound | packages/transport/src/rpc-channel.ts:145-155 | settling keeps the law, records the outcome and touches no other id |
| Promises.SettleAllSound | packages/transport/src/rpc-channel.ts:166-170 | so does settling everything, with every pending id recorded |
| Promises.WithoutKeepsOrder | packages/transport/src/rpc-channel.ts:145-149 | taking one pending id off leaves the others in their order |
| Promises.AwaitSound | packages/transport/src/rpc-channel.ts:48-58 | a fresh id may be awaited, and comes after those already pending |
| Rpc.EachRequestSettlesOnce | packages/transport/src/rpc-channel.ts:46-62 | over every sequence of requests, responses late or repeated, timeouts and closes, the ids below nextId are each pending or settled once |
| Rpc.ClosedIsFinal | packages/transport/src/rpc-channel.ts:163-174 | once closed nothing is pending and nothing settles again, whatever follows |
| Rpc.StepKeepsEnd | packages/transport/src/rpc-channel.ts:46-174 | every operation keeps it, with exactly the pending requests' timers armed |
| Rpc.StepOnlySettles | packages/transport/src/rpc-channel.ts:145-174 | no operation takes a settlement back, and a closed channel settles nothing more |
| Rpc.ResponseSettles | packages/transport/src/rpc-channel.ts:145-155 | a response resolves its pending request with its data, or rejects it with its text, disarms its timer and touches no other; a late or repeated one does nothing |
| Rpc.TimeoutSettles | packages/transport/src/rpc-channel.ts:50-53 | the timer of a pending request rejects it, naming event and id; that of any other does nothing |
| Rpc.CloseSettles | packages/transport/src/rpc-channel.ts:163-174 | a close rejects what is pending in the order it was asked; a request or event after it is refused |
| Rpc.DecimalReadsBack | packages/transport/src/rpc-channel.ts:48 | the text of an id names one id only |
| Rpc.RpcChannel.RequestCall | packages/transport/src/rpc-channel.ts:46-62 | the request transition and envelope; a closed channel refuses without taking an id |
| Rpc.RpcChannel.EmitEvent | packages/transport/src/rpc-channel.ts:69-73 | sends nothing once closed |
| Rpc.RpcChannel.TimerFired | packages/transport/src/rpc-channel.ts:50-53 | rejects its own request, if still pending |
| Rpc.RpcChannel.HandleMessage | packages/transport/src/rpc-channel.ts:92-155 | for every kind of message: the transition, the envelopes sent and the listeners called |
| Rpc.RpcChannel.HandlerSettled | packages/transport/src/rpc-channel.ts:129-142 | the handler's outcome is sent under the id it was asked with |
| Rpc.RpcChannel.HandleClose | packages/transport/src/rpc-channel.ts:163-174 | the close transition; disconnect listeners are called as the walk says; then all listeners and handlers are dropped, unless one threw |
| Rpc.RpcChannel.RejectAll | packages/transport/src/rpc-channel.ts:166-170 | the loop rejects every pending request in order and disarms exactly their timers |
| Rpc.RpcChannel.FireEvent | packages/transport/src/rpc-channel.ts:157-161 | which callbacks are called when callbacks take others off or throw, which stay registered, and whether the call throws |
| Rpc.RpcChannel.CallEach | packages/transport/src/rpc-channel.ts:160 | the loop calls what the walk over the shrinking set calls |
| Rpc.WalkCallsTheSpared | packages/transport/src/rpc-channel.ts:82-85 | a callback of the set is called if and only if none called before it took it off or threw |
| Rpc.WalkMembers | packages/transport/src/rpc-channel.ts:157-161 | only registered callbacks are called, each at most once; the walk throws if and only if one called does, and that one was the last |
| Rpc.WalkTakesOff | packages/transport/src/rpc-channel.ts:82-85 | what is off at the end is what was off or what a called callback took off |
| Rpc.WalkCallsAll | packages/transport/src/rpc-channel.ts:157-161 | callbacks that leave each other alone are all called, in order of registration |
| Rpc.TakeOffLeaves | packages/transport/src/rpc-channel.ts:82-85 | exactly the callbacks taken off are no longer registered; an event without callbacks has no entry; other events keep theirs |
| Rpc.RpcChannel.On | packages/transport/src/rpc-channel.ts:75-81 | a callback is registered at most once |
| RpcLink.NoResponseCrosses | packages/transport/src/rpc-channel.ts:46-155 | over two joined channels with the same ids: a request resolved with v was answered by the peer's handler on exactly that request's event and data, with v |
| RpcLink.EverySettlementHasItsCause | packages/transport/src/rpc-channel.ts:46-174 | over every run every promise settled, resolved or rejected, was settled by the peer's answer to that request, its own timer or its own channel's close, with the value or text of that |
| RpcLink.NoRequestIsForgotten | packages/transport/src/rpc-channel.ts:92-155 | in every run, while the link is up, a pending request is on its way, or its handler runs, or its answer is on its way; with none of these left, nothing is pending |
| RpcLink.AfterACut | packages/transport/src/rpc-channel.ts:163-174 | once the link is cut, no end is ever handed an envelope again: what was on the way is gone, and no handler starts |
| RpcLink.RequestIsAnswered | packages/transport/src/rpc-channel.ts:46-155 | a request to a peer with a handler for it resolves with the handler's value or is rejected with its error; no other promise moves |
| RpcLink.UnknownMethodIsRejected | packages/transport/src/rpc-channel.ts:117-128 | a request to a peer that has taken its handler off is rejected with the name of the method |
| RpcLink.HandlersRunOncePerRequest | packages/transport/src/rpc-channel.ts:117-143 | no request has its handler started twice, and each was issued by the peer under that id |
| RpcLink.RunKeepsInv | packages/transport/src/rpc-channel.ts:92-155 | every interleaving of both ends, deliveries and a cut keeps both directions consistent |
| ControlRequests.OutboundSettlesOnce | apps/server/src/socket/control-request-tracker.ts:53-99 | no outbound control request settles twice or is both settled and pending; none is forgotten |
| ControlRequests.ControlRequestTracker.TrackInbound | apps/server/src/socket/control-request-tracker.ts:35-37 | inbound metadata does not disturb the outbound promises |
| ControlRequests.ControlRequestTracker.RemoveInbound | apps/server/src/socket/control-request-tracker.ts:39-41 | removes only that entry |
| ControlRequests.ControlRequestTracker.SendOutbound | apps/server/src/socket/control-request-tracker.ts:53-69 | keeps the law for a fresh id and hands subtype, parameters and id to the sender |
| ControlRequests.ControlRequestTracker.ResolveOutbound | apps/server/src/socket/control-request-tracker.ts:71-81 | settles a pending request once and ignores late or unknown responses |
| ControlRequests.ControlRequestTracker.TimerFired | apps/server/src/socket/control-request-tracker.ts:60-64 | a timer whose request is settled does nothing |
| ControlRequests.ControlRequestTracker.RejectAllPending | apps/server/src/socket/control-request-tracker.ts:84-94 | deleting while iterating still rejects every pending request once, in order |
| ControlRequests.ControlRequestTracker.Clear | apps/server/src/socket/control-request-tracker.ts:96-99 | nothing inbound or outbound is left, and no timer |
| Reconnectable.ReconnectableRpc.On | apps/server/src/remote/reconnectable-rpc.ts:60-78 | a new listener is persistent and, while connected, attached at once |
| Reconnectable.ReconnectableRpc.Release | apps/server/src/remote/reconnectable-rpc.ts:74-77 | on the current channel the callback stays attached exactly if it was registered before that channel came |
| Reconnectable.ReconnectableRpc.Replace | apps/server/src/remote/reconnectable-rpc.ts:18-42 | no earlier channel keeps a callback; the new one's, other than reconnect, are exactly the persistent ones and the hook |
| Reconnectable.ReconnectableRpc.Resubscribe | apps/server/src/remote/reconnectable-rpc.ts:24 | what reconnect callbacks register is attached to the new channel |
| Reconnectable.ReconnectableRpc.Rewire | apps/server/src/remote/reconnectable-rpc.ts:26-31 | attaches every persistent callback but reconnect ones, and nothing else |
| Reconnectable.ReconnectableRpc.TeardownCurrent | apps/server/src/remote/reconnectable-rpc.ts:50-53 | takes off exactly what was recorded |
| Reconnectable.ReconnectableRpc.ChannelDisconnects | apps/server/src/remote/reconnectable-rpc.ts:33-41 | the callbacks wired by the last replace are told, those registered later are not, and nothing stays attached |
| Reconnectable.ReconnectableRpc.Destroy | apps/server/src/remote/reconnectable-rpc.ts:44-48 | nothing attached or persistent is left |
| Reconnectable.ReleasedYetAttached | apps/server/src/remote/reconnectable-rpc.ts:68-77 | register, replace, release: the callback is no longer persistent but still attached |
| Channels.AgreementIsExact | apps/server/src/socket/channel-emitter.ts:144-223 | in every state guarded steps reach, a step is inside the guard if and only if the maps agree and track exactly the live sockets after it and after every guarded continuation |
| Channels.LiveSocketsAreInTheirChannels | apps/server/src/socket/channel-emitter.ts:144-239 | over every guarded sequence of steps a live socket is in exactly the channels on record for it, any other socket in none, and each live socket is kept under one id |
| Channels.NewSocketEnters | apps/server/src/socket/channel-emitter.ts:146-161 | a new socket that enters a channel is live and in that channel alone; no other socket is moved |
| Channels.LoseAndReturn | apps/server/src/socket/channel-emitter.ts:163-185 | a socket that loses its connection and comes back under another id: every channel has exactly the members it had |
| Channels.LapsedSocketReturnsToNoChannel | apps/server/src/socket/channel-emitter.ts:187-189 | a socket that comes back after its session has lapsed is in no channel, and no other socket is moved; a lapse forgets the record under that id, tracked or not, and nothing else |
| Channels.LateCloseTakesOut | apps/server/src/socket/channel-emitter.ts:220-222 | from every orderly state, a new connection before the end of the old one leaves the socket kept under two ids, and the late end takes the live socket out of all its channels |
| Channels.CloseTakesOutLiveIff | apps/server/src/socket/channel-emitter.ts:163-176 | the end of a connection takes a live socket out of a channel if and only if the socket stands for another, open connection and is in a channel |
| Channels.ConnectKeepsAgreementIff | apps/server/src/socket/channel-emitter.ts:197-203 | a connection keeps the maps in agreement if and only if the socket is tracked or has nothing on record |
| Channels.JoinKeepsAgreementIff | apps/server/src/socket/channel-emitter.ts:146-161 | a join does if and only if the socket is tracked or has no other channel on record |
| Channels.ExpireKeepsAgreementIff | apps/server/src/socket/channel-emitter.ts:187-189 | an expiry does if and only if no socket is kept under the id or nothing is on record under it |
| Channels.ReturnKeepsAgreementIff | apps/server/src/bin/server.ts:99-103 | a rebind with its reattachment and connection does if and only if the socket is no longer tracked under its old id |
| Channels.RemoveKeepsAgreement | apps/server/src/socket/channel-emitter.ts:163-176 | taking a socket off always does; it leaves every channel, its channels stay on record, no other socket moves |
| Channels.RemovingTwice | apps/server/src/socket/handlers/app.ts:71-75 | the second of the two listeners that notice a closed connection changes nothing |
| Channels.ChannelEmitter.HandleConnection | apps/server/src/socket/channel-emitter.ts:197-203 | the connect transition on the three maps |
| Channels.ChannelEmitter.AddSocketToChannel | apps/server/src/socket/channel-emitter.ts:146-161 | the join transition: all three maps get the pair |
| Channels.ChannelEmitter.RemoveSocketFromAll | apps/server/src/socket/channel-emitter.ts:163-176 | the loop takes the socket kept under the id out of exactly the channels on record, which it returns |
| Channels.ChannelEmitter.ReattachSocket | apps/server/src/socket/channel-emitter.ts:178-185 | the loop joins the socket, under the id it has now, to exactly the channels on record under the previous one, which is forgotten |
| Channels.ChannelEmitter.ExpireSocket | apps/server/src/socket/channel-emitter.ts:187-189 | the expiry transition |
| Channels.ChannelEmitter.ComeBack | packages/transport/src/middleware/resumable.ts:47-56 | rebind, reattach and connect make up the return of a socket |
| Channels.ChannelEmitter.Emit | apps/server/src/socket/channel-emitter.ts:121-127 | reaches exactly the members, each once; in agreement, the tracked sockets with the channel on record |
| Channels.ChannelEmitter.EmitToOthers | apps/server/src/socket/channel-emitter.ts:129-142 | reaches exactly the members but the one with the excluded id, each once |
| Channels.ChannelEmitter.BroadcastAll | apps/server/src/socket/channel-emitter.ts:235-239 | reaches each socket as often as it is kept under some id; in agreement, each tracked socket once and no other |
| Broadcasting.SubscribersShareTheSnapshot | packages/broadcaster/src/broadcaster.ts:37-141 | at most one read in flight; who has received anything last received the cached value; once drained, every subscriber has it unless a read failed |
| Broadcasting.TeardownGuardIsExact | packages/broadcaster/src/broadcaster.ts:130-141 | an unsubscribe is inside the guard if and only if two reads can never be in flight afterwards |
| Broadcasting.SharingGuardIsExact | packages/broadcaster/src/broadcaster.ts:71-122 | it is if and only if no guarded continuation leaves a subscriber having last received anything but the cached value |
| Broadcasting.StaleReadOverwrites | packages/broadcaster/src/broadcaster.ts:112-122 | outside it, a read of the torn down entry replaces the new entry's value without telling its subscriber |
| Broadcasting.ChangeIsServedIffIdle | packages/broadcaster/src/broadcaster.ts:67-81 | a change is answered by a read begun after it if and only if no read was in flight; until the next change, failed read or teardown no other read starts, and once drained, what the answering read found is what every subscriber last received |
| Broadcasting.UnsubscribedHearsNothing | packages/broadcaster/src/broadcaster.ts:130-141 | an unsubscribe takes off that subscription and no other; its callback receives nothing in any run that follows, guarded or not, in which nobody subscribes under its id |
| Broadcasting.CalledAgainIffOutstanding | packages/broadcaster/src/broadcaster.ts:99-123 | some run calls an unsubscribed callback again if and only if its own initial read was in flight at the unsubscribe, or it was chained to a read |
| Broadcasting.SubscribedBelongs | packages/broadcaster/src/broadcaster.ts:37-65 | every run keeps what these two ask of a state, for a callback that was fresh when it was subscribed |
| Broadcasting.SubscribeTakesOver | packages/broadcaster/src/broadcaster.ts:37-47 | a subscription takes the place of the one under its id and no other, and gets what is cached at once |
| Broadcasting.FirstSubscriberReadsAnew | packages/broadcaster/src/broadcaster.ts:49-65 | the first subscriber after a teardown gets nothing read before, but what a read of its own finds |
| Broadcasting.AbandonedReadKeepsSlot | packages/broadcaster/src/broadcaster.ts:71-85 | the end of a read whose entry has been torn down leaves the slot of the new entry alone, so the next change starts no second read |
| Broadcasting.ChainedCallbacksRun | packages/broadcaster/src/broadcaster.ts:100-106 | the callbacks chained to reads that have ended all run, each once; after a teardown they call nobody |
| Broadcasting.FailedReadIsReplaced | packages/broadcaster/src/broadcaster.ts:82-85 | a failed read frees the slot, releases those chained to it and reaches nobody; the next change starts a read whose value reaches every subscriber |
| Broadcasting.RunKeepsInv | packages/broadcaster/src/broadcaster.ts:37-141 | every guarded interleaving keeps single flight and the deliveries that are due |
| Broadcasting.RunKeepsSlot | packages/broadcaster/src/broadcaster.ts:67-128 | every interleaving, guarded or not, keeps the slot naming a read in flight of the entry in the map |
| Broadcasting.LocalBroadcaster.SubscribeCall | packages/broadcaster/src/broadcaster.ts:37-65 | the subscribe transition: from the cache, chained to a read in flight, or with a new read |
| Broadcasting.LocalBroadcaster.UnsubscribeCall | packages/broadcaster/src/broadcaster.ts:130-141 | the unsubscribe transition, with the teardown after the last subscriber |
| Broadcasting.LocalBroadcaster.OnSourceChange | packages/broadcaster/src/broadcaster.ts:67-71 | the change transition |
| Broadcasting.LocalBroadcaster.OnReadDone | packages/broadcaster/src/broadcaster.ts:71-81 | the transition when either kind of read ends, for whatever entry is in the map by then |
| Broadcasting.LocalBroadcaster.OnReadFailed | packages/broadcaster/src/broadcaster.ts:82-85 | a failed read frees the slot and still lets the chained callbacks go |
| Broadcasting.LocalBroadcaster.RunQueuedCallback | packages/broadcaster/src/broadcaster.ts:99-108 | the chained delivery, which rereads the cache |
| Broadcasting.LocalBroadcaster.DeliverToAll | packages/broadcaster/src/broadcaster.ts:79 | every subscriber's callback gets the value, no other |
| Topics.TopicEmitter.Subscribe | packages/utils/src/topic-emitter.ts:29-44 | the nested maps agree with the set of unreleased handles everywhere |
| Topics.TopicEmitter.Release | packages/utils/src/topic-emitter.ts:45-58 | so they do after a release; a repeated release has no effect |
| Topics.TopicEmitter.Publish | packages/utils/src/topic-emitter.ts:61-71 | the latest callback of each id with an unreleased handle is called once, also when some throw |
| Topics.TopicEmitter.HasSubscribers | packages/utils/src/topic-emitter.ts:73-76 | true exactly if some handle of the topic is unreleased |
| Topics.TopicEmitter.RefcountCountsHandles | packages/utils/src/topic-emitter.ts:29-59 | an entry exists if and only if a handle is unreleased, and its refcount is their number |
| Topics.TopicEmitter.TopicLivesWithHandles | packages/utils/src/topic-emitter.ts:54-57 | a topic exists if and only if one of its handles is unreleased |
| Topics.ExpectedAdd | packages/utils/src/topic-emitter.ts:35-44 | one more handle counts one more and makes its callback the latest |
| Topics.ExpectedRemove | packages/utils/src/topic-emitter.ts:53-57 | one released handle counts one less, and the last one takes the entry away |
| Lines.NoLineAndNoWakeUpIsLost | apps/server/src/remote/process-provider.ts:55-93 | in every interleaving lines yielded and queued are those enqueued, the end comes only when finished and drained, a sleeping consumer has nothing to be woken for, and the exit is reported exactly once |
| Lines.DrainsAfterFinish | apps/server/src/remote/process-provider.ts:81-93 | after the process has finished, asking yields every remaining line and then the end |
| Lines.EveryLineIsTaken | apps/server/src/remote/process-provider.ts:59-72 | in every interleaving all lines are taken up until the end has been reported, also those after the finish; the exit is reported with the code of the first finish |
| Lines.AskingGetsTheNextLine | apps/server/src/remote/process-provider.ts:81-93 | who asks gets the oldest line, or sleeps until the next line or the finish, which then reaches it |
| Lines.StepKeepsInv | apps/server/src/remote/process-provider.ts:55-93 | every operation keeps it and takes no yielded line back |
| Lines.LineStream.OnLine | apps/server/src/remote/process-provider.ts:59-63 | the enqueue transition; nothing after clean-up |
| Lines.LineStream.OnFinish | apps/server/src/remote/process-provider.ts:65-72 | the finish transition with its exit code, once |
| Lines.LineStream.NextStretch | apps/server/src/remote/process-provider.ts:81-93 | one stretch of `next` between awaits: the next line, a suspension, or the end when everything was yielded |
| RawEvents.OrderIsSorted | apps/server/src/services/drizzle-raw-event-repository.ts:181-189 | the ordered read holds exactly the selected rows, strictly sorted by (createdAt, id) |
| RawEvents.ReadIsTheList | apps/server/src/services/drizzle-raw-event-repository.ts:181-189 | a list of rows is the ordered read if and only if it holds exactly the session's rows in strictly increasing order |
| RawEvents.ReadIsChronological | apps/server/src/services/drizzle-raw-event-repository.ts:186 | the ordered read goes forward in time, and within an instant by the text of the id |
| RawEvents.LexLessIff | apps/server/src/services/drizzle-raw-event-repository.ts:186 | texts are compared at their first difference, a proper prefix coming first |
| RawEvents.AfterOrder | apps/server/src/services/drizzle-raw-event-repository.ts:237-249 | filtering by the cursor and ordering commute |
| RawEvents.AfterIsSuffix | apps/server/src/services/drizzle-raw-event-repository.ts:239-240 | in an ordered read what lies after a row's key is what follows the row |
| RawEvents.PageQuery | apps/server/src/services/drizzle-raw-event-repository.ts:237-249 | the keyset query selects the plain read from just after the cursor on |
| RawEvents.RawEventStore.Page | apps/server/src/services/drizzle-raw-event-repository.ts:237-249 | one keyset query returns the next rows of the plain read after the cursor, as many as the batch size allows |
| RawEvents.RawEventStore.StreamBySession | apps/server/src/services/drizzle-raw-event-repository.ts:234-257 | for any batchSize of at least 1 it ends, and its non-empty batches, all of that length but the last, together are the plain ordered read, oldest event first; 0 yields nothing |
| RawEvents.RawEventStore.GetEventsBySession | apps/server/src/services/drizzle-raw-event-repository.ts:181-189 | the events of whatever list holds exactly the session's rows in strictly increasing order of (createdAt, id), oldest first |
| RawEvents.RawEventStore.Append | apps/server/src/services/drizzle-raw-event-repository.ts:86-96 | one row under the given id, and the event reads back as itself; or nothing if the id is taken |
| RawEvents.AppendReadsBack | apps/server/src/services/drizzle-raw-event-repository.ts:86-96 | the session of an appended event reads as before with the event itself, unchanged, among the others; every other session as before |
| RawEvents.ClonesFitIff | apps/server/src/services/drizzle-raw-event-repository.ts:140-147 | the clones can be inserted if and only if their ids differ from each other and from all in the table |
| RawEvents.RawEventStore.CloneEvents | apps/server/src/services/drizzle-raw-event-repository.ts:133-148 | all clones or none, exactly when the sessions differ and no id is taken |
| RawEvents.RawEventStore.DeleteBySession | apps/server/src/services/drizzle-raw-event-repository.ts:230-232 | that session is empty and every other is as before |
| RawEvents.WithoutReads | apps/server/src/services/drizzle-raw-event-repository.ts:230-232 | what a delete leaves, row by row and session by session |
| RawEvents.CloneReadsLikeSource | apps/server/src/services/drizzle-raw-event-repository.ts:133-148 | a clone into an empty session reads back as the source with only the session id replaced, given ids that keep events of one instant in order |
| RawEvents.CloneOrderIff | apps/server/src/services/drizzle-raw-event-repository.ts:140-147 | it reads back in insertion order if and only if the ids do that |
| RawEvents.CloneTouchesNoOtherSession | apps/server/src/services/drizzle-raw-event-repository.ts:133-148 | every other session reads as before |
| CompositeRawEvents.CompositeRawEventStore.Append | apps/server/src/services/composite-raw-event-repository.ts:10-14 | all replicas stay identical row for row, primary keys included, whether the insert succeeds or fails |
| CompositeRawEvents.CompositeRawEventStore.CloneEvents | apps/server/src/services/composite-raw-event-repository.ts:44-49 | replicas stay identical after a clone, also of a session that has rows in the deltas table; when it succeeds, and what it adds |
| CompositeRawEvents.CompositeRawEventStore.DeleteBySession | apps/server/src/services/composite-raw-event-repository.ts:51-53 | so they do after a delete |
| CompositeRawEvents.Fork | apps/server/src/services/composite-raw-event-repository.ts:44-49 | after a fork every replica reads the new session like the source and the source as before |
| Projects.BasenameIsLastSegment | apps/server/src/services/project-store.ts:79 | a base name has no slash and is what lies between the path's trailing slashes and the slash before them |
| Projects.DefaultNameIs | apps/server/src/services/project-store.ts:79 | a new project is named after the last non-empty segment of its path, or after the path if there is none |
| Projects.InsertView | apps/server/src/services/project-store.ts:85 | an insert adds one path to what the replicas have in common |
| Projects.SetView | apps/server/src/services/project-store.ts:115 | an update by id changes the attributes of one path only |
| Projects.DeleteView | apps/server/src/services/project-store.ts:119-121 | a delete by id takes one path away only |
| Projects.SameViewSameProjects | apps/server/src/services/project-store.ts:66-121 | replicas with the same view hold, path by path, projects of the same name, pin and colour |
| Projects.ProjectStore.GetById | apps/server/src/services/project-store.ts:97-100 | the row with the id, and none only if there is none |
| Projects.ProjectStore.GetByPath | apps/server/src/services/project-store.ts:102-105 | the row with the path, and none only if there is none |
| Projects.ProjectStore.Upsert | apps/server/src/services/project-store.ts:66-87 | a new path gets a row with default attributes; of a known one only the time moves; no other row changes |
| Projects.ProjectStore.Write | apps/server/src/services/project-store.ts:69-73 | exactly the row with the record's id becomes the record |
| Projects.ProjectStore.Update | apps/server/src/services/project-store.ts:107-117 | in one row each field the patch names has the patched value, a null colour included, and every other its own; an unknown id changes nothing |
| Projects.ProjectStore.Remove | apps/server/src/services/project-store.ts:119-121 | exactly that row and its path are gone; an unknown id changes nothing |
| CompositeProjects.CompositeProjectStore.Upsert | apps/server/src/services/composite-project-store.ts:17-21 | all replicas still hold the same paths with the same name, pin and colour; with a single store the call fails after the write |
| CompositeProjects.CompositeProjectStore.UpsertReplicas | apps/server/src/services/composite-project-store.ts:19 | every other replica does what the primary did, under ids of its own |
| CompositeProjects.CompositeProjectStore.Update | apps/server/src/services/composite-project-store.ts:23-36 | replicas in step after an update by a primary id; what the primary then holds; when it fails |
| CompositeProjects.CompositeProjectStore.UpdateReplicas | apps/server/src/services/composite-project-store.ts:26-33 | every other replica finds the project by path and patches it alike |
| CompositeProjects.CompositeProjectStore.Remove | apps/server/src/services/composite-project-store.ts:38-51 | replicas in step after a removal by a primary id; an unknown id changes nothing anywhere |
| CompositeProjects.CompositeProjectStore.RemoveFromReplicas | apps/server/src/services/composite-project-store.ts:42-49 | every other replica finds the project by path and removes its own row |
| Jsonl.JoinThenParseLines | packages/session-store/src/jsonl/decoder.ts:110-112 | splitting an exported text gives back exactly the exported lines |
| Jsonl.SplitKeepsText | packages/session-store/src/jsonl/decoder.ts:111 | any text is cut at all its newlines and nowhere else |
| Jsonl.NonBlankHas | packages/session-store/src/jsonl/decoder.ts:111 | of the pieces exactly those with a character other than white space are kept |
| Jsonl.EncodeFailsIff | packages/session-store/src/jsonl/encoder.ts:17-24 | an export throws if and only if the text of some event other than an error one is `null` |
| Jsonl.EncodesIff | packages/session-store/src/jsonl/encoder.ts:13-36 | which events become a line, by direction, type and tool result; the line is the text as it is, or the entry with only session and directory replaced |
| Jsonl.EncodeJoinsExported | packages/session-store/src/writer/jsonl-file-writer.ts:6-15 | otherwise its output is the encodable events, enriched, one a line, in order |
| Jsonl.ExportedLines | packages/session-store/src/jsonl/encoder.ts:13-36 | an import sees exactly the exported entries outside sidechains, all with the context's session id |
| Jsonl.DecodeShape | packages/session-store/src/jsonl/decoder.ts:58-108 | one event a line that counts, in order, with its text, session id and time |
| Jsonl.ParsedLinesCount | packages/session-store/src/jsonl/decoder.ts:34-43 | an import sees exactly the non-blank lines that hold an entry with a type outside a sidechain, in order |
| Jsonl.FirstRecordIs | packages/session-store/src/jsonl/decoder.ts:45-56 | the record takes id, directory and time from the first entry that has all three, or is the default |
| Jsonl.ExportThenImport | packages/session-store/src/jsonl/decoder.ts:96-112 | the round trip: one event for every exported event outside a sidechain, in order, in the context's session, whose entry is that of the original but for session and directory, and whose time is the original entry's, else its snapshot's, else the nearest positive one before it, else the clock's |
| Jsonl.JsonlDecoder.ReadLine | packages/session-store/src/jsonl/decoder.ts:76-85 | the event of a line, parsed or not, or none for a line that does not count; the last positive time is remembered |
| Jsonl.DecodeSession | packages/session-store/src/jsonl/decoder.ts:96-108 | the loop decodes the lines that count in order and takes the record from the first with all three fields, else the default |

## Left out

- Broadcasting.SubscribersShareTheSnapshot: one directory and one broadcast type.
- RawEvents.RawEventStore.StreamBySession: the whole sequence of batches is returned at once; no writer changes the table between batches.
- Replay.TypedSocket.Emit: only the first argument of an emit travels, as on the wire; the rest is not modelled.
- Rpc.RpcChannel.On: releasing a listener twice, or one whose event has lost all its listeners and got new ones, because the release holds on to its original set; a listener registered while its event is being fired.
- Jsonl.DecodeSession: the constant fields of a session record.
- Real sockets, HTTP upgrade and the event loop; pings, backoff, jitter and the visibility handler change timing only.
- WsClient's registry of event listeners and lifecycle callbacks, and WsTransport's dispatch of incoming envelopes to local listeners: one call each.
- Schema validation, logging, dependency injection, configuration, and everything in the web and CLI packages.
- JSON text itself, SQL, the union with the deltas table, `appendBatch`, previews, counts and the order of the project list.
- Stores that fail for outside reasons; a store here fails only on a taken id.
- LineStream's early `return()`, which discards lines by design, its stderr lines, and spawning and killing processes.
- ChannelEmitter's middlewares and dispatch to handlers.
- The limit of 2^53 on JavaScript's counters.
