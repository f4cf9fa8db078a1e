# cpp_linux_learn: a Dafny model of its message transport, dispatcher and in-place algorithms

The project models three parts of the repository and proves what they guarantee over every input, every
interleaving or every run. `dafny verify dfyconfig.toml` checks all of it.

**Message transport (`solcomapi`).** Commands are serialised into the slots of a ring buffer, transmitted
one write at a time, and framed again on the other side from whatever chunks arrive.

- `Bytes`, `Codec`: byte layouts of head and commands. Structs are copied with `memcpy`, so both ends share
  a layout; the model fixes it to little-endian. A `double` is its eight stored bytes.
- `CachedBuffer` (with `Modular`, `Options`): the ring with its wrapping 64-bit counters and masks.
- `CByteArray`: the sliding-window byte array, with its storage and its never-updated `nCapacity` kept
  apart, and the encoder and decoder that run on it. Bytes of a new block that nothing was copied to are
  zero here and unspecified in the source.
- `Receiver` (with `FrameParser`): `alloc_cb` and `read_cb`. The reference is a parser that sees the whole
  stream at once.
- `SendPump`: `postMsg`, `idle_cb`, `req_write_cb`, connection events and libuv's transmission of the
  submitted buffer, as one step function. `volatile` accesses are sequentially consistent, producers are
  serialised, and libuv reports the outstanding write of a closing handle before the handle is used again.
- `EndToEnd`: sender, byte streams and receivers together. TCP is an in-order byte queue. A connection the
  client has given up stays in the system: its receiver may go on taking bytes that were sent on it.

**Dispatcher (`StragetyDeployer`).** ZeroMQ sockets are queues of multipart messages, the database is a set
of manager names with batches, clock readings are parameters.

- `Sessions`: identity check, login check, single login point, keep-alive timer.
- `Requests`: the request encoders, multipart assembly, and what a whole request means to the server.
- `Polling`: the reading side of the poll loop. `recv` takes the next frame whether or not it belongs to the
  message being read; a turn may also lose its meaning or wait for a message that has not arrived.
- `PollLoop`: `pollFunc` turn by turn with cache refreshes and timer, and the way of the clients' requests to
  it. Every call of a client sends on an inproc socket of its own, so its messages may arrive in any order.
- `Responses`: the server's sends, their way to a client, and the client's receive automaton.
- `ManagerCache`: the flag protocol between workers and poll thread.
- `Dispatcher`: database, cache and sessions as one system.
- `ThreadPool`: submitters and workers of the fixed pool.

**In-place algorithms.**

- `UnionFind`, `StockIndex` (digit trie, map and table), `Sorting` (partition, quicksort, selection).

## Where the code does not do what it is documented or meant to do

- `dataSize` is documented to exceed the serialised size; it is 16 for every command while a test command
  takes 45 bytes (`Codec.DataSizeCoversExactlyHeartbeats`). `postMsg` stays in bounds only because no slot
  is shorter than 1424 bytes.
- `connect_cb` does not reset `recvStat`: the client frames a new connection correctly, for every stream and
  chunking, exactly when the old one did not end inside a body
  (`Receiver.ReconnectFramesIffBetweenPackets`). Otherwise the first head is taken for a body
  (`Receiver.HeadTakenForBody`); `Receiver.ReconnectReplaysOldCommand` is a run in which the client is handed a
  command again that the old connection had already delivered.
- A failed write leaves `bReqWritereqBusy` set, and the sender never submits anything again, whatever
  connections follow (`SendPump.HaltedForever`); in every other connected state everything accepted can still
  arrive (`EndToEnd.Progress`).
- `current()` stops following `front()` after 2^64 pops, with the exact condition for agreement in
  `CachedBuffer.CurrentIsFrontExactly`.
- Inserts open no transaction. One that fails in part leaves the manager cache wrong unless a refresh is due
  anyway; `ManagerCache.PartialFailExactly` gives the exact condition. It happens when a refresh comes between the
  announcement of the insert and the insert itself (`ManagerCache.PartialFailReachesStaleCache`), lasts until
  another insert is announced or another batch succeeds (`ManagerCache.StaysStale`), and refuses managers who
  are in the database (`Dispatcher.RefusedThoughInTable`).
- Request handlers call `recv` without asking whether a frame is left. `Polling.WholeMessage` says exactly
  for which messages a turn stays inside its own, `Polling.OneTurn` how many messages it takes otherwise, and
  `Polling.ColumnTurn` what filters that do not pair up do: the messages behind, other clients' included,
  disappear up to the first one of odd length, without an assertion, or the poll thread waits.
- A query or deletion by column for an element type outside 0..4 is encoded by the client and makes the
  server index past the table names, once it is accepted (`Polling.TableMustExist`).
- A silent session ends within 70 s, two loop turns and the delay between the two clock readings of a turn
  (`Sessions.KeepAliveBound`), not within 70 s and two turns: for all turn lengths and delays
  `Sessions.KeepAliveBoundIsTight` gives a run that lasts to the last moment, so 70 s and two turns are
  exceeded exactly when the readings can be two or more of the clock units apart, by one less than that.

## Model

| member | source | states |
|---|---|---|
| `Bytes.LittleEndianRoundTrip` | solcomapi/src/CByteArray.h:100-106 | a scalar stored byte by byte is read back unchanged when it fits |
| `Bytes.RequestIdRoundTrip` | solcomapi/src/SolcomApi.cpp:197 | every `int` request id survives widening to `uint64_t` and narrowing on the server |
| `Codec.HeadRoundTrip` | solcomapi/src/PackageCodec.h:13-22 | decoding the twelve bytes of any head gives the head |
| `Codec.CommandRoundTrip` | solcomapi/src/SillyCommand.h:34-43 | both commands deserialise to themselves whatever bytes follow |
| `Codec.MessageRoundTrip` | solcomapi/src/SolcomApi.cpp:194-203 | head and body of an encoded message give back version 0, type, request id, body length and command, with any bytes behind |
| `Codec.WireLayout` | solcomapi/src/CommonStruct.h:16-28 | which bytes of an encoded message hold which field |
| `Codec.DataSizeCoversExactlyHeartbeats` | solcomapi/src/ISerializable.h:29-35 | the size promise of `dataSize` holds for a heartbeat and for no test command |
| `CachedBuffer.AndMask` | solcomapi/src/CachedBuffer.h:50 | masking with a power of two less one is the remainder |
| `CachedBuffer.PowerOfTwoBelow` | solcomapi/src/CachedBuffer.h:19-33 | the capacity is the largest power of two not above the argument |
| `CachedBuffer.Queries` | solcomapi/src/CachedBuffer.h:38-51 | on wrapped counters `isEmpty` and `isFull` are exact, `front` and `allocate` name the oldest and the next free slot |
| `CachedBuffer.AllocateIsNotLive` | solcomapi/src/CachedBuffer.h:46-51 | `allocate` returns no slot that holds a waiting element |
| `CachedBuffer.StoreKeepsQueue` | solcomapi/src/CachedBuffer.h:46-51 | writing the allocated slot changes no waiting element |
| `CachedBuffer.HeadForwardPops` | solcomapi/src/CachedBuffer.h:52-60 | `headForward` removes exactly the oldest element, across wrap-around |
| `CachedBuffer.TailForwardPushes` | solcomapi/src/CachedBuffer.h:69-75 | `tailForward` appends exactly the element in the allocated slot |
| `CachedBuffer.CurrentIsFrontExactly` | solcomapi/src/CachedBuffer.h:57-87 | `current` equals `front` if and only if fewer than 2^64 pops happened or the head is in the last slot |
| `CachedBuffer.RingRefinesFifo` | solcomapi/src/CachedBuffer.h:19-81 | for every run of any length a caller sees what a bounded first-in first-out queue shows |
| `CachedBuffer.CachedBuffer.constructor` | solcomapi/src/CachedBuffer.h:19-33 | a new ring is empty, with the largest power of two as capacity |
| `CachedBuffer.CachedBuffer.Allocate` | solcomapi/src/CachedBuffer.h:46-51 | null exactly when full, otherwise a slot different from every live one |
| `CachedBuffer.CachedBuffer.HeadForward` | solcomapi/src/CachedBuffer.h:52-60 | drops the first of the contents, or reports empty and changes nothing |
| `CachedBuffer.CachedBuffer.TailForward` | solcomapi/src/CachedBuffer.h:69-75 | adds the slot after the newest to the contents, or reports full and changes nothing |
| `CachedBuffer.CachedBuffer.Front` | solcomapi/src/CachedBuffer.h:76-81 | the slot of the first of the contents |
| `CachedBuffer.CachedBuffer.Current` | solcomapi/src/CachedBuffer.h:82-87 | the front slot exactly under the stated condition on pops |
| `CByteArray.CByteArray.Reallocate` | solcomapi/src/CByteArray.h:69-78 | the live bytes keep their place in a block of the new size; nothing happens when the stale capacity suffices |
| `CByteArray.CByteArray.Append` | solcomapi/src/CByteArray.h:100-113 | storage after copying at the right end, which advances |
| `CByteArray.CByteArray.Prepend` | solcomapi/src/CByteArray.h:115-128 | storage after copying before the left end, which moves back |
| `CByteArray.CByteArray.HeadIntercept` | solcomapi/src/CByteArray.h:130-143 | the bytes at the left end, which advances |
| `CByteArray.EncodeInto` | solcomapi/src/SolcomApi.cpp:191-203 | a slot of 1424 bytes ends up holding exactly the encoded message, all writes in bounds |
| `CByteArray.DecodeFrom` | solcomapi/src/PackageCodec.h:17-30 | reading a packet back gives every field, consumes exactly the announced body, and leaves the two ends equal |
| `FrameParser.ParseSplits` | solcomapi/src/SolConnServer.cpp:166-219 | parsing frames can stop and resume at any byte |
| `Receiver.OnRead` | solcomapi/src/SolConnServer.cpp:160-219 | for any history of body lengths the window offered next lies inside the actual storage |
| `Receiver.OneRead` | solcomapi/src/SolConnServer.cpp:166-219 | one callback moves the state as the one-shot parser moves on the same bytes |
| `Receiver.ChunkIndependence` | solcomapi/src/SolConnServer.cpp:160-219 | for every stream and every legal chunking, what is dispatched, whether it crashes and the whole state depend on the bytes alone |
| `Receiver.StreamParses` | solcomapi/src/SolConnServer.cpp:190-207 | any concatenation of well-formed packets is dispatched completely, one command per packet with its own head and type |
| `Receiver.HeadIsStable` | solcomapi/src/SolConnServer.cpp:177-191 | the head decoded at body completion is the one that announced the body |
| `Receiver.EmptyBodyCloses` | solcomapi/src/SolConnServer.cpp:160-219 | a head that announces an empty body ends the connection, and nothing is dispatched on it any more |
| `Receiver.ReconnectFramesIffBetweenPackets` | solcomapi/src/SolcomApi.cpp:222-235 | after a reconnect every stream in every chunking is framed as by the one-shot parser if and only if the client was between packets; the dispatched commands alone already tell |
| `Receiver.HeadTakenForBody` | solcomapi/src/SolcomApi.cpp:244-275 | inside a body, the first head of the new connection causes a command nobody sent or ends the process |
| `Receiver.CutInsideBody` | solcomapi/src/SolcomApi.cpp:244-275 | one whole message and the head of another lead to a state inside a body with the first command still in the buffer |
| `Receiver.ReconnectReplaysOldCommand` | solcomapi/src/SolcomApi.cpp:222-275 | a run in which the reconnected client is handed an already delivered command again, on a head alone |
| `Receiver.Connection.AllocCb` | solcomapi/src/SolcomApi.cpp:237-242 | the window given to libuv is inside the storage block |
| `Receiver.Connection.ReadCb` | solcomapi/src/SolConnServer.cpp:166-219 | the callback on the real buffer is the step the chunk theorems are about |
| `SendPump.PutInv` | solcomapi/src/SolcomApi.cpp:188-203 | a producer's write keeps every waiting message and the one in transmission |
| `SendPump.StepInv` | solcomapi/src/SolcomApi.cpp:297-358 | every step of producers, loop and transport keeps ring, slots and wire consistent |
| `SendPump.PumpSafety` | solcomapi/src/SolcomApi.cpp:297-358 | in every reachable state submitted writes are pops plus one while busy, the outstanding write is the head slot, and the wire is a prefix of the accepted messages since the connection came up |
| `SendPump.ProducerSparesTransmission` | solcomapi/src/SolcomApi.cpp:184-209 | no producer step changes the buffer being transmitted |
| `SendPump.DrainOne` | solcomapi/src/SolcomApi.cpp:343-358 | submit, transmit and complete puts exactly the oldest waiting message on the wire and changes nothing else |
| `SendPump.EndWrite` | solcomapi/src/SolcomApi.cpp:309-313 | a write outstanding on a live connection can be completed |
| `SendPump.HaltedForever` | solcomapi/src/SolcomApi.cpp:297-308 | after a failed write no run submits, completes or transmits anything, reconnections included |
| `SendPump.FailedWriteHalts` | solcomapi/src/SolcomApi.cpp:297-358 | a write reported as failed, and one refused at once, lead to that state |
| `SendPump.ClosedCarriesNothing` | solcomapi/src/SolcomApi.cpp:135-142 | after a close or a failed write no run without a new connection submits, transmits or accepts anything, save a message already being posted |
| `SendPump.SlotInTransit` | solcomapi/src/SolcomApi.cpp:191-203 | a slot being filled may hold anything meanwhile |
| `SendPump.PostOne` | solcomapi/src/SolcomApi.cpp:184-209 | a message is accepted exactly when connected with room, at the tail |
| `EndToEnd.PrefixParses` | solcomapi/src/SolConnServer.cpp:166-219 | any prefix of the bytes of some messages decodes to a prefix of the messages, without failure |
| `EndToEnd.StepInv` | solcomapi/src/SolcomApi.cpp:184-358 | the joint invariant of sender, wires and the receivers of all connections, bytes arriving late on old ones included |
| `EndToEnd.EndToEnd` | solcomapi/src/SolcomApi.cpp:184-358 | for every interleaving, chunking and failure history each connection, current or given up, decodes consecutive accepted messages from its first one on, no message is decoded on two connections, and the current one decodes all of its own once everything arrived |
| `EndToEnd.FirstConnection` | solcomapi/src/SolConnServer.cpp:160-219 | on the first connection the decoded sequence is a prefix of the accepted one |
| `EndToEnd.Progress` | solcomapi/src/SolcomApi.cpp:309-358 | from every connected state without a failed write some steps lead to the receiver having decoded every accepted message of the connection |
| `EndToEnd.ConnectKeepsOld` | solcomapi/src/SolcomApi.cpp:222-235 | a new connection starts empty and leaves the receiver of the old one with all that was sent to it |
| `EndToEnd.CanDeliverLate` | solcomapi/src/SolConnServer.cpp:160-219 | everything sent on an old connection can still arrive there and is decoded as in one piece |
| `UnionFind.CompressKeepsRoots` | trivials/union_find_trivial.cpp:14-17 | path compression moves nobody's root and creates no cycle |
| `UnionFind.LinkMerges` | trivials/union_find_trivial.cpp:18-21 | hanging one root under another merges exactly the two classes |
| `UnionFind.ConnectedContains` | trivials/union_find_trivial.cpp:18-21 | the reference connectivity contains every united pair |
| `UnionFind.ConnectedIsLeast` | trivials/union_find_trivial.cpp:18-21 | the reference connectivity is below every equivalence that contains the united pairs |
| `UnionFind.ConnectedIsEquivalence` | trivials/union_find_trivial.cpp:18-21 | the reference connectivity is an equivalence |
| `UnionFind.UnionFindSet.constructor` | trivials/union_find_trivial.cpp:8-13 | starts with every element alone |
| `UnionFind.UnionFindSet.Find` | trivials/union_find_trivial.cpp:14-17 | terminates, returns the root, and over every run keeps all roots and the partition |
| `UnionFind.UnionFindSet.UnionVal` | trivials/union_find_trivial.cpp:18-21 | whichever inner `find` runs first, the classes become the components with one more pair, and the first argument's root survives |
| `StockIndex.StockPrefixTree.Find` | trivials/stock_tree_trivial.cpp:43-54 | true exactly for non-empty inserted codes |
| `StockIndex.StockPrefixTree.Insert` | trivials/stock_tree_trivial.cpp:55-73 | adds the code, nothing for the empty string, and keeps every other code and node |
| `StockIndex.ValueInjective` | trivials/stock_tree_trivial.cpp:97 | codes of one length have the same decimal value only when equal |
| `StockIndex.StockIndexes.Insert` | trivials/stock_tree_trivial.cpp:92-98 | the three indexes stay in agreement and every table index is in range |
| `StockIndex.StockIndexes.Lookup` | trivials/stock_tree_trivial.cpp:111-142 | trie, map and table give the same answer for every six-digit code |
| `Sorting.RearrangedIsPermutation` | test/quickSort.cpp:20-22 | a run of exchanges inside a range preserves the multiset and everything outside |
| `Sorting.Partition` | test/quickSort.cpp:12-22 | the pivot ends between no-larger and no-smaller elements, the range only rearranged |
| `Sorting.QuickSort` | test/quickSort.cpp:8-26 | the range ends sorted and is a rearrangement of itself |
| `Sorting.TopKHelper` | test/topk.cpp:6-26 | everything up to the position is at most everything after it, the range only rearranged |
| `Sorting.TopK` | test/topk.cpp:28-37 | the result is the first k elements, none above any other, and the vector keeps its multiset |
| `Sessions.SeatsAgree` | StragetyDeployer/DispatcherService.cpp:107-226 | after any run cache, login flag, router and time stamp of every manager are those told from the events alone |
| `Sessions.SingleLoginPoint` | StragetyDeployer/DispatcherService.cpp:97-179 | after any run a message reaches its handler if and only if its identity was in the latest refresh and its router holds the session, or nobody does and it is a login or keep-alive; the error id of the answer in the same terms |
| `Sessions.LoginHolds` | StragetyDeployer/DispatcherService.cpp:538-551 | after an accepted login its router gets through with anything and every other router is refused as a second login |
| `Sessions.LogoutFrees` | StragetyDeployer/DispatcherService.cpp:559-582 | after an accepted logout every router can log in, and nothing but login and keep-alive gets through |
| `Sessions.LoopIsRun` | StragetyDeployer/DispatcherService.cpp:49-192 | the loop does what the refreshes, timer expiries and messages of its turns do one after the other |
| `Sessions.TimerArmed` | StragetyDeployer/DispatcherService.cpp:51-66 | at every turn of every run the timer is due within its period |
| `Sessions.KeepAliveBound` | StragetyDeployer/DispatcherService.cpp:51-66 | a session silent while it lasts is logged out by the timer in less than 70 s, two turns and the reading delay after its last accepted message |
| `Sessions.KeepAliveBoundIsTight` | StragetyDeployer/DispatcherService.cpp:51-66 | for all turn lengths and delays a run meets the hypotheses of the bound and expires at the last moment it allows |
| `Sessions.AttentiveNeverExpires` | StragetyDeployer/DispatcherService.cpp:177-226 | while a message of the session is still to come within a minute of its last one, no turn of the run expires it |
| `Sessions.DispatcherService.UpdManagerCache` | StragetyDeployer/DispatcherService.cpp:41-46 | the loop over the rows leaves exactly their names cached |
| `Sessions.DispatcherService.KaTimeHandle` | StragetyDeployer/DispatcherService.cpp:214-238 | expires exactly the clients silent for more than a minute and addresses a keep-alive to all the others |
| `Sessions.DispatcherService.OnReceive` | StragetyDeployer/DispatcherService.cpp:107-179 | the checks, session updates and error ids on the object are those of the run theorems |
| `Requests.DispatcherManager.ReqLogin` | StragetyDeployer/DispatcherManager.cpp:36-54 | error codes, and exactly the login frames with only the last one marked; all parts sent stay the messages of the accepted requests |
| `Requests.DispatcherManager.ReqLogout` | StragetyDeployer/DispatcherManager.cpp:56-69 | error code, and exactly the logout frames with only the last one marked |
| `Requests.DispatcherManager.ReqByColumnFilter` | StragetyDeployer/DispatcherManager.cpp:71-113 | for any number of filters, none included, the frames of the request with only the last one marked |
| `Requests.DispatcherManager.ReqByObjects` | StragetyDeployer/DispatcherManager.h:72-93 | refuses an empty vector, otherwise the frames of the request with only the last one marked |
| `Requests.DispatcherManager.AnswerKeepAlive` | StragetyDeployer/DispatcherManager.cpp:372-388 | the keep-alive answer, which has no request id |
| `Requests.StreamAssembles` | StragetyDeployer/AsyncZmqApi.cpp:102-110 | parts sent one message after another assemble to those messages |
| `Requests.FiltersRoundTrip` | StragetyDeployer/DispatcherService.cpp:264-274 | name and value frames read in pairs give the filters back |
| `Requests.RequestRoundTrip` | StragetyDeployer/DispatcherService.cpp:91-190 | every request with an existing table is served with all its content or refused with its own request id, in any session state |
| `Polling.FiltersTake` | StragetyDeployer/DispatcherService.cpp:264-274 | the filter loop in closed form: the frames it takes and the messages it leaves, or that it waits, from the numbers of frames alone |
| `Polling.OneTurn` | StragetyDeployer/DispatcherService.cpp:91-190 | how many messages any turn takes: those holding the frames read unasked, and for unpaired filters all up to the next one of odd length |
| `Polling.WholeMessage` | StragetyDeployer/DispatcherService.cpp:91-190 | a turn ends with its own message, leaving all others, if and only if the message can be dealt with from its own frames, and then with that outcome |
| `Polling.ColumnTurn` | StragetyDeployer/DispatcherService.cpp:254-360 | what becomes of any accepted by-column request with any frames for filters and any messages behind it |
| `Polling.TableMustExist` | StragetyDeployer/DispatcherService.cpp:276 | an accepted by-column request is served, whatever is behind it, exactly when its table exists; otherwise the turn has no defined outcome |
| `Polling.RefusalSizes` | StragetyDeployer/DispatcherService.cpp:108-175 | when a refusal finds a request id, which bytes it takes, and which frame sizes fail |
| `Polling.ObjectsFit` | StragetyDeployer/DispatcherService.h:154-169 | objects served have exactly the size of their struct, cut from frames at least as long; a shorter one has no defined outcome |
| `Polling.RouterSocket.RecvPodObject` | StragetyDeployer/DispatcherService.h:147-153 | the next frame as an `int`, from the next message if need be; another size fails the assertion |
| `Polling.RouterSocket.RecvFilters` | StragetyDeployer/DispatcherService.cpp:264-274 | the pair-reading loop on the socket is the reading of the closed form |
| `Polling.RouterSocket.RecvVecObject` | StragetyDeployer/DispatcherService.h:154-169 | one object per remaining frame, exactly when none is too short |
| `Polling.RouterSocket.SkipRemainMFrame` | StragetyDeployer/DispatcherService.cpp:596-608 | nothing of the current message is left, and no other message is touched |
| `Polling.OnRecvCmd` | StragetyDeployer/DispatcherService.cpp:240-526 | reads the body of every command as the turn theorems say, across message boundaries |
| `Polling.PollOnce` | StragetyDeployer/DispatcherService.cpp:91-190 | for every socket and session state the outcome, the socket and the sessions after the turn, or why it does not end |
| `PollLoop.BeginTurn` | StragetyDeployer/DispatcherService.cpp:54-66 | refresh before timer, and the timer set again, as in the loop of the keep-alive theorems |
| `PollLoop.PollFunc` | StragetyDeployer/DispatcherService.cpp:49-192 | over any turns with refreshes, timer expiries and encoded requests each turn takes exactly its message, and its outcome is the one owed as cache, sessions and timer then stand |
| `PollLoop.OutcomesDecided` | StragetyDeployer/DispatcherService.cpp:49-192 | every outcome of a loop from its start is decided by the refreshes, timer expiries and messages before it, with the reason of a refusal |
| `PollLoop.ServeClients` | StragetyDeployer/DispatcherService.cpp:49-192 | whatever calls any number of clients made, their parts assemble, arrive in any order between refreshes and timer expiries, and every request is served or refused as it was made |
| `Responses.RspRoundTrip` | StragetyDeployer/DispatcherManager.cpp:230-231 | a response struct copied to bytes and back is unchanged |
| `Responses.BindSocket.SendQueryResult` | StragetyDeployer/DispatcherService.h:171-206 | router, pattern, response, element type and one part per element, only the last one marked; all parts sent stay the messages of the replies |
| `Responses.BindSocket.SendBare` | StragetyDeployer/DispatcherService.cpp:552-556 | router, pattern and response, only the last one marked |
| `Responses.BindSocket.SendPush` | StragetyDeployer/DispatcherService.cpp:227-234 | router, pattern and command, only the last one marked |
| `Responses.BoundaryExactly` | StragetyDeployer/DispatcherManager.cpp:214-305 | for any frames the automaton is at its start if and only if the last frame ended a message |
| `Responses.AutomatonFollows` | StragetyDeployer/DispatcherManager.cpp:214-305 | every sequence of server messages causes exactly its callbacks, in order |
| `Responses.ClientHears` | StragetyDeployer/DispatcherManager.cpp:214-305 | whatever the server sends to whom, the parts assemble, and each client makes exactly the callbacks of the messages addressed to it, in order |
| `Responses.QueryCallbacks` | StragetyDeployer/DispatcherManager.cpp:341-370 | n element callbacks with only the final one marked last, or one empty one when n is 0 |
| `Responses.OtherElements` | StragetyDeployer/DispatcherManager.cpp:341-370 | elements of anything but a query on a known table cause no callback |
| `Responses.BareCallbacks` | StragetyDeployer/DispatcherManager.cpp:307-339 | the callback of a plain response for every command number |
| `Responses.PushCallbacks` | StragetyDeployer/DispatcherManager.cpp:372-388 | a keep-alive push is answered once, any other push not at all |
| `Responses.LongPush` | StragetyDeployer/DispatcherManager.cpp:255-305 | a push with more than its command is read to its end without a callback |
| `Responses.KeepAliveRenews` | StragetyDeployer/DispatcherManager.cpp:372-388 | push, answer and acceptance close the loop: the session is renewed to the time the answer is read |
| `Responses.RefusalReturns` | StragetyDeployer/DispatcherService.cpp:107-175 | a refused request makes its sender's automaton call exactly the callback of that request, with its request id and error 2, 3 or 4 by cache and session |
| `Responses.ResponseHandler.RecvHandle` | StragetyDeployer/DispatcherManager.cpp:214-305 | the handler on the object is the step of the automaton theorems |
| `ManagerCache.StepInv` | StragetyDeployer/DispatcherService.h:234-287 | every atomic step keeps: a refresh is due, or the poll thread's view is the table |
| `ManagerCache.CacheCoherence` | StragetyDeployer/DispatcherService.cpp:34-58 | in every interleaving of atomic batches the cached set is the table whenever flag, workers and poller are quiet |
| `ManagerCache.RefreshCatchesUp` | StragetyDeployer/DispatcherService.cpp:34-47 | taking the flag, querying and inserting rows in any order leaves the cache equal to the table |
| `ManagerCache.CanSettle` | StragetyDeployer/DispatcherService.cpp:34-58 | every state that keeps the invariant can come to rest with the cache equal to the table |
| `ManagerCache.ChangeArrives` | StragetyDeployer/DispatcherService.h:207-313 | a successful insert, deletion or update can reach the cache |
| `ManagerCache.FailedInsertIsOver` | StragetyDeployer/DispatcherService.h:248-252 | an insert that fails outright changes nothing |
| `ManagerCache.FillRebuilds` | StragetyDeployer/DispatcherService.cpp:41-46 | rows in any order and with repetitions rebuild exactly the set that was read |
| `ManagerCache.SafeExactly` | StragetyDeployer/DispatcherService.cpp:49-58 | all continuations are coherent when quiet if and only if a refresh is due or the poll thread's view is the table |
| `ManagerCache.PartialFailExactly` | StragetyDeployer/dbopmacros.h:97-129 | after an insert that fails in part all continuations are coherent if and only if a refresh was due or the table matches the view |
| `ManagerCache.PartialFailReachesStaleCache` | StragetyDeployer/DispatcherService.cpp:419-425 | for every table with a manager in it and every larger one: announcement, the refresh it causes, and the insert that fails in part end quiet with the old names cached and the new ones in the table |
| `ManagerCache.StaysStale` | StragetyDeployer/DispatcherService.h:234-260 | the wrong cache stays through every run in which no insert is announced and no batch succeeds |
| `Dispatcher.StepInv` | StragetyDeployer/DispatcherService.cpp:49-192 | messages, timer, workers and refreshes keep flag protocol, sessions and the shared cache in line |
| `Dispatcher.EventsRun` | StragetyDeployer/DispatcherService.cpp:49-192 | in every run the sessions are those of the messages, timer expiries and cache changes handled |
| `Dispatcher.TableDecides` | StragetyDeployer/DispatcherService.cpp:34-179 | in every quiet state of every run without a partly failed insert a message is let through and answered as the database and the events so far say |
| `Dispatcher.RefusedThoughInTable` | StragetyDeployer/DispatcherService.cpp:411-425 | a run from the start after which managers are in the database and every message of theirs is refused |
| `ThreadPool.StepInv` | StragetyDeployer/FixedThreaPool.h:49-93 | every step keeps queue order, job balance, idle counter and the shutdown bound |
| `ThreadPool.PoolSafety` | StragetyDeployer/FixedThreaPool.h:31-93 | in every interleaving jobs leave in order and once, accepted is queued plus held plus finished, the idle counter is within the thread count, and at most that many jobs are called after the stop flag |
| `ThreadPool.NothingLost` | StragetyDeployer/FixedThreaPool.h:71-91 | in every interleaving the jobs in the pool or on their way into it are exactly those submitted before the stop flag |
| `ThreadPool.EnqueueAppends` | StragetyDeployer/FixedThreaPool.h:85-90 | a submitter past the stop test puts its job at the end of the queue |
| `ThreadPool.CanDrain` | StragetyDeployer/FixedThreaPool.h:49-69 | before the stop flag any worker can work off the whole queue |
| `ThreadPool.CanExit` | StragetyDeployer/FixedThreaPool.h:49-69 | after it every worker can come to its end with at most one more job |
| `ThreadPool.WorkerServes` | StragetyDeployer/FixedThreaPool.h:53-67 | a waiting worker takes the oldest job, finishes it and is idle again |
| `ThreadPool.LateCallHappens` | StragetyDeployer/FixedThreaPool.h:40-47 | a worker already waiting when the flag is set still calls one job |

## Left out

- `SolcomApi` as an object: `SendPump` and `EndToEnd` model its callbacks, which run on two threads, as steps on values; the in-place writes to a slot are in `CByteArray.EncodeInto`, those to the ring in the class `CachedBuffer`, and heartbeats are posts like any other.
- Bodies shorter than their command: `Deserialize` then reads bytes left in the buffer; framing and order are proved for them, field content is not.
- Server-side `SolConnClient::postMsg`, `WeventCtl` and `writeHandle`: the busy flag is tested and set without a lock.
- Client bookkeeping of `SolConnServer`: the client map, key strings, the idle timer and deletion.
- Reconnect timing in `idle_cb`, the unused acknowledgement buffers, `currentForward`, `back` and `TailIntercept`.
- `m_tLastWrite`: stored and never read.
- SQL text, the table queries themselves and failing reads of `updManagerCache`.
- What follows a failed assertion, a copy past a frame or a lookup past the table names: all three end a turn as `Broken`; without assertions a frame of the wrong size would be copied instead.
- Sessions while a turn waits inside a message: claims about sessions are made for turns that come to their end.
- The fixed 64-byte text buffers in which filters become SQL.
- Routing of worker replies: they use the client's router at reply time, so nothing is claimed about the original requester.
- `TDeploy`, `TExecute`, `TFinish`: the server skips them and so does the model.
- Termination of the pool's shutdown: the stop flag is set without the lock, so a wake-up can be missed.
- Freeing of trie nodes and the stored copy of each code; a flag stands for the copy.
- `anet`, `boostAsioTest`, the shared-memory samples and the remaining small programs.
