# ethereyum in Dafny

ethereyum is a JSON-RPC client for Ethereum nodes. This project models its windowed block and
transaction streams, its request/response protocol with timeouts, its futures, its subscription
streams, its locks and worker pool, and its ABI string decoder, and proves what callers rely on
for every run, every schedule of answers and every interleaving of threads.

| file | content |
|---|---|
| `Prelude.dfy`, `InFlight.dfy` | results, polls, errors; queues of in-flight requests, as both streams keep them |
| `BlockWindow.dfy`, `BlockStream.dfy` | the block stream's window as values, and the stream as a class proved against it |
| `BlockRuns.dfy`, `BlockTheorems.dfy`, `BlockTermination.dfy` | whole runs: conservation, completeness, refill count, repairs, termination, fairness |
| `TransactionStream.dfy` | the transaction stream: window, class, whole runs |
| `Responses.dfy`, `Registry.dfy` | decoding of frames; the table of pending requests and how messages resolve it |
| `Protocol.dfy`, `ProtocolTheorems.dfy` | the protocol as a state machine, one action per lock-protected region |
| `ClientActions.dfy`, `Client.dfy` | each call of the client as a sequence of the protocol's actions; the calls as methods |
| `StreamOverClient.dfy` | the block stream over the futures of its batch calls and the protocol underneath |
| `Futures.dfy`, `BatchCorrectness.dfy` | single, batch and mapped futures; a batch from the wire to the caller |
| `Pubsub.dfy` | subscription streams and the routing of notifications |
| `Locks.dfy`, `WorkerPool.dfy` | lock usage of all threads; the shared pool of socket workers |
| `AbiString.dfy` | hexadecimal, UTF-8 validity, the ABI `string` encoding and the decoder |

`dafny verify dfyconfig.toml` checks everything.

## How the model reads the code

- Time, readiness of futures, server answers and the result of a send are inputs of each step; theorems
  quantify over all of them. Each queued future has its own clock reading.
- A poll of a stream pops one request; block numbers are 256-bit and are cut to 64 bits where the code
  does so. A stream may be opened on any two numbers with any options; `Wraps` says when the next poll would
  leave 64-bit arithmetic, and `Poll` is specified for the polls that stay inside. `WrapsExactly` says which
  openings never get there, and what happens to the others. `Run` goes on past a wrap in unbounded arithmetic:
  theorems about runs speak of the code as long as `InRange` holds, and those that promise an end of stream
  assume it or prove it.
- Threads interleave freely between actions. An action is one atomic operation or one lock-protected
  region, except that a batch call registers its requests one by one, which allows more interleavings than
  the lock it holds. The timestamp lock held during a scan shows as `Stamp` being disabled meanwhile.
- The cells read by one poll of a batch may be read at different moments of a run.
- Findings kept as the code has them: a capacity of one or two stalls on all but tiny ranges and the stream
  never ends (`EndsExactlyWhenItProgresses`, `EndIsReachableExactly`); every interior refill boundary is requested, and yielded,
  twice (`ForwardRequests`, `LossFreeRun`); a range that ends at the largest 64-bit number cannot be
  streamed to its end (`WrapsExactly`); the sweep prunes timestamps by request id, so the records of requests
  it timed out stay, and a request recorded at a second equal to the id of a timed-out request is forgotten
  and can never time out (`TimeoutIsComplete`, `ForgottenExactlyByPrune`, `ForgottenNeverTimesOut`,
  `RememberedAboveIds`, with `CollisionDefeatsTimeout` for runs in which it happens); a request whose send
  failed stays in the table (`Client.Request`); the HTTP fallback takes a notification for the response to
  the pending request of the same number, and goes wrong in no other case (`HttpAgreesExactly`); a string
  longer than 32 bytes loses its front (`LongStringsLoseTheirFront`).

## Model

| member | source | states |
|---|---|---|
| BlockStreams.BlockStream.constructor | src/client/stream.rs:28-40 | for any two numbers the stream has capacity 50, nothing queued, nothing completed; it is in shape unless its first poll wraps |
| BlockStreams.BlockStream.WithOptions | src/client/stream.rs:42-61 | for any numbers and options the capacity is the product of the options; the stream is in shape unless its first poll wraps |
| BlockStreams.BlockStream.Enqueue | src/client/stream.rs:102-105 | one request per number is appended in order, each with its own clock reading |
| BlockStreams.BlockStream.Next | src/client/stream.rs:83-132 | in each of the four phases the window, `from` and the popped request are those of the specification, for every poll whose arithmetic does not wrap |
| BlockStreams.BlockStream.Poll | src/client/stream.rs:162-184 | the new window and the result, for a block, a null, an error, a young and an expired pending future, and end of stream, for every poll whose arithmetic does not wrap; spelled out, a block is handed over, an error is returned, anything else is not ready, and the end is reported exactly when nothing is left and every number is completed |
| BlockRuns.OutcomesAreLogged | src/client/stream.rs:162-184 | the blocks, errors and ends of a run's history are exactly what its polls returned, in order |
| BlockWindow.SpanMembers | src/ops/block.rs:58-68 | the requested range is inclusive at both ends |
| BlockWindow.MissingMembers | src/client/stream.rs:87-94 | a repair asks for exactly the numbers of the range that were never completed |
| BlockWindow.MissingCount | src/client/stream.rs:87-94 | a repair asks for each of them once |
| BlockRuns.InvRun | src/client/stream.rs:83-184 | over every run: every requested number is queued, served or lost with multiplicity, `completed` is what was yielded, repairs follow the forward phase |
| BlockTheorems.EndOfStreamIsComplete | src/client/stream.rs:85-107 | end of stream is reported if and only if nothing is in flight and every number of the range is the low 64 bits of some yielded block's number, whatever the server sent |
| BlockTheorems.EndIsFinal | src/client/stream.rs:85-97 | after end of stream every further poll reports it again and changes nothing |
| BlockTheorems.QueueBounds | src/client/stream.rs:67-77 | queue at most the capacity in the forward phase, even before the pop, and at most the range in repair; a refill always has room for the one it subtracts |
| BlockTheorems.RefillMovesOneStride | src/client/stream.rs:111-129 | in every run every refill starts at its boundary and advances to the next, or to the end; from the second on it happens at exactly half capacity |
| BlockTheorems.RefillsDoNotDependOnSchedule | src/client/stream.rs:108-131 | every schedule that leaves the forward phase did the closed-form number of refills, at strictly increasing boundaries; none does more |
| BlockTheorems.ForwardRequests | src/client/stream.rs:117-130 | refills request every number of the span once and every interior boundary once more: distance plus refills in all |
| BlockTermination.RepairsNeverOutnumberLosses | src/client/stream.rs:98-106 | with a server that answers n with block n, repair requests are at most the lost futures, plus one for a one-block range |
| BlockTermination.EndsExactlyWhenItProgresses | src/client/stream.rs:83-184 | for every run whose polls stay in range: with such a server, a run longer than range, refills, losses and waits together has ended, if capacity and range let the window progress and the range stops short of the largest number; otherwise it has not ended, whatever the server does |
| BlockTermination.EndIsReachableExactly | src/client/stream.rs:67-184 | some schedule ends the stream with its polls in range if and only if the opening never wraps and the window progresses |
| BlockTermination.IdealServerIsFaultless | src/client/stream.rs:162-184 | answering every popped request at once with its own block is an unending schedule without any fault |
| BlockTermination.FiniteFaultsReachTheEnd | src/client/stream.rs:83-184 | for an opening that never wraps, an unending schedule with such a server and finitely many losses and waits reaches end of stream, in range and with every block yielded, after a number of polls known beforehand |
| BlockTermination.StallsForEver | src/client/stream.rs:117-129 | with capacity one or two `from` never passes the first or second block |
| BlockTermination.WrapsExactly | src/client/stream.rs:67-130 | exactly the sound openings that do not end at the largest number, or that stall before it, never wrap; crossed ranges and missing or overflowing capacities wrap at the first poll; a progressing range that ends at the largest number has wrapped within the usual bound |
| BlockTermination.MaximumIsNeverReached | src/ops/block.rs:58-68 | on such a range no run whose polls stay in range advances to the last number or ends |
| BlockTermination.LossFreeRun | src/client/stream.rs:83-184 | without losses no repair is issued, and the blocks yielded are each of the range once and each interior boundary once more |
| BlockTermination.RotationIsFair | src/client/stream.rs:106-181 | the request at position i is popped by exactly the (i+1)-th later poll, across refills and push-backs, and is queued again exactly when not ready and under five seconds old |
| TransactionStreams.TransactionStream.Refill | src/client/streaming/transaction.rs:69-84 | hashes move from the list to the queue in order |
| TransactionStreams.TransactionStream.Next | src/client/streaming/transaction.rs:57-87 | the popped request and what is left, in each of the four branches; a refill fills the queue or empties the list |
| TransactionStreams.TransactionStream.Poll | src/client/streaming/transaction.rs:117-137 | the new window and the result, for every answer; spelled out, the transaction handed over, the error returned, or not ready |
| TransactionStreams.OutcomesAreLogged | src/client/streaming/transaction.rs:117-137 | the transactions, errors and ends of a run's history are exactly what its polls returned, in order |
| TransactionStreams.RequeuesWhileYoung | src/client/streaming/transaction.rs:129-132 | a request that is not ready is queued again exactly while under five seconds old |
| TransactionStreams.StreamConserves | src/client/streaming/transaction.rs:57-137 | the list is always the requested hashes in order followed by the rest; every requested hash is queued, delivered or lost; deliveries and losses keep the order of the pops; the queue stays below the capacity, and at half of it or more while hashes are left |
| TransactionStreams.EndOfStream | src/client/streaming/transaction.rs:57-137 | at the end everything was delivered or lost; if nothing had to wait, what is delivered is a subsequence of the input whatever was lost, and the input itself if nothing was; more polls than hashes and waits means the stream has ended |
| Responses.BatchDecoding | src/client/mod.rs:632-679 | a batch decodes if and only if every id is numeric; each response has its output's own id and its result or reason, in order |
| Registry.DecodesExactly | src/client/mod.rs:599-679 | which frames decode, with which error the others fail, and what a notification decodes to |
| Registry.FrameSettles | src/client/mod.rs:531-679 | from the frame to the table, by socket and by HTTP: a pending request gets the result or the reason of the first output with its own id, and nothing else changes |
| Responses.NotificationsComeAlone | src/client/mod.rs:599-630 | a decoded frame holds a notification exactly when it is a text frame that is not a response; control frames are the ones the code panics on |
| Registry.DeliverPointwise | src/client/mod.rs:531-556 | a pending id that is answered leaves the table with its first answer; nothing else changes |
| Registry.DeliverSplit | src/client/mod.rs:531-556 | splitting a message into several makes no difference |
| Registry.OrderIsIrrelevant | src/client/mod.rs:531-556 | with distinct ids, any permutation of a message gives the same table and outcomes |
| Registry.ReplayIsIdle | src/client/mod.rs:543-553 | replaying all or part of a handled message changes nothing |
| Registry.HttpAgreesExactly | src/client/mod.rs:219-238 | the HTTP fallback and the socket reader leave the same table for every decoded frame and table if and only if the frame is not a notification whose subscription id is a pending request id; in that case the request gets the notification's payload |
| Protocol.InvReached | src/client/mod.rs:126-235 | lifecycle, first answer, timestamp and sweep invariants in every reachable state |
| ProtocolTheorems.RequestLifecycle | src/client/mod.rs:132-148 | a registered id is pending or resolved, never both; a response to a sent id is unknown only if that id is resolved; ids are never reused |
| ProtocolTheorems.FateIsFinal | src/client/mod.rs:222-235 | a oneshot is fulfilled at most once: no continuation changes the winner of the race between response, timeout and drop |
| ProtocolTheorems.DropCancelsThePending | src/client/mod.rs:359-364 | after the drop nothing is pending; what was stays cancelled, and what was resolved stays so, in every continuation |
| ProtocolTheorems.TimeoutIsSound | src/client/mod.rs:317-341 | only recorded requests time out, and none recorded under ten seconds before the sweep; no request of a batch ever times out |
| ProtocolTheorems.TimeoutIsComplete | src/client/mod.rs:317-341 | after a scan a request recorded ten seconds or more before it is still pending only if its record is gone, despite interleaved responses and requests; never if ids are still below its second |
| ProtocolTheorems.SweepFindsExactlyTheRemembered | src/client/mod.rs:320-335 | a sweep has a due request on its list if and only if its record is not gone |
| ProtocolTheorems.ForgottenExactlyByPrune | src/client/mod.rs:336-338 | an action makes a record disappear if and only if it prunes an id equal to the second of the record |
| ProtocolTheorems.ForgottenNeverTimesOut | src/client/mod.rs:326-338 | in no continuation does a request whose record is gone get its record back or time out |
| ProtocolTheorems.RememberedAboveIds | src/client/mod.rs:138-138 | a record disappears only if its second is the id of a request that timed out; recorded at a second no id has reached, it is still there |
| ProtocolTheorems.CollisionDefeatsTimeout | src/client/mod.rs:328-338 | for every second n from 1 on, a run in which the request recorded at second n is pending with its record gone |
| Clients.Client.NextId | src/client/mod.rs:205-207 | ids are consecutive |
| Clients.Client.Request | src/client/mod.rs:126-149 | one fresh id enters the table and the current second's list; the future waits for it or carries the send error; undisturbed, the client goes where TakeId, Insert, Stamp and, if it was sent, Send lead |
| Clients.Client.BatchRequest | src/client/mod.rs:151-188 | fresh ids in request order, all pending, none recorded for the timeout, each future with its own decoder or all with the send error; undisturbed, the client goes where the Inserts and the Send lead |
| Clients.Client.Dispatch | src/client/mod.rs:531-556 | the reader resolves the table as specified and appends each notification to the channel registered for it, in order; to the protocol it is one Receive |
| Clients.Client.OnMessage | src/client/mod.rs:525-556 | the same from the frame on; a frame that does not decode changes nothing, and a notification reaches its channel and no request |
| Clients.Client.DispatchHttp | src/client/mod.rs:221-235 | the HTTP reply resolves the table with every response, notifications included; to the protocol it is one Receive |
| Clients.Client.Sweep | src/client/mod.rs:320-339 | all due and pending requests time out, no others; timestamps lose exactly the keys equal to an id timed out; undisturbed, the client goes where SweepBegin, some SweepOnes, SweepEnd and Prunes lead |
| ClientActions.SweepRuns | src/client/mod.rs:320-339 | from every resting reachable state there is such a sequence of enabled actions, and it leads to the same table and timestamps |
| ClientActions.RequestRuns | src/client/mod.rs:126-149 | from every reachable state outside a scan the four actions are enabled in turn, and what they lead to |
| ClientActions.BatchRuns | src/client/mod.rs:151-188 | likewise for a batch, in every reachable state |
| Clients.Client.Drop | src/client/mod.rs:359-364 | everything pending is cancelled and nothing is left pending; to the protocol it is DropClient |
| ClientActions.ScanOrderIsIrrelevant | src/client/mod.rs:323-335 | the table a scan ends in does not depend on the order the map is iterated in |
| Futures.YumFuture.Poll | src/client/result.rs:27-73 | the new state and result of one poll, for every state and cell: the decoded value, the decoder's error, the delivered error, the cancellation, or what the future was created with |
| Futures.ResolvesAtMostOnce | src/client/result.rs:27-73 | over an infinite sequence of polls a future resolves at most once, to its decoder's result or error, the delivered or stored error, or a cancellation, and is not ready ever after |
| Futures.ResolvesAtTheFirstReading | src/client/result.rs:27-73 | the first poll with anything to report resolves the future, to just that |
| Futures.YumBatchFuture.Poll | src/client/result.rs:88-105 | elements are polled in order, the first error ends the batch, results come in index order |
| Futures.PassInOrder | src/client/result.rs:96-101 | a pass advances every element by its own cell, or reports the error of the first element that fails |
| Futures.YumBatchFutureT.Poll | src/client/result.rs:121-139 | the mapped batch polls its batch only while that is unresolved and applies its operation to the values |
| Futures.MappedResolvesAtMostOnce | src/client/result.rs:121-139 | a mapped batch may be polled without end, resolves at most once and never polls a resolved batch |
| BatchCorrectness.BatchResolvesCorrectly | src/client/mod.rs:151-188 | for any interleaving, splitting, reordering, duplication and noise, a resolved batch has one value per request, each its decoder applied to the first response with that id since registration; a failed one has the error one of them ended with: the answered error, the decoder's, the timeout's or the cancellation |
| BatchCorrectness.ResolvedBatchIsReady | src/client/result.rs:88-105 | once every request of a batch is resolved the next poll resolves the batch, to values if and only if every decoder accepts its answer |
| BatchCorrectness.MappedResolvesCorrectly | src/client/result.rs:121-139 | a mapped batch resolves to its operation on those same values, or fails as the batch does |
| StreamOverClient.ResultsComeFromTheWire | src/client/stream.rs:98-184 | whatever the server sends, every block a stream yields is one a request of its own was answered with, and every error it returns is one a request of its own ended with, or that of a call not sent |
| StreamOverClient.LearnsFromItsFuture | src/client/stream.rs:164-181 | what a poll learns from the popped future, for every state of its oneshot |
| StreamOverClient.RightAnswersMakeAnHonestRun | src/client/stream.rs:98-184 | over the futures of its batch calls, read at any moments of any run of the protocol: if the first response to each id holds the block asked for, the stream's run is that of an honest server, and it ends with every block yielded as such runs do |
| Pubsub.Subscriptions.Notify | src/client/mod.rs:536-541 | a notification reaches exactly the channel registered for its id, or nobody |
| Pubsub.PubsubStream.Poll | src/client/streaming/pubsub.rs:60-89 | state, result and registration of one poll, including the failed subscription, whose error is returned and which counts as subscribed |
| Pubsub.SubscribesExactly | src/client/streaming/pubsub.rs:62-75 | the first poll that finds the subscription resolved registers the very id it resolved to, and what is yielded is a prefix of the decodable notifications for that id after it; if the subscription failed, that poll returns the error and nothing is ever registered or yielded |
| Pubsub.WaitsForItsId | src/client/streaming/pubsub.rs:69-72 | until then the stream is as it was opened |
| Pubsub.YieldsAPrefix | src/client/streaming/pubsub.rs:60-89 | the sender is taken at most once and is always there; items yielded are in order a prefix of the decodable notifications for the id since registration, and nothing is missing unless another stream took the id |
| Locks.NoWaitCycle | src/client/mod.rs:122-338 | no reachable state has a cycle of waiting threads |
| Locks.MutualExclusion | src/client/mod.rs:122-338 | no two threads are inside the same lock |
| Locks.NestingHappens | src/client/mod.rs:317-338 | the nested locks and the wait for a socket thread are really reached |
| Locks.NoDeadlock | src/client/mod.rs:122-338 | whoever is in the middle of an operation waits, through some chain, for a thread that can go on now |
| WorkerPool.PoolConserves | src/client/mod.rs:242-264 | over concurrent sends no worker is lost or duplicated and each message is still carried or was submitted exactly once |
| WorkerPool.ClearedPoolPosts | src/client/mod.rs:359-364 | after the pool is cleared the next message goes out by HTTP |
| WorkerPool.Sender.Send | src/client/mod.rs:242-264 | the effect is that of the pool's pop, submit and push-back: one submission, by the front worker's socket if it is healthy, and then that worker goes to the back; by HTTP otherwise, and then it is gone |
| WorkerPool.Sender.SendRound | src/client/mod.rs:242-250 | as many consecutive sends as healthy workers use each worker exactly once and restore the pool |
| AbiString.FromHex | src/ops/mod.rs:52-56 | the eight-bit shift register computes the paired digits, skipping blanks and rejecting anything else and odd counts |
| AbiString.HexDecodesExactly | src/ops/mod.rs:52-56 | a text decodes to exactly the bytes whose hexadecimal text it is, up to blanks and case |
| AbiString.ValidExactly | src/ops/mod.rs:60-60 | the validity test accepts exactly the UTF-8 encodings of sequences of Unicode scalar values |
| AbiString.HexRoundTrip | src/ops/mod.rs:52-56 | hexadecimal decoding inverts encoding |
| AbiString.Retain | src/ops/mod.rs:59 | the bytes other than NUL, in order |
| AbiString.ContractString | src/ops/mod.rs:48-67 | the whole decoder, with its error cases |
| AbiString.DecodesAnyText | src/ops/mod.rs:48-67 | for every text: the last chunk of up to 64 characters after an optional prefix decides; its bytes less the NULs if it is hexadecimal and they are some text in UTF-8, otherwise an error |
| AbiString.DecodeOfEncode | src/ops/mod.rs:48-67 | any encoded string decodes to its last word less NULs if that is valid UTF-8, and to an error otherwise |
| AbiString.DecodeInvertsEncodeExactly | src/ops/mod.rs:48-67 | decoding the ABI encoding of any sequence of scalar values gives it back if and only if it has at most 32 bytes and no NUL |
| AbiString.LongStringsLoseTheirFront | src/ops/mod.rs:48-67 | a longer NUL-free string yields exactly its last ((n-1) mod 32)+1 bytes, or an error |
| AbiString.DecodeOfBytes32 | src/ops/mod.rs:48-67 | the right-padded 32-byte form decodes to the string as well |

## Left out

- src/client/tcp.rs, connecting, reconnecting and stopping socket threads: operating-system sockets and wall-clock loops; only their use of locks is modelled, and a connect attempt is taken to end.
- JSON parsing and serialisation, and the text of error messages: frames are given as parsed, messages as constants.
- Request ids are unbounded; the wrap-around of the counter after 2^64 requests is not modelled.
- The `with_tx` flag and the request parameters do not influence any modelled behaviour.
- Executor wake-ups: properties are about sequences of polls.
- What a release build computes after its arithmetic has wrapped; nothing is claimed about it.
- Ping and Pong frames make the original panic; `HandleFrame` requires that there are none.
- A block without a number makes the original panic; blocks here always have one.
- Polling a batch future again after it resolved makes the original panic; `YumBatchFuture.Poll` requires that it is not done.
- The two waiting variants of a single future differ only in how the decoder is stored and are one variant here.
- AbiString.ContractString: text outside ASCII is rejected as a bad digit; the original slices it unchecked.
- WorkerPool.Sender: the pool is modelled apart from the client's table, and an HTTP post counts as submitted whether or not it is answered.
- Remote prices, token lookups and the one-request wrappers in src/ops and src/yum.rs: they would only add easy members.
