# KwaaiNet: inference transport, sessions, sampling and sharding

A Dafny model of the concurrent and data-path core of the KwaaiNet node, with
proofs about it. `dafny verify dfyconfig.toml` checks everything.

The system has these parts.

* **The inference multiplexer** (`Bytes`, `Frames`, `Varint`, `MuxProtocol`,
  `MuxRuns`, `MuxAnswers`, `MuxHangs`, `MuxClient`). Many callers share one byte
  stream to a remote node. A pending table correlates answers by request id; a writer and a reader task serve the stream and
  may die at any time. The byte layer is imperative code proved against parsers
  given as functions; the protocol is a step system, and its theorems are about
  every run.
* **The local proxy** (`Text`, `Http`, `Utf8`, `HttpRoundTrip`, `ClientSlot`,
  `CircuitBreaker`, `Proxy`, `EndToEnd`). Handlers read HTTP requests from
  arbitrarily chunked connections, share a lazily connected client in a slot guarded by a read-write
  lock, retry once and report one verdict to a per-peer circuit breaker.
* **The gRPC session** (`Session`, `SessionFrames`, `SessionReuse`,
  `SessionForwarder`, `InferenceSlot`). A dispatcher
  fans operations into one output channel, a registry of one-shot
  senders cancels them, and an inference engine is built once and used by one
  request at a time.
* **The sampler** (`Sampler`): temperature, top-k, nucleus and inverse CDF.
* **Sharding** (`WeightSelection`, `BlockRpc`, `Coordinator`, `PinnedPath`): which
  files a range of blocks needs, and what a chain of block servers computes.

A step system is a `State`, a `Step` with `Enabled` and `Apply`, and a `Valid` run
of them; each step is one atomic section between two awaits or lock operations.
Atomics and locks are sequentially consistent.

Where a promised property is false of the code, the code is modelled as it is and
the exact condition is proved:

* The breaker's documentation promises a single half-open probe; the code admits
  every request (`ProbesAreAllArrivals`, `SingleProbeFails`).
* A caller that got past the check of the dead flag can register after a task has
  drained the table. It is then never answered. It waits until its timeout exactly
  when its request is accepted before the writer task ends and no task drains
  again; the other task need not have failed (`StuckIff`, `StuckForGoodIff`,
  `HangIsReachable`, `ParkedWriterHangs`, `ParkedReaderHangs`).
* Bytes after a complete request may or may not end up in its body, depending on
  the chunking (`IndependentIff`, `SurplusDependsOnChunking`).
* An operation can report Cancelled although nobody asked: exactly when another
  operation with its id registers or cleans up while it is registered. Two frames
  with one id can both end that way (`CancelledUnaskedIffClash`,
  `SignalChangesExactlyWhen`, `ReusedIdCancels`, `ReuseAfterDoneCancels`). For the
  client: exactly when it uses an id for two operations (`UnaskedIffIdShared`).
* The cache check passes vacuously when a shard needs no listed file, and on any
  one file when there is no weight map
  (`CachedMeansNothingToFetchIff`, `CachedButFetches`).
* The pinned path is documented as non-overlapping, but a server chosen for a
  position may start before it, and then the blocks in between run twice. The
  exact condition is one on the announcements (`PathOverlapsIff`,
  `PinnedIsRightIff`, `WalksAreRightIff`, `SharedBlockIsRunTwice`).
* The sampler's draw is at most 999999999/4294967295, so candidates beyond
  that mass are never drawn; `EverDrawnIff` says exactly which ones are.

## Model

| member | source | states |
|---|---|---|
| `Frames.WriteFrame` | core/crates/kwaai-cli/src/inference_mux.rs:60-65 | Appends the four little-endian length bytes (length cut to 32 bits) and then the payload, and changes nothing already written |
| `Frames.FrameBytes` | core/crates/kwaai-cli/src/inference_mux.rs:60-65 | For every payload whose length fits in 32 bits, a frame is the four base-256 digits of its length, least significant first, then the payload |
| `Frames.ReadFrame` | core/crates/kwaai-cli/src/inference_mux.rs:67-83 | On any stream: returns the payload of the first frame and leaves the stream at the byte after it, or the one of three errors (length cut short, over 64 MiB, body cut short) that applies |
| `Frames.ReadFrames` | core/crates/kwaai-cli/src/inference_mux.rs:169-176 | The read loop delivers exactly the frames the byte string contains before its first error, in order, and ends with that error |
| `Frames.FrameRoundTrip` | core/crates/kwaai-cli/src/inference_mux.rs:60-83 | A written frame reads back with the following bytes intact if and only if its payload is at most 64 MiB; longer ones are rejected, and past 4 GiB the 32-bit length silently splits them |
| `Frames.ContainedIsLargest` | core/crates/kwaai-cli/src/inference_mux.rs:67-83 | `Contained` is the largest number of leading frames that end at or before a cut |
| `Frames.TruncatedStream` | core/crates/kwaai-cli/src/inference_mux.rs:67-83 | Cut at any byte, a stream of frames yields exactly the fully contained ones and then an error that says whether a length or a body was cut |
| `Frames.StreamRoundTrip` | core/crates/kwaai-cli/src/inference_mux.rs:60-83 | Any sequence of payloads of at most 64 MiB written frame by frame is read back as exactly that sequence |
| `Frames.CutStreamDeliversPrefix` | core/crates/kwaai-cli/src/inference_mux.rs:169-184 | For any message codec with an inverse, a cut byte stream delivers a prefix of the messages written, in order: the wire that the protocol model assumes |
| `Frames.UndecodableIsSkipped` | core/crates/kwaai-cli/src/inference_mux.rs:178-184 | A payload that is not a message is skipped and costs none of the others |
| `Varint.OrAboveIsAdd` | core/crates/kwaai-cli/src/inference_mux.rs:101 | ORing a value shifted above the accumulator's bits is addition |
| `Varint.AccumulatorStep` | core/crates/kwaai-cli/src/inference_mux.rs:95-105 | After each round the shift-and-OR accumulator is the positional base-128 sum of the bytes read, modulo 2^64, and below ten bytes the sum itself |
| `Varint.ReadVarint` | core/crates/kwaai-cli/src/inference_mux.rs:91-109 | On any input the loop ends by break or by an error, and returns the first terminated group of at most ten bytes read as a base-128 number modulo 2^64 |
| `Varint.ReadStreamInfo` | core/crates/kwaai-cli/src/inference_mux.rs:91-117 | On any input: the whole prologue is consumed and nothing after it, or the error names what was cut short or too long |
| `Varint.EncodeIsPositional` | core/crates/kwaai-cli/src/inference_mux.rs:88-91 | The canonical base-128 encoding has the encoded number as its positional sum |
| `Varint.PrologueStopsAtNextByte` | core/crates/kwaai-cli/src/inference_mux.rs:91-117 | For every length below 2^64 in canonical encoding and a body of that length, the reader stops exactly at the byte after the body |
| `Varint.LengthIsExactIffItFits` | core/crates/kwaai-cli/src/inference_mux.rs:95-109 | On every terminated prefix of at most ten bytes, canonical or not, the length read is the one encoded if and only if the tenth byte, where there is one, is at most 1 |
| `Varint.PrologueErrors` | core/crates/kwaai-cli/src/inference_mux.rs:91-117 | Each refusal with its exact cause: the number does not end within the bytes there are, or not within ten, or fewer bytes follow than it says |
| `MuxClient.InferenceMuxClient.constructor` | core/crates/kwaai-cli/src/inference_mux.rs:297-302 | A new object is the client that the protocol's connect step creates |
| `MuxClient.InferenceMuxClient.IsDead` | core/crates/kwaai-cli/src/inference_mux.rs:361-363 | Performs the check step: the caller fails exactly when it reports dead |
| `MuxClient.InferenceMuxClient.TakeId` | core/crates/kwaai-cli/src/inference_mux.rs:365 | Performs the id step, and in every reachable state the id is one no call of the connection ever had |
| `MuxClient.InferenceMuxClient.InsertPending` | core/crates/kwaai-cli/src/inference_mux.rs:366-367 | Performs the registration step: exactly the callers whose senders it displaces are woken, and in every reachable state there are none |
| `MuxClient.InferenceMuxClient.Send` | core/crates/kwaai-cli/src/inference_mux.rs:376-379 | Performs the enqueue step, and refuses exactly when the call fails; in every reachable state the request was nowhere on its way before and is there once after |
| `MuxClient.InferenceMuxClient.Recv` | core/crates/kwaai-cli/src/inference_mux.rs:311-312 | Performs the writer's step: the oldest queued request is the one that goes on the wire |
| `MuxClient.InferenceMuxClient.Route` | core/crates/kwaai-cli/src/inference_mux.rs:341-344 | Performs the delivery step: in every reachable state it finds a sender if and only if an unanswered call of the connection has the response's id, and then that call and no other is answered |
| `MuxClient.InferenceMuxClient.MarkDead` | core/crates/kwaai-cli/src/inference_mux.rs:317 | Performs either task's marking step |
| `MuxClient.InferenceMuxClient.Drain` | core/crates/kwaai-cli/src/inference_mux.rs:318 | Performs either task's drain step: in every reachable state exactly the registered callers of the connection with nothing to return yet are woken |
| `MuxClient.InferenceMuxClient.Close` | core/crates/kwaai-cli/src/inference_mux.rs:309-319 | Performs the exit of the writer task: the channel closes and what it held is lost |
| `MuxProtocol.StepKeeps` | core/crates/kwaai-cli/src/inference_mux.rs:157-388 | Every step of callers, writer, reader and server keeps the invariant: ids name calls one to one, the table holds exactly the registered unanswered calls, no request is duplicated anywhere between caller and upstream, and all that reached a caller was computed for its own id on its own connection |
| `MuxRuns.SendReturnsItsOwnAnswer` | core/crates/kwaai-cli/src/inference_mux.rs:157-247 | In every interleaving over any number of connections, a `send` that returned Ok carries the response the server computed for that same request, and there is exactly one such computation |
| `MuxRuns.ComputedOnce` | core/crates/kwaai-cli/src/inference_mux.rs:186-198 | The server computes each request at most once |
| `MuxRuns.AnswersAreNotShared` | core/crates/kwaai-cli/src/inference_mux.rs:321-348 | Two callers that were answered were answered by different computations or on different connections, also after timeouts |
| `MuxRuns.NothingIsUndone` | core/crates/kwaai-cli/src/inference_mux.rs:304-348 | Along a run death is final, drained tasks stay drained, a woken caller stays woken and a finished `send` keeps its outcome |
| `MuxRuns.ChannelIsBounded` | core/crates/kwaai-cli/src/inference_mux.rs:297 | The channel never holds more than 256 requests |
| `MuxAnswers.DeliveredToItsCaller` | core/crates/kwaai-cli/src/inference_mux.rs:341-344 | In every run the next response fills the one-shot of the registered unanswered call of its connection with its id, and changes no other call |
| `MuxAnswers.ReturnsWhatItGot` | core/crates/kwaai-cli/src/inference_mux.rs:384-387 | A waiting call can return exactly when its one-shot has resolved: with the response that filled it, or with an error if its sender was dropped |
| `MuxAnswers.AnswerIsReachable` | core/crates/kwaai-cli/src/inference_mux.rs:157-388 | For every request and every upstream status and body, some run returns that answer to the caller |
| `MuxRuns.NoRegistrationAfterDeath` | core/crates/kwaai-cli/src/inference_mux.rs:360-367 | A `send` that has not passed its check when the stream dies never takes an id and never registers |
| `MuxRuns.DrainWakesAllRegistered` | core/crates/kwaai-cli/src/inference_mux.rs:317-318 | After either task's drain every caller registered by then has an answer or an error to return, at every later time |
| `MuxHangs.NoAnswerAfterADrain` | core/crates/kwaai-cli/src/inference_mux.rs:304-388 | Once either task has drained, a call that had not registered by then is never answered: without the reader nothing is delivered, and without the writer its request never leaves |
| `MuxHangs.WokenAfterADrainIff` | core/crates/kwaai-cli/src/inference_mux.rs:317-318 | The one-shot of such a call resolves if and only if a task drains after the call has registered, and then with an error |
| `MuxHangs.RefusedOnceWriterExits` | core/crates/kwaai-cli/src/inference_mux.rs:376-379 | Once the writer task has ended, a call whose request is not yet in the channel never waits: it is refused |
| `MuxHangs.StuckIff` | core/crates/kwaai-cli/src/inference_mux.rs:360-388 | A call that had not registered when one of the tasks drained is left waiting, until its timeout, if and only if its request was accepted before the writer task ended and no task has drained since it registered |
| `MuxHangs.WokenIffRegisteredBeforeLastDrain` | core/crates/kwaai-cli/src/inference_mux.rs:304-348 | Once both tasks have drained, a call of that connection has something to return if and only if it had registered before the second drain |
| `MuxHangs.StuckForGoodIff` | core/crates/kwaai-cli/src/inference_mux.rs:360-388 | Of the other calls, exactly those whose requests are accepted between the second drain and the end of the writer task are left waiting until their timeout |
| `MuxRuns.LeftoversCheckedBeforeDeath` | core/crates/kwaai-cli/src/inference_mux.rs:346-367 | Whatever is in the table once the client is dead belongs to callers that had read the dead flag as clear and moved on before it died |
| `MuxHangs.HangIsReachable` | core/crates/kwaai-cli/src/inference_mux.rs:381-387 | A run leads to a caller waiting on a connection both of whose tasks have ended |
| `MuxHangs.ParkedWriterHangs` | core/crates/kwaai-cli/src/inference_mux.rs:309-319 | A run leads to a caller waiting although only the reader has ended: its request was sent and the writer waits for the next one |
| `MuxHangs.ParkedReaderHangs` | core/crates/kwaai-cli/src/inference_mux.rs:325-348 | A run leads to a caller waiting although only the writer has ended: its request was lost with the channel and the reader waits for a response |
| `MuxHangs.LateCallerIsRefused` | core/crates/kwaai-cli/src/inference_mux.rs:376-379 | A run leads to a late caller that is refused at once |
| `ClientSlot.StepKeeps` | core/crates/kwaai-cli/src/inference_mux.rs:442-464 | Every step of every handler keeps the lock discipline, the slot and each handler's record in order |
| `ClientSlot.OneConnectAtATime` | core/crates/kwaai-cli/src/inference_mux.rs:454-463 | While one handler connects, no other handler holds the slot's lock for reading or writing |
| `ClientSlot.SlotChangesOnlyForCause` | core/crates/kwaai-cli/src/inference_mux.rs:442-464 | The slot changes only in a successful connect, which fills an empty or dead slot with the new client, or in the invalidation by a handler whose own send on that very client failed, which empties it |
| `ClientSlot.LiveClientIsKept` | core/crates/kwaai-cli/src/inference_mux.rs:553-562 | A held client that is not dead and on which no send failed is still in the slot at every later time |
| `ClientSlot.DiscardedForGood` | core/crates/kwaai-cli/src/inference_mux.rs:557-562 | A client that has left the slot never returns to it |
| `ClientSlot.OneVerdictPerRequest` | core/crates/kwaai-cli/src/inference_mux.rs:535-573 | Under any interleaving a handler makes at most two sends, reports at most one verdict, success exactly when it relays and failure exactly when it answers 502, and never runs out of attempts without one |
| `ClientSlot.BadGatewayAfterTwoRounds` | core/crates/kwaai-cli/src/inference_mux.rs:536-567 | In every run a handler answers 502 if and only if two of its rounds, connects or sends, have failed; after one it is on its second attempt or about to be |
| `ClientSlot.RetryUsesAnotherClient` | core/crates/kwaai-cli/src/inference_mux.rs:553-562 | The second attempt never sends on the client whose send failed |
| `ClientSlot.VerdictIsFinal` | core/crates/kwaai-cli/src/inference_mux.rs:548-566 | Once a handler has reported, neither its verdict nor its reply changes |
| `Text.ParseOfPrint` | core/crates/kwaai-cli/src/hf.rs:581 | Printing a number in decimal and parsing it gives it back exactly when it fits in 64 bits |
| `Text.ParsesIff` | core/crates/kwaai-cli/src/inference_mux.rs:494 | What parses as a length at all: digits after an optional plus sign, if the number fits in 64 bits |
| `Http.HeaderEndOfPrefix` | core/crates/kwaai-cli/src/inference_mux.rs:478-487 | The blank line found in a prefix of the stream is the one found in the whole stream, or none if it has not fully arrived |
| `Http.TcpStream.Read` | core/crates/kwaai-cli/src/inference_mux.rs:483 | A read returns any non-empty piece the buffer admits, the end of the stream, or (on an unreliable stream) a failure or a timeout |
| `Http.ReadRequest` | core/crates/kwaai-cli/src/inference_mux.rs:474-506 | The two loops buffer a prefix of the stream that some chunking produces and read on until the request is complete or the stream ends; a reliable stream is abandoned exactly when it has no blank line |
| `Http.IndependentIff` | core/crates/kwaai-cli/src/inference_mux.rs:489-506 | The buffered bytes are the same for every chunking if and only if nothing follows what the loops wait for, or that is a body of at least 16383 bytes; a Content-Length whose total wraps past 64 bits makes them wait for no body at all |
| `Http.SurplusDependsOnChunking` | core/crates/kwaai-cli/src/inference_mux.rs:482-503 | With surplus bytes and a shorter body, two chunkings buffer different bytes |
| `Http.ReceiveRequest` | core/crates/kwaai-cli/src/inference_mux.rs:474-533 | A stream that is exactly one complete request is, for every chunking, parsed to the same verb, path and body as the whole byte string, and the body has the announced length (sections 6.2 and 6.3 of RFC 9112) |
| `Http.RefusedIff` | core/crates/kwaai-cli/src/inference_mux.rs:611-621 | A request is refused if and only if it has no blank line, its head is not UTF-8 or empty, or its first line holds no space |
| `Http.TwoWords` | core/crates/kwaai-cli/src/inference_mux.rs:617-619 | A request line needs two words; the version is optional |
| `Utf8.RoundTrip` | core/crates/kwaai-cli/src/inference_mux.rs:613 | Every string is decoded from its UTF-8 encoding |
| `Utf8.DecodesIff` | core/crates/kwaai-cli/src/inference_mux.rs:613 | A byte string decodes to a string if and only if it is that string's encoding: everything else is refused |
| `HttpRoundTrip.RenderRoundTrip` | core/crates/kwaai-cli/src/inference_mux.rs:611-621 | A request with any one-word verb and target and any other header lines, in any script, its length named in any case and padded, or not announced when it has no body, is parsed back to its verb, path and body, and its length reads as the body's |
| `HttpRoundTrip.DeliverRendered` | core/crates/kwaai-cli/src/inference_mux.rs:474-533 | Rendered, split in any way and read back, a request is unchanged |
| `HttpRoundTrip.HeadWithoutLength` | core/crates/kwaai-cli/src/inference_mux.rs:489-495 | A head without a length line, or that is not UTF-8, announces no body |
| `HttpRoundTrip.UnreadableIsZero` | core/crates/kwaai-cli/src/inference_mux.rs:492-495 | If the first length line holds no number that fits, the length is 0, whatever lines follow |
| `HttpRoundTrip.BareLineFeed` | core/crates/kwaai-cli/src/inference_mux.rs:491 | A bare line feed ends a line without a carriage return just as well |
| `Proxy.Forward` | core/crates/kwaai-cli/src/inference_mux.rs:535-573 | At most two rounds; exactly one verdict reaches the breaker, on top of whatever other connections did to it meanwhile: success with the response of the first round that sends, failure only after two failed rounds; the exhausted exit is unreachable |
| `Proxy.Answer` | core/crates/kwaai-cli/src/inference_mux.rs:508-592 | Once a request is buffered: 503 exactly when the breaker refuses, else 400 exactly when it does not parse, else a relay or a 502, each exactly with its verdict |
| `Proxy.HandleConnection` | core/crates/kwaai-cli/src/inference_mux.rs:468-609 | From the first byte, with other connections acting on the breaker while the request is read and forwarded: dropped exactly without a blank line, 503 exactly when the breaker refuses, 400 exactly when an admitted complete request does not parse, 502 exactly with a recorded failure, a relay exactly with a recorded success; and never 503 with fewer than three failures since the peer's last success |
| `EndToEnd.StepKeeps` | core/crates/kwaai-cli/src/inference_mux.rs:442-573 | Every step of proxy and multiplexer together keeps both systems' invariants, the slot's view of which clients are dead, and each handler's record of its calls |
| `EndToEnd.RelayedIsOwnAnswer` | core/crates/kwaai-cli/src/inference_mux.rs:468-609 | In every run of handlers, connections and server together, what a handler relays was computed for the very request it was given, on the connection it used |
| `EndToEnd.ComputedAtMostTwice` | core/crates/kwaai-cli/src/inference_mux.rs:535-573 | Over all retries and reconnects, a proxied request is computed upstream at most twice |
| `EndToEnd.ComputedAsAsked` | core/crates/kwaai-cli/src/inference_mux.rs:548 | Every computation for a handler is of the request it was given |
| `EndToEnd.RelayIsReachable` | core/crates/kwaai-cli/src/inference_mux.rs:468-609 | For every request and every upstream status and body, some run of handlers, connections and server relays that answer |
| `CircuitBreaker.CircuitBreaker.Allow` | core/crates/kwaai-cli/src/circuit_breaker.rs:66-90 | Admits and moves the peer's entry as one event of the trace does (`PeerRefusedIff` says on the trace when that refuses), and leaves other peers alone |
| `CircuitBreaker.CircuitBreaker.RecordSuccess` | core/crates/kwaai-cli/src/circuit_breaker.rs:93-103 | Resets the peer's entry, and leaves other peers alone |
| `CircuitBreaker.CircuitBreaker.RecordFailure` | core/crates/kwaai-cli/src/circuit_breaker.rs:107-123 | Counts the failure and opens the breaker where due, and leaves other peers alone |
| `CircuitBreaker.PeersAreIndependent` | core/crates/kwaai-cli/src/circuit_breaker.rs:48-53 | After any interleaved trace a peer's entry is the one its own events alone produce |
| `CircuitBreaker.NotClosedIffThreeFailures` | core/crates/kwaai-cli/src/circuit_breaker.rs:66-123 | After any trace the breaker is not closed if and only if at least three failures were recorded since the last success, and it has an opening time exactly then |
| `CircuitBreaker.WindowHolds` | core/crates/kwaai-cli/src/circuit_breaker.rs:107-123 | From an opening to the next, without a success, the opening time never moves, and the breaker is half-open exactly when a request came after the cooldown |
| `CircuitBreaker.AdmittedExactlyAfterCooldown` | core/crates/kwaai-cli/src/circuit_breaker.rs:71-88 | In that time a request is admitted if and only if it comes at least one cooldown after the opening |
| `CircuitBreaker.RefusedDuringCooldown` | core/crates/kwaai-cli/src/circuit_breaker.rs:71-86 | Every request inside the window is refused unless a success was recorded |
| `CircuitBreaker.OpeningsAreSpaced` | core/crates/kwaai-cli/src/circuit_breaker.rs:107-123 | Openings with no success between them are at least one cooldown apart |
| `CircuitBreaker.OpensIff` | core/crates/kwaai-cli/src/circuit_breaker.rs:107-123 | A failure opens the breaker if and only if it is the third since the last success, or a later one after a request was let through again |
| `CircuitBreaker.RefusedIff` | core/crates/kwaai-cli/src/circuit_breaker.rs:66-90 | After any monotone trace, a request is refused if and only if at least three failures were recorded since the last success and less than one cooldown has passed since the last opening |
| `CircuitBreaker.PeerRefusedIff` | core/crates/kwaai-cli/src/circuit_breaker.rs:66-90 | The same for the shared breaker and the peer's own events in any interleaved trace |
| `CircuitBreaker.BelowThreeAdmits` | core/crates/kwaai-cli/src/circuit_breaker.rs:69-70 | With fewer than three failures since the last success every request passes, whatever the clock does |
| `CircuitBreaker.ProbesAreAllArrivals` | core/crates/kwaai-cli/src/circuit_breaker.rs:87-88 | The half-open breaker lets through exactly the requests that arrive; a single probe holds if and only if at most one arrives |
| `CircuitBreaker.SingleProbeFails` | core/crates/kwaai-cli/src/circuit_breaker.rs:10 | The single probe of the documentation fails on a concrete trace |
| `Session.StepKeepsRegistry` | core/crates/kwaai-cli/src/grpc_server.rs:187-280 | Every step keeps the registry in order: it holds exactly the senders of registered operations that are neither cleaned up nor signalled |
| `Session.StepKeepsOutput` | core/crates/kwaai-cli/src/grpc_server.rs:438-638 | Every step keeps the output in order: ids match, nothing of an operation follows its terminal frame, and settled operations have sent one while the client reads |
| `Session.StepKeepsCauses` | core/crates/kwaai-cli/src/grpc_server.rs:262-277 | Every step keeps this: each signal has its cause, and each answer to a Cancel says what the lookup found |
| `SessionFrames.FramesAreHistory` | core/crates/kwaai-cli/src/grpc_server.rs:187-280 | In every run each reply of an operation is on the output channel if and only if one of the steps that cause it was taken while the client read: Pong for Ping, StatusReply for Status, each error for its own cause |
| `SessionFrames.ToldHowItEnded` | core/crates/kwaai-cli/src/grpc_server.rs:438-638 | While the client reads, a Generate or ShardRun got Done if and only if it sent its done token or its worker's stream closed, Cancelled if and only if it saw the cancel signal, another error if and only if its engine could not be built or its worker failed |
| `Session.OneTerminalPerOperation` | core/crates/kwaai-cli/src/grpc_server.rs:187-280 | For every order of tokens, failures and cancels: at most one terminal frame per client frame, nothing after it, and exactly one once it has ended with the client still reading |
| `Session.NothingFollowsATerminal` | core/crates/kwaai-cli/src/grpc_server.rs:187-280 | With ids used once, no frame with that id follows a Done or Error |
| `Session.TerminalsCountFrames` | core/crates/kwaai-cli/src/grpc_server.rs:187-280 | Whatever ids the client chooses, the terminal frames with an id are as many as its frames with that id whose handling is over |
| `Session.RegistryIsLiveOperations` | core/crates/kwaai-cli/src/grpc_server.rs:446-449 | An id is in the registry if and only if an operation with that id is registered, not cleaned up and not yet signalled |
| `Session.RegistryEmptiesOut` | core/crates/kwaai-cli/src/grpc_server.rs:529 | The registry is empty once every operation has ended |
| `Session.SignalledAtMostOnce` | core/crates/kwaai-cli/src/grpc_server.rs:262-266 | An operation is signalled at most once |
| `Session.CancelAnsweredDoneIffLive` | core/crates/kwaai-cli/src/grpc_server.rs:262-277 | A Cancel is answered Done if and only if its lookup found a live operation, and NotFound otherwise |
| `Session.CancelledOnlyOnRequest` | core/crates/kwaai-cli/src/grpc_server.rs:478-489 | With ids used once, an operation reports Cancelled only if a Cancel frame for it was received and found it |
| `Session.SignalChangesExactlyWhen` | core/crates/kwaai-cli/src/grpc_server.rs:446-449 | In every step of every run, an operation's signal fires if and only if the step is a Cancel that hits it, and is dropped if and only if another operation with its id registers or cleans up while it is registered and unsignalled |
| `Session.SignalIsHistory` | core/crates/kwaai-cli/src/grpc_server.rs:262-277 | At any time an operation has been signalled by a Cancel if and only if one hit it, and has lost its sender if and only if another operation with its id clashed with it |
| `Session.CancelledUnaskedIffClash` | core/crates/kwaai-cli/src/grpc_server.rs:476-531 | Whatever ids the client uses: an operation that reports Cancelled was hit by no Cancel if and only if another operation with its id clashed with it |
| `Session.ClashCanCancel` | core/crates/kwaai-cli/src/grpc_server.rs:478-489 | Every clash can have that effect: the operation may report Cancelled in its next step |
| `Session.ReusedIdCancels` | core/crates/kwaai-cli/src/grpc_server.rs:529 | Reusing an id makes both operations report Cancelled although no Cancel was sent: the first when the second registers, the second when the first cleans up |
| `Session.ReuseAfterDoneCancels` | core/crates/kwaai-cli/src/grpc_server.rs:529 | Also when the id is reused only after the first operation's Done was received |
| `SessionReuse.UnaskedIffIdShared` | core/crates/kwaai-cli/src/grpc_server.rs:446-529 | For any list of frames a client sends, some run tells an operation Cancelled that no Cancel hit if and only if two Generate or ShardRun frames in it share an id |
| `SessionForwarder.Forward` | core/crates/kwaai-cli/src/grpc_server.rs:476-528 | The select loop stops at the first event that ends the operation and has sent one token per event before it; it ends with Done if and only if that event is the done token or the closed stream, with Cancelled if and only if it is the cancel, with another error if and only if it is the failure |
| `SessionForwarder.LoopIsSessionSteps` | core/crates/kwaai-cli/src/grpc_server.rs:476-531 | The loop is a run of the session's own steps: the same frames leave in the same order, and cleanup is due exactly when the loop has ended |
| `SessionForwarder.CancelRegistry.Insert` | core/crates/kwaai-cli/src/grpc_server.rs:448-449 | Performs the registration step on the registry; the sender it drops is that of an operation the step clashes with, and exactly that operation's signal changes |
| `SessionForwarder.CancelRegistry.TakeForCancel` | core/crates/kwaai-cli/src/grpc_server.rs:262-277 | Performs the lookup step: the Cancel is acknowledged exactly when it took a sender, and exactly the operation hit is signalled |
| `SessionForwarder.CancelRegistry.RemoveAtEnd` | core/crates/kwaai-cli/src/grpc_server.rs:529 | Performs the cleanup step: it drops its own sender or that of an operation it clashes with, and no other signal changes |
| `InferenceSlot.StepKeeps` | core/crates/kwaai-cli/src/grpc_server.rs:642-657 | Every step keeps the mutex, slot, engine and request records in order |
| `InferenceSlot.OneInferenceAtATime` | core/crates/kwaai-cli/src/grpc_server.rs:683-702 | At most one request runs an inference, over all interleavings of Chat and Session requests |
| `InferenceSlot.SlotIsWrittenOnce` | core/crates/kwaai-cli/src/grpc_server.rs:100-116 | The slot goes from empty to one engine at most once and then never changes |
| `InferenceSlot.FailedInitLeavesSlotEmpty` | core/crates/kwaai-cli/src/grpc_server.rs:646-657 | A failed initialisation leaves the slot empty and unlocked, and its request with one error and no token |
| `InferenceSlot.OutcomeIsFinal` | core/crates/kwaai-cli/src/grpc_server.rs:683-754 | What a bounced, failed or finished request has received never changes |
| `InferenceSlot.BouncedGetsOneError` | core/crates/kwaai-cli/src/grpc_server.rs:691-702 | A worker is bounced if and only if another request is running, and then gets exactly one error and no token, for good |
| `InferenceSlot.FinishedWithAMarker` | core/crates/kwaai-cli/src/grpc_server.rs:704-754 | A request that ran ends with its done marker or an error, and nothing before was a done marker |
| `InferenceSlot.EngineIsReused` | core/crates/kwaai-cli/src/grpc_server.rs:646-657 | For any two kinds of request, some run serves one after the other with one engine, built once |
| `Sampler.Greedy` | core/crates/kwaai-cli/src/llama_local.rs:53-61 | The last of the largest logits, or the end token for no logits |
| `Sampler.Rank` | core/crates/kwaai-cli/src/llama_local.rs:66-72 | A permutation of all indices by descending score |
| `Sampler.FindCutoff` | core/crates/kwaai-cli/src/llama_local.rs:90-101 | The shortest prefix whose mass reaches `top_p` |
| `Sampler.BuildChoice` | core/crates/kwaai-cli/src/llama_local.rs:63-107 | Sort, top-k, softmax, cut and renormalisation give the candidates and probabilities that the lemmas below characterise |
| `Sampler.TopKCounts` | core/crates/kwaai-cli/src/llama_local.rs:74-77 | At most `top_k` candidates when it is positive; without a nucleus cut exactly `top_k`, or all tokens when it is 0 or not below their number |
| `Sampler.FirstIsBest` | core/crates/kwaai-cli/src/llama_local.rs:79-80 | The first candidate has the best logit |
| `Sampler.ProbabilitiesAreSoftmax` | core/crates/kwaai-cli/src/llama_local.rs:79-107 | The final probabilities are the softmax over the candidates, at the logits' distances from the best divided by the temperature |
| `Sampler.Draw` | core/crates/kwaai-cli/src/llama_local.rs:118-126 | The draw picks the candidate whose interval holds it, and the fallback is never reached |
| `Sampler.SampleNextToken` | core/crates/kwaai-cli/src/llama_local.rs:46-127 | Greedy at temperature 0 or below; otherwise the token that owns the draw in the distribution the parameters define |
| `Sampler.ChoiceIsDistribution` | core/crates/kwaai-cli/src/llama_local.rs:79-107 | The final probabilities are positive and sum to 1 |
| `Sampler.CandidatesDominate` | core/crates/kwaai-cli/src/llama_local.rs:66-101 | Every candidate's logit is at least that of every token left out |
| `Sampler.NucleusIsSmallest` | core/crates/kwaai-cli/src/llama_local.rs:90-101 | No smaller set of kept candidates, contiguous or not, has mass `top_p` |
| `Sampler.NucleusReaches` | core/crates/kwaai-cli/src/llama_local.rs:90-101 | For 0 < `top_p` < 1 the candidates' mass reaches `top_p` |
| `Sampler.DrawsArePartitioned` | core/crates/kwaai-cli/src/llama_local.rs:118-124 | Each draw in [0, 1] is owned by exactly one candidate |
| `Sampler.EverDrawnIff` | core/crates/kwaai-cli/src/llama_local.rs:110-124 | Candidate j is drawn for some reading of the clock if and only if it is the first, or the first nanosecond past the mass before it is below 10^9 and still inside its own interval |
| `Sampler.ClockReachesOnlyTheHead` | core/crates/kwaai-cli/src/llama_local.rs:110-117 | Candidates past a mass of 999999999/4294967295 are never drawn, and only the first one ever is if and only if it holds that much |
| `WeightSelection.LayerTensorIndex` | core/crates/kwaai-cli/src/hf.rs:578-584 | The name of every tensor of block n parses back to n |
| `WeightSelection.LayerTensorNeededOnce` | core/crates/kwaai-cli/src/hf.rs:571-586 | For every tiling of the blocks, each block's tensors are needed by exactly one shard |
| `WeightSelection.NeededBySomeShardIff` | core/crates/kwaai-cli/src/hf.rs:571-595 | Any tensor name at all is needed by some shard of the chain if and only if it is not a malformed or out-of-range layer name |
| `WeightSelection.NonLayerPlacement` | core/crates/kwaai-cli/src/hf.rs:587-594 | Embeddings go to the first shard only, norm and head to the last only, everything else to both ends |
| `WeightSelection.CollectWeightFiles` | core/crates/kwaai-cli/src/hf.rs:449-477 | The download's loop computes the same needed-file set as the cache check |
| `WeightSelection.SelectFilesIs` | core/crates/kwaai-cli/src/hf.rs:484-511 | A file is selected if and only if the repository lists it and the filter admits it |
| `WeightSelection.CachedIff` | core/crates/kwaai-cli/src/hf.rs:176-198 | The check never passes on an index that cannot be read or parsed, passes on the single-file check without a weight map, and otherwise if and only if the file of every needed tensor is present |
| `WeightSelection.MetadataIsSelected` | core/crates/kwaai-cli/src/hf.rs:490-502 | Each of the seven small files is selected, whatever its case and whatever the index says |
| `WeightSelection.WeightsAreSelectedIff` | core/crates/kwaai-cli/src/hf.rs:503-508 | Any other listed file is selected if and only if the index names it for the shard, or names none and it is a SafeTensors file |
| `WeightSelection.CachedMeansNothingToFetchIff` | core/crates/kwaai-cli/src/hf.rs:169-199 | For any index on which the check passes, nothing selected is missing if and only if the shard needs some listed file or every SafeTensors file is present |
| `WeightSelection.CachedButFetches` | core/crates/kwaai-cli/src/hf.rs:467-470 | An index that lists nothing, and one without a weight map: the check passes and the download still fetches |
| `WeightSelection.DownloadMakesCached` | core/crates/kwaai-cli/src/hf.rs:484-511 | A completed download makes the check pass when the repository lists the needed files |
| `WeightSelection.SplitNeededFiles` | core/crates/kwaai-cli/src/hf.rs:190-196 | Splitting a range in two neither loses nor adds a needed file |
| `WeightSelection.ModelCachedIffShardsCached` | core/crates/kwaai-cli/src/hf.rs:169-199 | The full model is cached if and only if every shard of a tiling is |
| `BlockRpc.TokenIdsRoundTrip` | core/crates/kwaai-cli/src/block_rpc.rs:132-151 | Token ids survive the wire, and a buffer decodes if and only if its length is a multiple of 4, to ids that encode back to it |
| `BlockRpc.TensorRoundTripIff` | core/crates/kwaai-cli/src/block_rpc.rs:99-130 | A half-precision tensor survives the wire if and only if its data fills its shape and its dimensions fit in 32 bits |
| `BlockRpc.WireBytes` | core/crates/kwaai-cli/src/block_rpc.rs:107-136 | Token ids travel as little-endian 32-bit words and halves as little-endian 16-bit words |
| `BlockRpc.RefusedIff` | core/crates/kwaai-cli/src/block_rpc.rs:336-362 | A request is refused if and only if token ids reach a shard that is not the first, or the bytes do not make up the ids or the tensor announced |
| `BlockRpc.HopRunsItsBlocks` | core/crates/kwaai-cli/src/block_rpc.rs:352-362 | Asked with a sendable hidden state, a shard passes it through exactly its own blocks, in order, and applies the head exactly when its range ends the model |
| `BlockRpc.FirstHopRunsItsBlocks` | core/crates/kwaai-cli/src/block_rpc.rs:336-351 | The same for the first shard, from token ids |
| `BlockRpc.HandleHidden` | core/crates/kwaai-cli/src/block_rpc.rs:352-362 | A shard asked with a sendable hidden state runs exactly its own blocks on it, and applies the head exactly when it is the last |
| `BlockRpc.RouteComputes` | core/crates/kwaai-cli/src/block_rpc.rs:310-393 | Along any covering walk from token ids: hidden states at every hop but the last, logits at the last, of all the hops' blocks in order |
| `BlockRpc.WalkRunsTheseBlocks` | core/crates/kwaai-cli/src/block_rpc.rs:310-393 | On a model whose blocks write their number down, a walk leaves the blocks of its hops, hop by hop; that is 0, 1, …, total - 1 if and only if the hops tile the blocks |
| `BlockRpc.SeamlessChainIsFull` | core/crates/kwaai-cli/src/block_rpc.rs:310-393 | Shards that tile the blocks answer exactly as one full shard |
| `BlockRpc.OverlapIsWrong` | core/crates/kwaai-cli/src/shard_cmd.rs:2781-2785 | A walk in which a server starts before its position gives a different answer on some model |
| `BlockRpc.WalkIsRightIff` | core/crates/kwaai-cli/src/shard_cmd.rs:2771-2877 | A walk is right for every model if and only if its hops tile the blocks; `Coordinator.WalksAreRightIff` and `PinnedPath.PinnedIsRightIff` give the conditions on the announcements |
| `Coordinator.TryCandidates` | core/crates/kwaai-cli/src/shard_cmd.rs:2812-2950 | The widest eligible server that answers wins; nobody eligible answers exactly when all fail; only servers that failed for good are blacklisted, and all of those wider than the winner, or all eligible ones if nobody answers; servers of equal width are tried in any order |
| `Coordinator.ForwardThroughChain` | core/crates/kwaai-cli/src/shard_cmd.rs:2748-2954 | For any announcements: the last response of a covering walk of announced servers, or a position past which no eligible server can go; if a dependable server answers wherever the answering servers lead, it always answers |
| `Coordinator.OnlyTheNetworkFails` | core/crates/kwaai-cli/src/block_rpc.rs:310-393 | A server asked along a walk never reports an error itself |
| `Coordinator.WalksAreRightIff` | core/crates/kwaai-cli/src/shard_cmd.rs:2771-2877 | Whichever servers answer, every covering walk over the announced servers is right on every model if and only if no walk can arrive in the middle of an announced range and still finish |
| `Coordinator.TakeWalk` | core/crates/kwaai-cli/src/shard_cmd.rs:2748-2954 | With one range per peer, the coordinator takes every such walk on some network, and answers as the full shard does exactly when the walk is right |
| `Coordinator.NoOverlapNeverSlips` | core/crates/kwaai-cli/src/shard_cmd.rs:2781-2785 | Announced ranges that are pairwise equal or disjoint meet that condition |
| `PinnedPath.BuildPinnedPath` | core/crates/kwaai-cli/src/shard_cmd.rs:2430-2458 | Every entry is the last of the widest eligible servers at the position the entries before it lead to, up to the last block; it fails exactly at a position no eligible server covers |
| `PinnedPath.PathOverlapsIff` | core/crates/kwaai-cli/src/shard_cmd.rs:2424-2429 | Two entries of the path overlap if and only if at some position of the greedy walk the chosen server starts before it |
| `PinnedPath.WalkIsPath` | core/crates/kwaai-cli/src/shard_cmd.rs:2779-2785 | Every covering walk over a pinned path's servers is the path itself |
| `PinnedPath.RunPinned` | core/crates/kwaai-cli/src/shard_cmd.rs:1217-1270 | Whatever the network does, an answer is the one the pinned path computes; when every call is delivered there is one if and only if the path does not end past the model, and it is the full shard's exactly when the path is right on the model |
| `PinnedPath.PinnedIsRightIff` | core/crates/kwaai-cli/src/shard_cmd.rs:2424-2458 | A pinned run is right on every model if and only if, at every position the greedy walk over the announcements visits, the widest server starts there and none ends past the model |
| `PinnedPath.SharedBlockIsRunTwice` | core/crates/kwaai-cli/src/shard_cmd.rs:2437-2456 | With servers for [0, 2) and [1, 3), both answering, the run answers, and not as one full shard does |

## Left out

- Sockets, tokio scheduling, libp2p and daemon calls, tonic, reqwest and the Ollama upstream: the upstream's answer, connect results and network failures are arbitrary inputs.
- Message encodings (msgpack, protobuf, JSON): messages are datatypes; `CutStreamDeliversPrefix` takes any codec with an inverse.
- MuxProtocol.StepKeeps: wires are FIFO message queues, which `CutStreamDeliversPrefix` justifies; taking a sender out of the table and using it is one step; encoding errors and the 120 s timeout are one step that may happen at any time; ids are unbounded instead of 64-bit.
- Requests and responses over 64 MiB on the multiplexer: the reader then ends, which the model has as the reader stopping for any reason.
- ClientSlot.StepKeeps: the read-write lock admits any waiting handler (no fairness); the concurrent slot is a step system over values, not a class, since its point is the interleaving.
- EndToEnd.StepKeeps: the retry loop's breaker events are in `Proxy`, not in the combined system.
- Proxy.HandleConnection: replies are a datatype, their rendering as text is not modelled; the outcome of each round is an arbitrary input, with the shared slot covered by `ClientSlot`; what other connections do to the breaker between two of this one's actions on it is any list of events.
- Http.ReadRequest: the 30 s deadline is a timeout that may strike any read of an unreliable stream; `usize` is 64 bits and its addition wraps, as in a release build.
- CircuitBreaker.RecordFailure: failure counts are unbounded; time is a natural number that does not go back where a lemma says so.
- SessionForwarder.Forward: the client keeps reading; the step system also covers a client that leaves.
- InferenceSlot.StepKeeps: the slot and the engine lock are a step system over values, not a class; prompt building and generation are left out.
- Error texts, error-code classification, logging and task counters.
- Sampler.SampleNextToken: exact real arithmetic with any positive exponential; 32-bit rounding, underflow and NaN are not modelled, and the source panics on an empty logit slice at positive temperature, which is excluded.
- The decode loop around the sampler and llama.cpp itself.
- Path joining, file downloads and the completeness check of single-file models: the model says which files are selected, and takes the single-file check as an input.
- BlockRpc.RouteComputes: block, embedding and head functions are arbitrary functions to half-precision tensors; one model value stands for one step of one session, so the key-value caches are inside its block functions.
- Coordinator.ForwardThroughChain: a server holds the range it announces, or none if the model does not have that range; trust scores, the preference for the local server and the retry with back-off inside one call only affect which server answers, which is arbitrary; error texts that decide transience are an input.
- PinnedPath.RunPinned: the session loop that rebuilds the path after an error and retries once is not modelled; each attempt is one run with the blacklist it starts with.
- Tensor mathematics: the transformer's arithmetic is in libraries that are not part of this repository.
- Calibration, configuration, health monitoring, display, identity, daemon control and user interfaces: settings, process control and presentation, none of which the parts above depend on.
