# Knomosis runtime, modelled in Dafny

This project models the parts of the Knomosis runtime whose behaviour spans several functions, threads or
an unbounded input, and proves what they promise for every input, every schedule and every reachable
state. `dafny verify dfyconfig.toml` checks all of it.

## What is modelled

**The event-subscription server** (`runtime/knomosis-event-subscribe`).
`EventCaching` holds the bounded event cache, as a value and as the mutable object, against the unbounded
push history it abbreviates. `Subscription` holds subscriber handles and the registry. `Frames` holds the
wire codec, read through a source that may return any non-empty chunk or fail. `Sessions` cuts a
connection handler into its atomic steps, and `Delivery` interleaves any number of handlers, the extractor
with its broadcast loop, and any number of shutdown requests, in every order. `SessionInvariants`,
`LagPolicy` and `DeliveryInvariants` prove the inductive invariant; `DeliveryTheorems`, `DeliveryOutcomes`,
`DeliveryFarewells` and `DeliveryResumption` draw from it what a client can rely on; `DeliveryCauses`,
`DeliveryRecords`, `DeliverySignals` and `DeliveryService` trace what happens to a client to the steps that
brought it about; `DeliveryProgress` shows what a handler can always still do; `DeliveryWitnesses` builds
three runs that show what a client cannot rely on.

**The concurrent benchmark driver** (`runtime/knomosis-bench`).
`BenchRunner` is the worker protocol over the shared cursor, the abort flag, the double-checked start
timestamp and the counter; `BenchInvariants` and `BenchProofs` carry its invariant through every schedule,
failures and panics included; `BenchTiming` carries the part about time stamps, which does not depend on
the cursor; `BenchTheorems` states what a run delivers, `BenchSamples` what a sample measures and how a run
stops, and `BenchWrap` says exactly when the machine-word cursor is safe. `Histograms` covers the percentile report and Welford's recurrence over
exact reals, `BenchFixture` the generated workload.

**Codecs and wide arithmetic.** `CrossStack` is the fixture-file format shared with Lean
(`runtime/knomosis-cross-stack`), `Amounts` the 256-bit decimal and byte codecs (`runtime/knomosis-amount`).

**The comment and string masker** (`scripts/regenerate_codemaps.py`). `Masking` has the find-based loops
beside a character-at-a-time lexer; `MaskingTokens` says what starts and ends a token without either;
`MaskingTheorems` has what masking keeps and when it is idempotent.

`Machine`, `Bytes` and `Subsequences` are shared vocabulary.

## What the proofs say about the code

Each of these is a property the code, its documentation or its tests suggest and that does not hold as
stated. Every one has a concrete witness or an if-and-only-if that says exactly when it does hold.

- The `OutOfWindow` hint is documented as the smallest usable resume point. It is accepted on retry, but it
  is the smallest only behind a partial front batch (`HintIsSmallestIff`), and otherwise following it can
  skip a batch that is still buffered (`HintSkipsBatch`).
- `OutOfWindow` can be returned although nothing was lost, because frames without events leave holes in the
  numbering (`RefusedWithNothingLost`, `RefusedIffLostOrSkipped`).
- A closing frame names the last delivered number as the point to resume from. A session closed before its
  first event names zero, which asks for the live tail, so what it was owed is lost (`EarlyFarewellLoses`).
  The named number loses nothing if and only if something was delivered or nothing was broadcast since
  joining, and no batch between the backfill and that number was refused (`FarewellLosslessIff`).
- A client that resumes ahead of the server is sent events it asked to skip (`ResumingAheadReplays`). Its
  stream is exact in every continuation if and only if the server had numbered its resume point when it
  registered (`ResumedStreamExactIff`).
- A finished connection is still registered if and only if its `Truncated` frame could not be written, and
  then it stays registered in every continuation (`RegisteredAfterExitIff`, `LeakIsPermanent`,
  `FailedRefusalLeaks`).
- Decoding `InvalidRequest` ignores its reserved bytes, so re-encoding reproduces the input exactly when
  they are zero (`ReencodesIffReservedZero`).
- A `Custom` kind with tag 1 to 7 reads back as the named kind (`KindRoundTripIff`, `RoundTripIff`).
- Claims tile the fixture in every run if and only if the wrapped cursor never falls back inside it
  (`ClaimsTileIff`); any realistic pipeline depth satisfies this (`SmallIsClear`). The statements about which
  requests are sent and counted assume exactly this condition, `Clear`, and nothing else beyond what `run`
  itself checks; those about time stamps hold for every configuration.
- Masking Lean text twice can differ from masking it once (`LeanNotIdempotent`, `IdempotentIff`).

## Model

| member | source | states |
|---|---|---|
| EventCaching.PushExtendsHistory | runtime/knomosis-event-subscribe/src/event_cache.rs:239-256 | a push is accepted exactly when the history stays 1-based and non-decreasing, and the cache then summarises the longer history |
| EventCaching.BufferIsRecentHistory | runtime/knomosis-event-subscribe/src/event_cache.rs:180-256 | after any pushes, refused ones included, a cache asked for `capacity` holds the last min(n, capacity, 1 000 000) accepted events, and its markers name the newest and the last evicted number |
| EventCaching.ResumeIsExact | runtime/knomosis-event-subscribe/src/event_cache.rs:309-387 | an in-window answer is every event ever accepted above the bound, in order and non-empty; the live-tail answer comes exactly when there is none or no backfill was asked for |
| EventCaching.RefusedIffLostOrSkipped | runtime/knomosis-event-subscribe/src/event_cache.rs:342-374 | a refusal means a real loss or a hole in the numbering, and no loss goes unreported |
| EventCaching.RefusedIffLost | runtime/knomosis-event-subscribe/src/event_cache.rs:342-374 | with dense numbering, refused if and only if some event above the bound was evicted |
| EventCaching.RefusedWithNothingLost | runtime/knomosis-event-subscribe/src/event_cache.rs:347-357 | without density a cache that never evicted can still refuse |
| EventCaching.RefusedIffBelowLeast | runtime/knomosis-event-subscribe/src/event_cache.rs:342-374 | the refused bounds are exactly those below one least resume point |
| EventCaching.HintIsAccepted | runtime/knomosis-event-subscribe/src/event_cache.rs:342-374 | retrying with the returned hint on the same cache is never refused |
| EventCaching.HintIsSmallestIff | runtime/knomosis-event-subscribe/src/event_cache.rs:99-110 | the hint is the smallest usable resume point exactly in one case, and otherwise one more |
| EventCaching.HintSkipsBatch | runtime/knomosis-event-subscribe/src/event_cache.rs:342-374 | where it is not the smallest, a client that follows it instead misses exactly the batch numbered like the hint, and without a partial front there is one |
| EventCaching.FromOldestIsLongestWhole | runtime/knomosis-event-subscribe/src/event_cache.rs:325-338 | the from-oldest answer is a suffix of the history that splits no batch, and the longest such suffix still buffered |
| EventCaching.EventCache.constructor | runtime/knomosis-event-subscribe/src/event_cache.rs:180-191 | a new cache is valid, empty, holds exactly the capacity given and summarises the empty history |
| EventCaching.EventCache.Create | runtime/knomosis-event-subscribe/src/event_cache.rs:180-191 | fails exactly on capacity zero; otherwise the capacity is the one asked for, up to a million |
| EventCaching.EventCache.PushEvent | runtime/knomosis-event-subscribe/src/event_cache.rs:239-256 | in place: accepts exactly order-keeping events, extends the history by the event, and changes nothing on refusal |
| EventCaching.EventCache.QueryRange | runtime/knomosis-event-subscribe/src/event_cache.rs:309-387 | the read-only query answers with the history above the bound; asked from the oldest, with the longest suffix of whole batches still buffered, or the live tail when nothing was ever pushed |
| Subscription.ShutdownSignalsWithoutEvicting | runtime/knomosis-event-subscribe/src/subscription.rs:315-341 | a shutdown request flags the subscriber or finds it gone, and never evicts one whose receiver lives or touches its lag |
| Subscription.NewHandle | runtime/knomosis-event-subscribe/src/subscription.rs:176-190 | limits inside 1 to 65 536 and up to 1 000 000 are kept as asked, others moved to the nearer end |
| Subscription.Subscriber.TryEnqueueBatch | runtime/knomosis-event-subscribe/src/subscription.rs:244-285 | in place: the queue takes the whole batch exactly when the subscriber is attached and has room, and is otherwise unchanged; a refusal counts one more lag, an acceptance clears it, and passing the limit is what disconnects a live subscriber |
| Subscription.Subscriber.RequestShutdownNow | runtime/knomosis-event-subscribe/src/subscription.rs:315-341 | in place: the sentinel is queued or nothing is, the flag is set unless the subscriber is gone, and neither lag nor a live subscriber is touched |
| Subscription.WithoutIdRemovesOne | runtime/knomosis-event-subscribe/src/subscription.rs:459-462 | with distinct ids, removal by id takes out exactly that one entry |
| Subscription.SubscriberRegistry.Register | runtime/knomosis-event-subscribe/src/subscription.rs:437-454 | refuses exactly at capacity; otherwise appends one subscriber with a fresh, never repeated id |
| Subscription.SubscriberRegistry.Unregister | runtime/knomosis-event-subscribe/src/subscription.rs:459-462 | removes that subscriber, keeps all others in order |
| Subscription.SubscriberRegistry.BroadcastToSnapshot | runtime/knomosis-event-subscribe/src/subscription.rs:526-548 | every snapshot member is offered the batch exactly once; the four counters are the numbers of members that had room, had a full queue within and beyond their lag limit, or were gone |
| Subscription.TallyCounts | runtime/knomosis-event-subscribe/src/subscription.rs:530-541 | each counter is the size of the set of positions in that situation beforehand |
| Subscription.SubscriberRegistry.BroadcastShutdown | runtime/knomosis-event-subscribe/src/subscription.rs:559-564 | every member is flagged or gone afterwards, none with a live receiver was evicted, no lag changed |
| Frames.EncodesIffFits | runtime/knomosis-event-subscribe/src/frame.rs:275-323 | the size limit is the only reason an encoder refuses |
| Frames.OutboundRoundTrip | runtime/knomosis-event-subscribe/src/frame.rs:275-423 | an encoded frame decodes to itself and leaves the following bytes untouched |
| Frames.InboundRoundTrip | runtime/knomosis-event-subscribe/src/frame.rs:199-222 | likewise for the subscribe frame |
| Frames.StreamRoundTrip | runtime/knomosis-event-subscribe/src/frame.rs:354-423 | any list of encodable frames, concatenated, reads back as that list and then clean end of input |
| Frames.CutFrameIsTruncated | runtime/knomosis-event-subscribe/src/frame.rs:229-247 | every non-empty proper prefix of a frame is reported as truncated, with the exact byte count |
| Frames.CutSubscribeIsTruncated | runtime/knomosis-event-subscribe/src/frame.rs:199-247 | likewise for the subscribe frame |
| Frames.CutStreamIsTruncated | runtime/knomosis-event-subscribe/src/frame.rs:229-423 | whole frames followed by part of one more decode to those frames and a truncation that counts the part |
| Frames.ReencodesIffReservedZero | runtime/knomosis-event-subscribe/src/frame.rs:354-423 | re-encoding what was read reproduces the bytes consumed if and only if the reserved bytes are zero |
| Frames.ReadExactOrTruncated | runtime/knomosis-event-subscribe/src/frame.rs:229-247 | over arbitrary chunking, fills the buffer with exactly the next bytes or reports how many there were |
| Frames.ReadOutbound | runtime/knomosis-event-subscribe/src/frame.rs:354-423 | over arbitrary chunking, the imperative reader computes the decoder of the byte string |
| Frames.ReadInbound | runtime/knomosis-event-subscribe/src/frame.rs:199-222 | likewise for the subscribe frame |
| Frames.WireLayout | runtime/knomosis-event-subscribe/src/frame.rs:275-323 | byte by byte: kinds 1 to 5, the number in eight big-endian digits, and for an event the length in four and the payload |
| Frames.SubscribeLayout | runtime/knomosis-event-subscribe/src/frame.rs:199-222 | kind byte 0 and the resume point in eight big-endian digits |
| Frames.DecodeMeans | runtime/knomosis-event-subscribe/src/frame.rs:354-423 | what any byte string reads as: the exact report it is refused with, or the frame at its front and the rest |
| Frames.SubscribeMeans | runtime/knomosis-event-subscribe/src/frame.rs:199-222 | likewise for a request |
| Sessions.DrainIsFilter | runtime/knomosis-event-subscribe/src/server.rs:997-1022 | the drain loop empties the queue and keeps, in order, the batches above the backfill and every shutdown sentinel |
| SessionInvariants.ActKeeps | runtime/knomosis-event-subscribe/src/server.rs:762-1159 | every atomic step of a connection handler keeps the session invariant |
| SessionInvariants.ReadCacheKeeps | runtime/knomosis-event-subscribe/src/server.rs:831-879 | the one cache query of a connection ties its backfill to the whole history at that moment |
| SessionInvariants.DrainKeeps | runtime/knomosis-event-subscribe/src/server.rs:997-1035 | the duplicate-suppressing drain sets aside exactly the batches above the backfill |
| SessionInvariants.OfferKeeps | runtime/knomosis-event-subscribe/src/subscription.rs:244-285 | offering a batch loses, repeats and reorders nothing between the two ends of the channel |
| LagPolicy.GapIsBounded | runtime/knomosis-event-subscribe/src/subscription.rs:254-275 | between two consecutive accepted batches at most max_lag batches were offered, whatever the answers |
| LagPolicy.FirstGapIsBounded | runtime/knomosis-event-subscribe/src/subscription.rs:254-275 | likewise before the first accepted batch |
| LagPolicy.EvictionIsFinal | runtime/knomosis-event-subscribe/src/subscription.rs:254-285 | the refusal that exceeds max_lag disconnects, and nothing is accepted afterwards |
| DeliveryInvariants.LogFrameKeeps | runtime/knomosis-event-subscribe/src/server.rs:1216-1437 | pushing a log frame's events and opening its broadcast keeps the server invariant |
| DeliveryInvariants.BroadcastKeeps | runtime/knomosis-event-subscribe/src/subscription.rs:244-285 | so does every atomic part of the broadcast loop |
| DeliveryInvariants.HandlerKeeps | runtime/knomosis-event-subscribe/src/server.rs:762-1159 | so does every step of any handler |
| DeliveryInvariants.ShutKeeps | runtime/knomosis-event-subscribe/src/subscription.rs:315-341 | so does every sub-step of a shutdown request |
| DeliveryInvariants.RunKeeps | runtime/knomosis-event-subscribe/src/server.rs:762-1437 | the invariant holds in every state of every interleaving |
| DeliveryTheorems.DeliveredInOrderWholeOnce | runtime/knomosis-event-subscribe/src/subscription.rs:526-548 | for every session of every run, the events on the wire are a prefix of its backfill followed by whole batches that are a subsequence of those broadcast after it; nothing is torn, reordered, repeated, or from before it joined |
| DeliveryTheorems.NoRefusalNoGap | runtime/knomosis-event-subscribe/src/server.rs:762-1159 | as long as no batch is refused after the hand-over, backfill and live delivery join without gap or repetition |
| DeliveryTheorems.ResumeExactIff | runtime/knomosis-event-subscribe/src/server.rs:831-1035 | what a session has seen decides: such a stream is exactly the events above the resume point if and only if there was a backfill, or nothing was offered yet, or the first batch offered lies above it |
| DeliveryTheorems.CarriedIffAccepted | runtime/knomosis-event-subscribe/src/subscription.rs:244-285 | a batch offered after the hand-over is in the stream if and only if the queue took it |
| DeliveryOutcomes.LostIffRefused | runtime/knomosis-event-subscribe/src/subscription.rs:254-275 | over every run: what is missing after the hand-over is exactly what was refused |
| DeliveryOutcomes.SuppressedIsOld | runtime/knomosis-event-subscribe/src/server.rs:944-1035 | a drained batch that is dropped was backfilled or lies at or below the requested bound |
| DeliveryOutcomes.LossIsBounded | runtime/knomosis-event-subscribe/src/subscription.rs:204-285 | in every run lag equals the refusals since the last accepted batch, at most max_lag batches go missing between two accepted ones and before the first, and a longer run of refusals is final |
| DeliveryOutcomes.QueueStaysBounded | runtime/knomosis-event-subscribe/src/subscription.rs:176-190 | in every state the queue respects its clamped depth and a queued sentinel implies the flag |
| DeliveryOutcomes.ShutdownReachesAll | runtime/knomosis-event-subscribe/src/subscription.rs:559-564 | a completed shutdown broadcast has flagged every target or found it gone |
| DeliveryOutcomes.ShutdownSparesEveryone | runtime/knomosis-event-subscribe/src/subscription.rs:315-341 | no sub-step of it evicts a live subscriber, drops a queued batch or touches a lag counter |
| DeliveryOutcomes.RegisteredAfterExitIff | runtime/knomosis-event-subscribe/src/server.rs:837-932 | ids are distinct, and a session has left and is still registered if and only if some step of the run was the failing write of its Truncated frame |
| DeliveryOutcomes.LeakIsPermanent | runtime/knomosis-event-subscribe/src/server.rs:846-856 | after that step it has left and is registered in every continuation of the run |
| DeliveryFarewells.FarewellLosslessIff | runtime/knomosis-event-subscribe/src/server.rs:1040-1159 | for every session of every run that was sent a closing frame: what it delivered followed by what resuming at the named number brings is all it was owed if and only if it delivered something or nothing was broadcast since it joined, and no batch above its backfill and up to that number was refused |
| DeliveryFarewells.AnswerIsBackfill | runtime/knomosis-event-subscribe/src/server.rs:831-879 | unless refused, a resume request in any reachable state is answered with exactly the past events above it, and none for zero |
| DeliveryResumption.ResumedStreamExactIff | runtime/knomosis-event-subscribe/src/server.rs:762-1035 | a client that registers to resume after f gets exactly the events above f in every continuation that refuses it nothing after the hand-over if and only if the server had numbered f by then |
| DeliveryOutcomes.BytesDecodeToWire | runtime/knomosis-event-subscribe/src/frame.rs:332-423 | the bytes any session has sent, the part left by a failed write included, decode to exactly the frames it wrote, and then to a clean end or to a truncation that counts that part |
| DeliveryOutcomes.NothingAfterEnd | runtime/knomosis-event-subscribe/src/server.rs:880-1159 | once a session is ending, and so after a partial frame, no continuation sends it another byte |
| DeliveryCauses.RefusalIsTheAnswer | runtime/knomosis-event-subscribe/src/server.rs:831-856 | for every session of every run: a `Truncated` frame sent whole or in part is all the client was sent, and its number is the hint with which the cache refused this client's bound at the step its handler asked |
| DeliveryCauses.StreamStartsWithAnswer | runtime/knomosis-event-subscribe/src/server.rs:831-1035 | every session past its query was answered at some step, and is sent a refusal or a stream that starts with the events of that answer |
| DeliveryCauses.EndedIff | runtime/knomosis-event-subscribe/src/server.rs:837-1159 | a session has ended if and only if some step was one of the exits (a write that failed, a client gone, a refusal, a flag or a mark noticed, a sentinel taken), and was then sent exactly the frame that exit sends, whole or cut |
| DeliveryRecords.RecordedIsWhole | runtime/knomosis-event-subscribe/src/server.rs:1111-1146 | in every state the number recorded as delivered is that of the last event written, a batch counting only once written to its end |
| DeliveryRecords.GoneIsMarked | runtime/knomosis-event-subscribe/src/server.rs:1082-1142 | a client found gone at some step is marked disconnected from then on |
| DeliveryRecords.LeftTakesNothing | runtime/knomosis-event-subscribe/src/server.rs:925-932 | a session that has left holds no queue, and every batch offered to it in any continuation is turned away |
| DeliverySignals.EvictedIff | runtime/knomosis-event-subscribe/src/subscription.rs:244-285 | while a session lives it is marked disconnected if and only if more than max_lag batches in a row were refused |
| DeliverySignals.LagExceededIsEarned | runtime/knomosis-event-subscribe/src/server.rs:1060-1073 | `LagExceeded` is sent only to a client that so many were refused |
| DeliverySignals.ShutdownIsAsked | runtime/knomosis-event-subscribe/src/server.rs:1046-1059 | `ServerShutdown` is sent only to a client that some step of the run asked to shut down, by name or as one registered at the time |
| DeliverySignals.ShutdownReachesRegistered | runtime/knomosis-event-subscribe/src/subscription.rs:559-564 | a request to shut down everyone, once through its list, has flagged or found gone every session registered when it was made |
| DeliverySignals.SignalledWindsDown | runtime/knomosis-event-subscribe/src/server.rs:1039-1113 | once flagged or evicted, a session starts at most one more batch in any continuation, and none unless its handler is past the checks |
| DeliveryService.BatchesAreLog | runtime/knomosis-event-subscribe/src/server.rs:1230-1346 | the batches broadcast are exactly the log's frames that have events, in log order |
| DeliveryService.CacheIsRecentLog | runtime/knomosis-event-subscribe/src/server.rs:1287-1300 | in every state the cache holds the last keep-history events of the log, up to a million |
| DeliveryService.EveryoneIsOffered | runtime/knomosis-event-subscribe/src/subscription.rs:526-548 | whenever the broadcaster is idle, every registered session has been offered every batch logged since it joined, each once and in order |
| DeliveryService.RegisteredIff | runtime/knomosis-event-subscribe/src/subscription.rs:437-462 | a session is registered if and only if its handler has not unregistered it |
| DeliveryService.RegistryStaysBounded | runtime/knomosis-event-subscribe/src/subscription.rs:437-454 | the registry never outgrows its limit |
| DeliveryService.AdmittedIff | runtime/knomosis-event-subscribe/src/server.rs:811-829 | a registration makes a session if and only if there is room |
| DeliveryService.StartedByRegister | runtime/knomosis-event-subscribe/src/server.rs:806-829 | every session's bound, place in the log, id and clamped limits are those of one registration step, for good |
| DeliveryProgress.NeverStuck | runtime/knomosis-event-subscribe/src/server.rs:762-1159 | in every state every session that has not left can take a step, unless it waits for the cache lock, and then its holder can |
| DeliveryProgress.LeftAloneDelivers | runtime/knomosis-event-subscribe/src/server.rs:1039-1159 | a session at the top of its loop that was not told to go can be served by its own handler until it has been sent its whole stream, every batch its queue ever accepted |
| DeliveryWitnesses.ResumingAheadReplays | runtime/knomosis-event-subscribe/src/server.rs:836-1000 | a run in which a client resuming after number 5 is sent event 1 |
| DeliveryWitnesses.FailedRefusalLeaks | runtime/knomosis-event-subscribe/src/server.rs:846-860 | a run after which a one-subscriber server admits no one |
| DeliveryWitnesses.EarlyFarewellLoses | runtime/knomosis-event-subscribe/src/server.rs:1046-1059 | a run in which a client that resumed after number 1 is closed with the number zero, although it was owed event 2 |
| BenchRunner.JoinAll | runtime/knomosis-bench/src/runner.rs:624-640 | the join loop returns all workers' samples and the latest completion |
| BenchProofs.MoveKeeps | runtime/knomosis-bench/src/runner.rs:712-731 | looking at the flags and setting the start time under the mutex keeps the invariant |
| BenchProofs.ClaimKeeps | runtime/knomosis-bench/src/runner.rs:974-980 | a claim takes the next tile of the fixture, disjoint from all others, and keeps the invariant |
| BenchProofs.WritingKeeps | runtime/knomosis-bench/src/runner.rs:981-996 | stamping and writing one request keeps it |
| BenchProofs.RecordKeeps | runtime/knomosis-bench/src/runner.rs:1000-1006 | recording a latency sample keeps it |
| BenchProofs.CountKeeps | runtime/knomosis-bench/src/runner.rs:1000-1006 | counting a verdict keeps counter, samples and answered requests in step |
| BenchProofs.RunKeeps | runtime/knomosis-bench/src/runner.rs:681-1013 | the invariant holds in every state of every schedule, with failing, aborting and panicking workers |
| BenchTiming.RunTimed | runtime/knomosis-bench/src/runner.rs:681-1013 | in every configuration, with no condition on the cursor, every schedule keeps flags, progress and time stamps in order |
| BenchSamples.SampleIsRoundTrip | runtime/knomosis-bench/src/runner.rs:981-1006 | for every run and every sample: an earlier step wrote that request and a later one stamped its verdict, by the same worker, and the recorded latency is the time between the two, up to 2^64 − 1 |
| BenchSamples.StartIsFirstMeasured | runtime/knomosis-bench/src/runner.rs:712-731 | the start time is the clock's reading when a worker was about to write a measured request and none had been written |
| BenchSamples.ElapsedIsWindow | runtime/knomosis-bench/src/runner.rs:651-664 | with no sample the elapsed time is zero; otherwise it runs from the start time to the latest completion of any sample |
| BenchSamples.SucceededIff | runtime/knomosis-bench/src/runner.rs:591-650 | a run succeeds if and only if every worker is through and no step was a failure, a panic or a failed spawn |
| BenchSamples.AbortStopsClaims | runtime/knomosis-bench/src/runner.rs:696-701 | after an abort, in any continuation, only workers already about to claim can still do so, once each |
| BenchSamples.ClaimsAreBatches | runtime/knomosis-bench/src/runner.rs:967-980 | the k-th claim takes indices k·batch up to (k+1)·batch or the end of the fixture; a batch of zero counts as one |
| BenchTheorems.MergedHolds | runtime/knomosis-bench/src/runner.rs:624-638 | the merged histogram is the workers' histograms one after the other |
| BenchTheorems.NothingTwice | runtime/knomosis-bench/src/runner.rs:695-767 | in every state, panicked or not, the claims tile an initial stretch of the fixture, each index was sent at most once, answered only if sent, counted only if answered and past the warm-up |
| BenchTheorems.SucceededIsExhausted | runtime/knomosis-bench/src/runner.rs:502-673 | a successful run handed out the whole fixture and every worker ran into its end |
| BenchTheorems.EverythingOnce | runtime/knomosis-bench/src/runner.rs:502-673 | in a successful run every index was sent and answered exactly once, and exactly those past the warm-up were counted |
| BenchTheorems.CountsAgree | runtime/knomosis-bench/src/runner.rs:624-673 | in a successful run counter and merged histogram both have total − warmup entries |
| BenchTheorems.SamplesInsideWindow | runtime/knomosis-bench/src/runner.rs:718-751 | in every run of every configuration each sample lies between the one start time and the measurement end, and is past the warm-up |
| BenchTheorems.LatencyBelowElapsed | runtime/knomosis-bench/src/runner.rs:624-664 | so no recorded latency exceeds the elapsed time |
| BenchTheorems.SummaryFitsRun | runtime/knomosis-bench/src/runner.rs:624-673 | the summary of a successful run counts total − warmup samples and its maximum fits in the elapsed time |
| BenchTheorems.StartWrittenOnce | runtime/knomosis-bench/src/runner.rs:718-731 | in every run of every configuration the double-checked start time is written at most once, and once there is a sample exactly once |
| BenchTheorems.StartWrittenOnSuccess | runtime/knomosis-bench/src/runner.rs:718-731 | exactly once in a successful run |
| BenchWrap.SoloFinishes | runtime/knomosis-bench/src/runner.rs:969-1009 | a worker that runs alone and meets no failure always gets to its next claim |
| BenchWrap.ClaimsTileIff | runtime/knomosis-bench/src/runner.rs:967-980 | claims tile the fixture in every run if and only if the wrapped cursor stays outside it on every worker's last look |
| BenchWrap.SmallIsClear | runtime/knomosis-bench/src/runner.rs:967-980 | which holds whenever total plus depth times workers fits in a machine word |
| Histograms.SortIsSorted | runtime/knomosis-bench/src/histogram.rs:135 | sorting yields an ascending permutation |
| Histograms.AscendingUnique | runtime/knomosis-bench/src/histogram.rs:135 | of which there is only one, whatever the algorithm |
| Histograms.RankFits | runtime/knomosis-bench/src/histogram.rs:205-211 | the 128-bit rank arithmetic never overflows |
| Histograms.PercentileMeans | runtime/knomosis-bench/src/histogram.rs:192-214 | the percentile is a sample with at least the asked share of samples at or below it and less strictly below |
| Histograms.PercentileEnds | runtime/knomosis-bench/src/histogram.rs:200-213 | numerator zero gives the least sample, numerator at or past the denominator the greatest |
| Histograms.PercentileMonotone | runtime/knomosis-bench/src/histogram.rs:192-214 | a larger share never has a smaller percentile |
| Histograms.Welford | runtime/knomosis-bench/src/histogram.rs:149-161 | the one-pass loop ends with the mean and the exact sum of squared deviations from it |
| Histograms.ShareUnique | runtime/knomosis-bench/src/histogram.rs:192-214 | only one sample has a given share |
| Histograms.SummaryUnique | runtime/knomosis-bench/src/histogram.rs:101-174 | histograms with the same samples in any order, so merged in any order, have one summary |
| Histograms.Histogram.Record | runtime/knomosis-bench/src/histogram.rs:89-92 | appends one sample, saturated to 64 bits, and raises by one the number of samples at most v exactly for each v not below it |
| Histograms.Histogram.Merge | runtime/knomosis-bench/src/histogram.rs:101-103 | appends the other histogram's samples, so the merged multiset is the sum of the two |
| Histograms.Histogram.Summarise | runtime/knomosis-bench/src/histogram.rs:131-174 | sorts in place and returns the correct summary: extremes, mean, variance, four percentiles in order; the default for no samples |
| BenchFixture.ScalarInRange | runtime/knomosis-bench/src/fixture.rs:314-330 | the byte comparison holds if and only if 0 < value < group order |
| BenchFixture.DeriveScalar | runtime/knomosis-bench/src/fixture.rs:290-308 | rejection sampling returns the first usable digest and fails only if all 256 are unusable |
| BenchFixture.DeriveKeys | runtime/knomosis-bench/src/fixture.rs:356-361 | every actor gets the first of its digests that is usable, or the first actor without one is named |
| BenchFixture.Generate | runtime/knomosis-bench/src/fixture.rs:349-413 | refuses in the documented order of checks, each condition spelled out, then exactly when some actor has no usable scalar, naming the first; otherwise returns every actor's key and a round-robin schedule whose nonces count up per sender without gap |
| BenchFixture.Schedule | runtime/knomosis-bench/src/fixture.rs:366-406 | the nonce loop: every sender in turn pays the next actor, and each one's nonces count up from zero |
| BenchFixture.SelfPaymentIff | runtime/knomosis-bench/src/fixture.rs:376-383 | nobody pays themselves unless there is only one actor |
| BenchFixture.NoncesIncrease | runtime/knomosis-bench/src/fixture.rs:366-406 | a sender's nonces strictly increase, so no pair repeats |
| BenchFixture.LoadIs | runtime/knomosis-bench/src/fixture.rs:375-383 | senders' loads never differ by more than one |
| BenchFixture.NonceIsRound | runtime/knomosis-bench/src/runner.rs:534-543 | transfer i has nonce i div n, and its sender is the signer hint i mod n |
| CrossStack.TagRoundTrip | runtime/knomosis-cross-stack/src/lib.rs:155-181 | every tag survives decoding and encoding |
| CrossStack.KindRoundTripIff | runtime/knomosis-cross-stack/src/lib.rs:155-181 | a kind survives encoding and decoding if and only if it does not borrow a named tag |
| CrossStack.FromBytes | runtime/knomosis-cross-stack/src/lib.rs:266-316 | the cursor loop with its early exits computes the parser, errors included |
| CrossStack.ToBytes | runtime/knomosis-cross-stack/src/lib.rs:331-362 | the writer succeeds exactly on what 32-bit prefixes can hold, and writes the serialisation |
| CrossStack.RecordIff | runtime/knomosis-cross-stack/src/lib.rs:405-469 | a record is read if and only if its encoding stands there and both fields are in bounds |
| CrossStack.AcceptsExactlyEncodings | runtime/knomosis-cross-stack/src/lib.rs:266-362 | the parser returns a file if and only if the bytes are exactly its serialisation and it is in bounds |
| CrossStack.RoundTripIff | runtime/knomosis-cross-stack/src/lib.rs:266-362 | a written file reads back as itself if and only if its kind is canonical and its fields are in bounds |
| CrossStack.EncodingUnique | runtime/knomosis-cross-stack/src/lib.rs:331-362 | two files in bounds never share an encoding |
| CrossStack.TrailingReported | runtime/knomosis-cross-stack/src/lib.rs:310-314 | anything after an accepted file is refused, and counted exactly |
| CrossStack.CutReported | runtime/knomosis-cross-stack/src/lib.rs:266-469 | every proper prefix of an accepted file is refused as a truncated header or record |
| CrossStack.HeaderLayout | runtime/knomosis-cross-stack/src/lib.rs:344-350 | byte by byte: CXSF, version 1, the tag of the kind and the record count |
| CrossStack.RecordLayout | runtime/knomosis-cross-stack/src/lib.rs:351-361 | byte by byte: two lengths in four big-endian digits, each followed by its bytes |
| CrossStack.HeaderMeans | runtime/knomosis-cross-stack/src/lib.rs:266-300 | what any header reads as: the first thing wrong with it, or its kind and count |
| CrossStack.RecordRefusedIff | runtime/knomosis-cross-stack/src/lib.rs:405-469 | exactly which of its four parts a record is refused for |
| CrossStack.FirstBadRecord | runtime/knomosis-cross-stack/src/lib.rs:266-316 | the report is about the first record that cannot be read; all before it are whole and within bounds |
| Amounts.BufferIsExact | runtime/knomosis-amount/src/lib.rs:100 | 78 digits suffice for every amount and 77 do not |
| Amounts.Display | runtime/knomosis-amount/src/lib.rs:342-365 | prints the canonical numeral of the amount without overrunning the 78-byte buffer |
| Amounts.CanonicalUnique | runtime/knomosis-amount/src/lib.rs:342-365 | a number has one canonical numeral, so the printed text is the only one |
| Amounts.FromStr | runtime/knomosis-amount/src/lib.rs:389-405 | the left-to-right loop reports exactly what the leading digits as a whole mean |
| Amounts.ParsesIff | runtime/knomosis-amount/src/lib.rs:389-405 | a string parses to an amount if and only if it is one or more digits denoting it |
| Amounts.RefusedIff | runtime/knomosis-amount/src/lib.rs:389-405 | exactly when text is refused as empty, as overflowing, and at which byte as not a digit |
| Amounts.DisplayParses | runtime/knomosis-amount/src/lib.rs:342-405 | printed text parses back to the same amount |
| Amounts.ReprintsIff | runtime/knomosis-amount/src/lib.rs:342-405 | parsed text is what would be printed if and only if it has no spare leading zero |
| Amounts.BytesRoundTrip | runtime/knomosis-amount/src/lib.rs:258-288 | both fixed-width encodings are bijections onto 32-byte strings |
| Amounts.BytesAreDigits | runtime/knomosis-amount/src/lib.rs:258-288 | byte k of the little-endian encoding is the digit of weight 256^k, and the big-endian one mirrors it |
| Amounts.SliceDecodesIff | runtime/knomosis-amount/src/lib.rs:292-297 | a slice decodes to an amount if and only if it is that amount's encoding; otherwise its length is reported |
| Amounts.OrderAgrees | runtime/knomosis-amount/src/lib.rs:272-279 | big-endian encodings sort byte-wise as the numbers do |
| Amounts.NarrowsIff | runtime/knomosis-amount/src/lib.rs:176-185 | narrowing succeeds exactly below 2^128 and never changes the value |
| Masking.FindIsFirst | scripts/regenerate_codemaps.py:193-234 | the search returns the first occurrence, or none |
| Masking.ConsumeBlock | scripts/regenerate_codemaps.py:193-214 | the find-based loop ends where the character scanner does: past the delimiter that closes the last open comment, counting marks met in order, or at the end of the text |
| Masking.ConsumeString | scripts/regenerate_codemaps.py:217-234 | likewise: past the first delimiter with an even number of backslashes directly before it, or at the end of the text |
| Masking.NextToken | scripts/regenerate_codemaps.py:273-297 | at each position the loop recognises exactly the lexer's token |
| Masking.MaskSource | scripts/regenerate_codemaps.py:251-303 | the imperative masker terminates on every text and computes the lexer's masking |
| MaskingTokens.LineMeans | scripts/regenerate_codemaps.py:274-277 | a line comment ends at the first newline |
| MaskingTokens.BlockMeans | scripts/regenerate_codemaps.py:279-281 | elsewhere a block opener starts a comment that ends as above |
| MaskingTokens.RawMeans | scripts/regenerate_codemaps.py:237-287 | elsewhere, in Rust, a raw string ends with the first quote followed by as many hashes as opened it |
| MaskingTokens.CharEndIff | scripts/regenerate_codemaps.py:155-171 | the matcher finds a character literal if and only if one of the spelled-out forms stands there, and ends where it ends |
| MaskingTokens.TokenMeans | scripts/regenerate_codemaps.py:289-299 | elsewhere the token is a literal, or else a string that ends as above, or else there is none |
| MaskingTokens.NestingTellsApart | scripts/regenerate_codemaps.py:173-181 | concrete texts on which nesting and non-nesting comments differ |
| MaskingTokens.EscapesTellApart | scripts/regenerate_codemaps.py:173-181 | and on which strings and raw strings differ |
| MaskingTokens.QuotesTellApart | scripts/regenerate_codemaps.py:173-181 | and on which quotes mean different things |
| MaskingTokens.LinesTellApart | scripts/regenerate_codemaps.py:173-181 | and line comments |
| MaskingTheorems.MaskAt | scripts/regenerate_codemaps.py:184-303 | position by position: code is copied, everything else blanked, newlines kept |
| MaskingTheorems.MaskKeepsLayout | scripts/regenerate_codemaps.py:184-190 | length and newline positions never change, and no character is invented |
| MaskingTheorems.TokenIffExposed | scripts/regenerate_codemaps.py:155-171 | masked text holds a token exactly where an exposed character literal is left |
| MaskingTheorems.IdempotentIff | scripts/regenerate_codemaps.py:251-303 | masking a text twice equals masking it once if and only if it leaves no exposed literal |
| MaskingTheorems.SolidityAndRustIdempotent | scripts/regenerate_codemaps.py:173-181 | for Solidity and Rust masking is idempotent on every text |
| MaskingTheorems.LeanNotIdempotent | scripts/regenerate_codemaps.py:165-171 | for Lean two adjacent literals show that it is not |

## Left out

- Memory ordering: threads interleave atomic steps with sequential consistency; acquire/release orderings are not modelled.
- Liveness: that a handler or a worker can go on is proved; that steps are eventually taken is not claimed.
- History size: a server keeps at least one event, as the cache's own constructor demands.
- Sequence numbers: log frames are numbered below 2^64 − 1, the value reserved for "from oldest".
- Subscriber ids: the registry's id counter does not wrap.
- Offsets: a usize holds any u32 and byte offsets do not overflow, so `RecordCountTooLarge` and `OffsetOverflow` do not occur.
- Dispatch after the sender is gone: a handler holds its own subscriber, so its receiver never finds the sender dropped.
- Connections turned away at the subscriber limit: the `LagExceeded` frame with number zero they are sent belongs to no session.
- Sockets, timeouts, polling intervals, the accept loop, connection caps and thread spawning: a write, read or connect is a step that succeeds or fails.
- Histograms.Welford: over exact reals; f64 rounding and the final square root are not modelled, the report carries the variance.
- Histograms.Histogram.Summarise: reports the variance, not its square root, the standard deviation the source prints; the standard library's sort is taken as an ascending permutation.
- BenchFixture.DeriveScalar: the hash is an arbitrary function of the attempt number.
- BenchFixture.Generate: the hash is an arbitrary function of actor and attempt; signing, the wire encoding of a transfer and their errors are not modelled.
- Amounts: checked and saturating arithmetic and the serde front end would only add single-branch facts.
- Tail reader, extractor subprocess, indexer, gateway, fault-proof observer and host frames: payloads are opaque bytes.
- Event-type table, configuration parsing, command lines, logging, reports and baselines: finite tables and single branches.
- Regular-expression extraction of declarations in the codemap script: only the masker is modelled.
