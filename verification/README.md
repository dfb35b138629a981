# Adaptive gateway: a verified model

This project models the parts of the adaptive gateway whose correctness is hardest to see from the code and
proves what they promise:

- **Offline write queue and replay worker** (`OfflineQueue`, `QueueSafety`, `QueueBudget`, `QueueObserver`,
  `QueueExpiry`, `QueueOverrun`, `SyncWorker`): a bounded Redis stream with a consumer group, attempts and due
  hashes, token leases and a dead-letter table, used by any number of workers. One action is one Redis, database or
  HTTP operation; workers crash, requests fail and leases expire between any two of them. `SyncWorker` is the
  worker's own code, await by await, on that shared state.
- **Passive RTT classifier** (`RttState`, `RttConvergence`, `NetworkDetector`): the pure state machine over real
  numbers, its long-run behaviour, and the shared key that several workers update optimistically.
- **JSON response reduction** (`Json`, `Pruning`, `ResponseOptimizer`, `ExpressMiddleware`, `StudyMeasurement`): the
  field stripper, the skeleton and the response policy, the in-place JavaScript stripper on a mutable heap, and the
  study's counting validator. `Pruning` gives one reference meaning that all of them are proved against.
- **Cache, lock and limiter** (`ProxyCache`, `TokenLock`, `SingleFlight`, `RateLimit`).
- **Study collector and refresh tokens** (`StudyCollector`, `RefreshTokens`).

Reading guide. State that the source changes in place is a class whose methods are proved against value-level
functions; the properties of all runs are lemmas about those functions. Foreign code appears only through
hypotheses: parsing inverts serialising on parsed and reshaped documents, gzip has an inverse, SHA-256 is injective,
`sorted` returns an ascending permutation, tokens are fresh, clocks do not run backwards. Floating point is `real`.
What other coroutines do between two awaits, the answers of Redis and of the upstream, and the choices of the
scheduler are inputs.

Where the code and its documentation differ, the model follows the code:

- gateway/routes/proxy.py:12 speaks of falling back to a cached copy when the upstream fails; the code answers 503
  there, because a cached copy would already have been served (`ProxyCache.Proxy.HandleGet`).
- gateway/middleware/rate_limit.py:10-11 says the limiter fails open; in production the code answers 503.
- gateway/cache/redis_client.py:156 says `acquire_lock` returns true; it returns the token.

Results that were expected to hold everywhere and hold only under a condition, which is then proved exact:

- The classifier settles on the plain classification from every state if and only if the constant sample lies outside
  both dwell bands and, unless `alpha` is 1, is not exactly on a threshold (`RttConvergence.SettlesIffClear`).
- The JavaScript and the Python stripper delete the same from every document if and only if the field has no trailing
  dot and no reserved segment (`ExpressMiddleware.SameDeletionIffPortable`).
- The validator's expectation is the optimizer's output if and only if it is not the adaptive mode with a condition
  outside GOOD, DEGRADED and POOR, which the validator treats as degraded and the optimizer leaves alone
  (`StudyMeasurement.ExpectationMatchesOptimizer`).
- A stored classifier state decodes to itself if and only if its average is not negative
  (`NetworkDetector.RoundTripIffStorable`).
- Without a timing hypothesis the retry budget holds in every run if and only if the claim time exceeds the maximum
  age, so that a reclaimed entry is always too old to be sent (`QueueOverrun.BudgetIffClaimsExpire`). The settings
  check at gateway/config.py:188 does not ask for that, and the defaults (60 and 3600 seconds) do not have it; for
  all settings the budget holds in the runs in which no lease runs out under its live holder
  (`QueueBudget.RetryBudget`).
- With given settings, single flight holds in every run with calls started in time if and only if the lock outlasts
  grace plus timeout (`SingleFlight.FlightSafeIffOutlasts`), and for all settings if and only if the grace is at most
  four seconds (`SingleFlight.SingleFlightIffFourSeconds`).

The sliding bound of the limiter is `2 * limit - 1`, one better than twice the limit, and is reached for every
positive limit (`RateLimit.SlidingBound`, `RateLimit.SlidingBoundTight`).

## Model

| member | source | states |
|---|---|---|
| `QueueSafety.NothingLost` | gateway/offline_queue/sync_worker.py:83-93 | in every run with any workers, crashes, failures and lease expiries, each accepted message is undelivered in the stream, pending, or has a 2xx reply or a committed dead-letter row; the stream never exceeds its bound |
| `QueueSafety.SafeStep` | gateway/offline_queue/sync_worker.py:167-304 | every action of every worker, client and clock keeps the invariant behind it: pending entries are in the stream and unacknowledged, deliveries are pending or acknowledged, only recorded messages are acknowledged and only acknowledged ones deleted |
| `QueueBudget.RetryBudget` | gateway/offline_queue/sync_worker.py:208-287 | without overrun, before a message's ack starts: sends and rescheduled handlings never exceed persisted attempts, attempts never exceed max_retries + 1 across crashes, at most max_retries handlings end in a new schedule, the sends are rising attempts each with its own attempt's backoff, the n-th send comes no earlier than the first persisted attempt plus the backoffs of the earlier sends, and the due time is never further away than the backoff of the attempts made |
| `QueueBudget.InvStep` | gateway/offline_queue/sync_worker.py:224-304 | each action keeps the budget, the spacing and what every stage of every live worker claims about its message |
| `QueueBudget.HolderStep` | gateway/offline_queue/sync_worker.py:228-287 | the holder's own actions keep its message's budget: an attempt is persisted before it is spent and the due time bars the next one |
| `QueueBudget.LeaseExclusion` | gateway/offline_queue/sync_worker.py:208-222 | without overrun two workers never handle the same message at once |
| `QueueBudget.DeadLettersAccurate` | gateway/offline_queue/sync_worker.py:248-253 | a dead-letter row written before the ack records at least the sends made and at most the budget |
| `QueueObserver.RecordIsHistory` | gateway/offline_queue/sync_worker.py:228-287 | in every run the record that the other results speak of is what happened: the sends are the requests of the run in order, a message succeeded or was buried exactly when a 2xx reply arrived or a row was committed, and the first persist time is that of the first persist |
| `QueueOverrun.OverrunBreaksBudget` | gateway/offline_queue/sync_worker.py:208-259 | for all settings with the claim time within the maximum age, a run with one overrun sends twice on one persisted attempt |
| `QueueOverrun.BudgetIffClaimsExpire` | gateway/offline_queue/sync_worker.py:186-248 | with overruns allowed, sends stay covered by persisted attempts within the budget in every run iff the claim time exceeds the maximum age |
| `QueueExpiry.SentAtMostOnce` | gateway/offline_queue/sync_worker.py:237-248 | with such settings no message is ever sent twice in any run, overruns and acks included |
| `QueueExpiry.InvStep` | gateway/offline_queue/sync_worker.py:167-304 | each action keeps the invariant behind it: a message has at most one copy in any worker's memory that may still be sent, and until then nothing was persisted or sent |
| `OfflineQueue.Config.Backoff` | gateway/offline_queue/sync_worker.py:199-202 | the schedule index is clamped on both sides for every attempt number and the delay is positive |
| `SyncWorker.Gateway.EnqueueWrite` | gateway/offline_queue/sync_worker.py:53-93 | a write is accepted exactly when it is replayable and the stream is below its bound; it is appended undelivered and nothing else changes, and a refusal changes nothing |
| `SyncWorker.Gateway.Handle` | gateway/offline_queue/sync_worker.py:208-222 | with any interference, a message is passed over iff the lease is refused and put off iff its due time is still to come; otherwise an entry that is eligible, young enough and has attempts left when they are read is persisted, scheduled and sent in this order, a success is recorded and acknowledged without a row, a retryable failure ends the handling iff attempts are left and uses one up, any other failure is dead-lettered; every other entry is dead-lettered without a send; an abort drops the batch |
| `SyncWorker.Gateway.Leased` | gateway/offline_queue/sync_worker.py:214-222 | the same for the part between taking and giving back the lease |
| `SyncWorker.Gateway.Guaranteed` | gateway/offline_queue/sync_worker.py:167-304 | everything the worker code does is a run of the protocol, so what every run guarantees holds of the gateway at any moment |
| `SyncWorker.Gateway.Deliver` | gateway/offline_queue/sync_worker.py:224-295 | the delivery is put off iff the due hash says so when it is read, and otherwise goes on as the attempts and the entry decide |
| `SyncWorker.Gateway.Decide` | gateway/offline_queue/sync_worker.py:231-295 | an entry is sent iff it is eligible, young enough and has attempts left when they are read, and no write fails; every other entry leaves a row with the attempts read; the worker's own actions are listed for each ending |
| `SyncWorker.Gateway.Replay` | gateway/offline_queue/sync_worker.py:254-295 | the attempt is persisted, then its due time, and only then the request goes out; an error at either write ends the handling without a send; a success is recorded and acknowledged with nothing between |
| `SyncWorker.Gateway.Finish` | gateway/offline_queue/sync_worker.py:270-295 | a success is recorded and acknowledged, a retryable failure ends the handling iff attempts are left and is counted, any other failure leaves a row with the attempts made and is acknowledged |
| `SyncWorker.Gateway.Ack` | gateway/offline_queue/sync_worker.py:297-304 | four steps in order, any of which may fail; without failure the message is acknowledged, out of the stream and without a due time, and without attempts unless another holder wrote them meanwhile |
| `SyncWorker.Gateway.DeadLetter` | gateway/offline_queue/sync_worker.py:306-331 | unless the insert fails a new row with the message and the count is committed, before the acknowledgement begins and whatever becomes of it |
| `SyncWorker.Gateway.HandleBatch` | gateway/offline_queue/sync_worker.py:181-183 | one handling per message, in order, each with its own answers and outcome, until one aborts |
| `SyncWorker.Gateway.Tick` | gateway/offline_queue/sync_worker.py:167-197 | the tick reads min(16, undelivered) new entries and handles each, then claims the idle ones and handles each; a failed read or claim and an aborted handling end it; the worker's own actions are exactly these |
| `SyncWorker.Gateway.FetchNew` | gateway/offline_queue/sync_worker.py:174-180 | exactly the next min(16, undelivered) entries, in order |
| `RttState.KeptIffJustified` | gateway/middleware/rtt_state.py:51-77 | a tier is kept exactly when it is the plain classification or a more severe tier whose threshold the value is at most the hysteresis width below |
| `RttState.CandidateJustified` | gateway/middleware/rtt_state.py:58-77 | every candidate is justified by its value |
| `RttState.QuiescentTierJustified` | gateway/middleware/rtt_state.py:80-103 | in every run, with a sample accepted and nothing pending, the committed tier is justified by the average |
| `RttState.OnlyAcceptedCount` | gateway/middleware/rtt_state.py:86-87 | samples that are not finite or are negative leave no trace in any run |
| `RttState.PendingCounts` | gateway/middleware/rtt_state.py:95-103 | the pending counter is exactly the number of agreeing samples that end the run |
| `RttState.CommitRestsOnAgreement` | gateway/middleware/rtt_state.py:98-100 | a commit rests on transition_samples consecutive samples with that candidate under the old tier |
| `RttState.CommitsSpaced` | gateway/middleware/rtt_state.py:80-103 | two commits are at least transition_samples accepted samples apart |
| `RttState.OppositeCommitsApart` | gateway/middleware/rtt_state.py:58-77 | the same, one sample at a time, for the observer that counts reversals |
| `RttState.ConsecutiveTurnsApart` | gateway/middleware/rtt_state.py:58-77 | in any run from any state, two consecutive changes of tier in opposite directions happen at averages more than the hysteresis width apart |
| `RttState.ReversalsBoundedByTravel` | gateway/middleware/rtt_state.py:88-103 | over any run from any state, reversals times the hysteresis width never exceed the travel of the average |
| `RttConvergence.GeometricApproach` | gateway/middleware/rtt_state.py:88-92 | under a constant sample the distance of the average is multiplied by 1 - alpha per sample |
| `RttConvergence.SettlesInTime` | gateway/middleware/rtt_state.py:51-103 | from any state, after a computable number of clear samples the tier is the plain classification forever |
| `RttConvergence.SettlesIffClear` | gateway/middleware/network_detector.py:89-98 | the constant samples that settle the classifier from every state are exactly the clear ones |
| `RttConvergence.StuckForever` | gateway/middleware/rtt_state.py:65-77 | for each other sample, a state that keeps its tier forever |
| `NetworkDetector.RoundTripIffStorable` | gateway/middleware/network_detector.py:131-155 | decoding an encoded state gives it back exactly when the average is absent or nonnegative |
| `NetworkDetector.CorruptIsInitial` | gateway/middleware/network_detector.py:131-155 | no object, an unknown tier, a negative or non-numeric average or a non-numeric count is read as the initial state |
| `NetworkDetector.DecodeStorable` | gateway/middleware/network_detector.py:131-155 | whatever the key holds, the decoded average is absent or nonnegative |
| `NetworkDetector.AdvanceStorable` | gateway/middleware/rtt_state.py:86-92 | advancing keeps the average nonnegative |
| `NetworkDetector.NoLostUpdate` | gateway/middleware/network_detector.py:165-183 | for every interleaving and every initial content of the key, the stored state is the fold of advance over the samples committed since the last expiry in commit order, over all of them if the key never expires; no call commits twice; a call that gives up after four tries was overtaken by at least four writes |
| `NetworkDetector.StepKeepsInv` | gateway/middleware/network_detector.py:168-183 | each watch, read, exec, fault and expiry keeps that |
| `NetworkDetector.SharedKey.UpdateState` | gateway/middleware/network_detector.py:165-183 | with interference and failures at every await the call returns after at most four tries; its sample is in the commit order, once, iff an EXEC was applied, including one whose answer is lost; it gives up only after four writes overtook it |
| `Pruning.PruneAccess` | gateway/middleware/response_optimizer.py:45-62 | an access path resolves after stripping iff it resolved before and no field names a prefix of its key labels; surviving scalars are unchanged |
| `Pruning.TruncateAccess` | gateway/middleware/response_optimizer.py:68-73 | an access path resolves after truncation iff it resolved before and all its indices are below the bound |
| `Pruning.PruneCompose` | gateway/middleware/response_optimizer.py:54-62 | stripping twice is stripping once by the union of the paths |
| `Pruning.PruneTruncateCommute` | gateway/middleware/response_optimizer.py:65-75 | stripping and truncating commute |
| `Pruning.TruncateIdempotent` | gateway/middleware/response_optimizer.py:68-73 | truncation is idempotent |
| `Pruning.SkeletonIdempotent` | gateway/middleware/response_optimizer.py:65-75 | skeletons are idempotent |
| `Pruning.PruneFixpoint` | gateway/middleware/response_optimizer.py:45-62 | stripping changes a document exactly when it holds a member the fields name |
| `Pruning.SkeletonFixpoint` | gateway/middleware/response_optimizer.py:65-75 | a skeleton differs from its document exactly when a named member or a long array is there |
| `ResponseOptimizer.Partition` | gateway/middleware/response_optimizer.py:56 | the head has no dot and head and tail make up the field again |
| `ResponseOptimizer.StripFields` | gateway/middleware/response_optimizer.py:45-62 | the field-by-field loop computes the simultaneous pruning by all named paths |
| `ResponseOptimizer.MakeSkeleton` | gateway/middleware/response_optimizer.py:65-75 | the skeleton is the truncated pruning |
| `ResponseOptimizer.StripOrderIrrelevant` | gateway/middleware/response_optimizer.py:55-61 | the order and repetition of fields do not matter |
| `ResponseOptimizer.StripIdempotent` | gateway/middleware/response_optimizer.py:45-62 | stripping is idempotent |
| `ResponseOptimizer.SkeletonAccess` | gateway/middleware/response_optimizer.py:65-75 | an access path resolves in the skeleton iff it resolved, no field names a prefix of its labels and every index is below ten |
| `ResponseOptimizer.ReshapeFixpoint` | gateway/middleware/response_optimizer.py:262-263 | the equality test of the code holds exactly when nothing is removed |
| `ResponseOptimizer.TransformJson` | gateway/middleware/response_optimizer.py:247-264 | the body is kept when it does not parse, is too deep or loses nothing, and is otherwise the text of the reshaped document |
| `ResponseOptimizer.Dispatch` | gateway/middleware/response_optimizer.py:111-244 | in the removal and combined modes and for DEGRADED and POOR clients of the adaptive mode, and nowhere else, exactly the access paths that a field cuts are gone, and for an uncached POOR one of the adaptive mode also those beyond the tenth item; scalars are unchanged; markers are exact; gzip is used iff mode and quality ask for it, the client accepts it, the body has 256 bytes and shrinks; 406 is sent iff no coding can be |
| `ResponseOptimizer.PolicyMeaning` | gateway/middleware/response_optimizer.py:139-161 | which access paths survive, for every mode, quality and cache state |
| `ExpressMiddleware.DeleteNestedPath` | sdks/express-middleware/index.js:17-29 | after deletion in place the tree denotes the pruned document, for every path and every tree |
| `ExpressMiddleware.StripPayload` | sdks/express-middleware/index.js:34-54 | the returned value is a fresh tree denoting the pruned payload, with portable fields the one the Python stripper gives; nothing that existed before is modified; an unserialisable payload is returned as it is |
| `ExpressMiddleware.SplitVersusPartition` | sdks/express-middleware/index.js:19 | the two ways of cutting a field differ by one empty segment exactly when the field ends with a dot |
| `ExpressMiddleware.PortableFieldsAgree` | sdks/express-middleware/index.js:17-54 | on portable fields the in-place deletion and the Python stripper remove the same paths |
| `ExpressMiddleware.SameDeletionIffPortable` | sdks/express-middleware/index.js:17-29 | both delete the same from every document iff the field has no trailing dot and no reserved segment |
| `StudyMeasurement.FieldValue` | benchmarks/study_measurement.py:25-31 | the loop over segments is the nested lookup |
| `StudyMeasurement.CountFields` | benchmarks/study_measurement.py:114-128 | each counter grows by one exactly when its field is present, and the flag says whether all values agree with the fixture |
| `StudyMeasurement.ScanItems` | benchmarks/study_measurement.py:93-136 | the loop's counters, flags and identifier list are those of the whole document |
| `StudyMeasurement.AcceptedExact` | benchmarks/study_measurement.py:98-136 | an item passes every check exactly when it equals its fixture item up to optional fields |
| `StudyMeasurement.SelectionExact` | benchmarks/study_measurement.py:137-139 | flags, distinctness by size and sortedness hold exactly for selections of the fixture in order |
| `StudyMeasurement.LeadingByCounting` | benchmarks/study_measurement.py:140-175 | the identifier list and the optional count pin down the document completely |
| `StudyMeasurement.ReducedExact` | benchmarks/study_measurement.py:141-143 | for a selection, the counting test for reduced is inequality with the full fixture |
| `StudyMeasurement.Conclude` | benchmarks/study_measurement.py:137-175 | each reported flag is characterised exactly; the coding, the size and the fields that a mode and condition ask for are spelled out |
| `StudyMeasurement.ContentObservation` | benchmarks/study_measurement.py:46-175 | the counters are those of the document; fixture_valid means a selection in order; mode_valid holds iff the coding is gzip exactly where the mode and condition ask for it and the document is the leading part of the fixture with or without its optional fields, which is what the optimizer produces |
| `StudyMeasurement.ExpectationMatchesOptimizer` | benchmarks/study_measurement.py:157-175 | the validator expects the optimizer's output iff it is not the adaptive mode with an unknown condition |
| `StudyMeasurement.MeasureReply` | benchmarks/study_measurement.py:137-175 | end to end: the gateway's reply to an uncached read of the fixture is judged valid for its mode iff the condition is known or does not matter and the compression the mode asks for was really used |
| `SingleFlight.AtMostOneInFlight` | gateway/routes/proxy.py:306-329 | after every run with calls started within four seconds, at most one refresh of a key is calling the upstream, for every timeout |
| `SingleFlight.OutlastedCallsApart` | gateway/routes/proxy.py:306-329 | after every run, calls started in time whose locks outlast grace plus timeout do not overlap |
| `SingleFlight.ReleaseSparesSuccessor` | gateway/cache/redis_client.py:170-181 | a release never removes another holder's lock |
| `SingleFlight.FlightSafeIffOutlasts` | gateway/routes/proxy.py:312-316 | for given lock settings, timeout and grace, single flight holds in every run iff the lock, the longer of the configured minimum and int(timeout) + 5, lives longer than grace plus timeout |
| `SingleFlight.SingleFlightIffFourSeconds` | gateway/routes/proxy.py:312-316 | single flight holds for every configured minimum and timeout iff calls start within a grace of at most four seconds |
| `SingleFlight.Revalidator.ServeStale` | gateway/cache/redis_client.py:155-167 | the caller wins exactly when no live lock exists, and then holds a fresh token |
| `SingleFlight.Revalidator.FinishRefresh` | gateway/routes/proxy.py:234-235 | one's own live lock is free again and every lock with another token stays |
| `TokenLock.OneHolder` | gateway/cache/redis_client.py:155-181 | a taken lock is refused to others until it expires or is given back with its token, and then is free at once |
| `ProxyCache.PreimageInjective` | gateway/cache/redis_client.py:64-71 | the hashed text determines its parts when the first three contain no NUL |
| `ProxyCache.KeyIdentifiesRead` | gateway/routes/proxy.py:130-132 | two reads share a key iff they have the same target and carry each header value under each name, up to its case, equally often |
| `ProxyCache.LowerEqual` | gateway/routes/proxy.py:130-132 | names agree up to case iff they differ only between ASCII letters of the two cases |
| `ProxyCache.Proxy.CacheGet` | gateway/cache/redis_client.py:114-131 | found iff Redis is up and the entry is within freshness plus a day, or one second; stale iff past freshness |
| `ProxyCache.Proxy.CacheReply` | gateway/routes/proxy.py:117-127 | stored under the key of its own read iff offered to a cache that is up, a 200 and without Set-Cookie, Cache-Control, Vary or Expires; stored entries stay traceable to their replies |
| `ProxyCache.Proxy.HandleGet` | gateway/routes/proxy.py:284-368 | with other replies arriving at both awaits, the cache answers iff the route is cacheable, the client sent none of the nine private or conditional headers and no no-cache, no-store or max-age=0, and an entry is present; HIT iff within its freshness window; the body is that of an earlier cacheable 200 reply to the same read; otherwise the upstream's reply is forwarded and offered to the cache under the same condition, or 503 is given |
| `RateLimit.Limiter.CheckRateLimit` | gateway/middleware/rate_limit.py:32-48 | the counter and the answer, with Redis up or down |
| `RateLimit.Limiter.Serve` | gateway/middleware/rate_limit.py:32-48 | which requests of a run are let through |
| `RateLimit.WindowBound` | gateway/middleware/rate_limit.py:36-42 | of the requests of a window exactly the first limit are admitted |
| `RateLimit.SlidingBound` | gateway/middleware/rate_limit.py:36-48 | at most 2 * limit - 1 admissions in any half-open interval of one window length |
| `RateLimit.SlidingBoundTight` | gateway/middleware/rate_limit.py:36-48 | for every positive limit a run reaches that bound |
| `StudyCollector.MeasureBlock` | benchmarks/study_measurement.py:313-330 | for every interleaving, ids 1..count are each measured once and at most min(count, concurrency) are in flight at any point |
| `StudyCollector.Collect` | benchmarks/run_study.py:330-363 | the rows are exactly the requests of the blocks, warm-up requests numbered to the warm-up count and measured ones to the request count, block by block and warm-up first |
| `StudyCollector.LoadObservations` | benchmarks/study_analysis.py:337-376 | the loader accepts exactly the rows without repetition that are the requests of the blocks, each phase numbered to its own count, when no two blocks share trial and mode; these are the permutations of the plan |
| `StudyCollector.PlannedInOrder` | benchmarks/run_study.py:343-362 | the plan lists, block by block, the warm-up requests from 1 on and then the measured ones from 1 on |
| `StudyCollector.PlannedMembers` | benchmarks/study_analysis.py:338-354 | the plan holds exactly the requests of its blocks |
| `StudyCollector.PlannedDistinctIff` | benchmarks/study_analysis.py:338-354 | a plan repeats an identity iff something is requested and two blocks share trial and mode |
| `StudyCollector.PlannedDistinct` | benchmarks/study_analysis.py:338-354 | a plan whose blocks differ in trial or mode repeats no identity |
| `StudyCollector.ScheduleDistinct` | benchmarks/run_study.py:167-176 | a schedule of distinct modes has such blocks |
| `StudyCollector.ScheduleExact` | benchmarks/run_study.py:167-176 | which block stands at each place: trials from 1, positions from 1, the shuffled modes turned by one place per trial |
| `StudyCollector.CollectThenLoad` | benchmarks/run_study.py:330-363 | what the collector writes for any schedule passes the loader |
| `StudyCollector.ScheduleBalanced` | benchmarks/run_study.py:167-176 | among the blocks of the schedule of any number of trials each mode takes each position floor or ceiling of trials / modes times, and which |
| `RefreshTokens.RotationSafe` | gateway/routes/auth.py:120-166 | over every run no refresh token succeeds twice, and a user's live tokens never exceed the logins of the run since the last detected reuse |
| `RefreshTokens.FamilyIsDead` | gateway/routes/auth.py:136-147 | after a detected reuse no token of that user that existed then ever succeeds again |
| `RefreshTokens.RevokedIff` | gateway/routes/auth.py:136-177 | in every run a token is revoked iff some request rotated it, logged it out, or presented a revoked token of its user |
| `RefreshTokens.InvStep` | gateway/routes/auth.py:94-180 | login, refresh and logout keep the invariant behind both |
| `RefreshTokens.AuthService.LoginUser` | gateway/routes/auth.py:94-117 | a token is issued iff the credentials are right and the account active, it is new and added unrevoked; 401 and 403 otherwise, with nothing changed |
| `RefreshTokens.AuthService.RefreshToken` | gateway/routes/auth.py:120-166 | unknown, revoked, expired and inactive are told apart in this order; a revoked token revokes exactly its user's family; success revokes the presented token, adds a new one and touches nothing else |
| `RefreshTokens.AuthService.LogoutToken` | gateway/routes/auth.py:169-180 | exactly the presented token's row becomes revoked |

## Left out

- The send bound after an acknowledgement has begun: a copy of the message still in another worker's memory may then be replayed with a fresh count.
- The XAUTOCLAIM cursor and the per-consumer ownership of pending entries: a claim may return any idle pending entries, which covers every cursor.
- Time inside one operation: a clock reading and the write that uses it are one action.
- Entry contents in the queue: whether an entry parses, is eligible or can be encoded is an input, except that an expired entry is never eligible.
- ExpressMiddleware.DeleteNestedPath: is stated for trees, because the payload it is called on is always a freshly parsed clone.
- Header handling in the response optimizer other than the markers, the coding and the cache directive: the Vary list, representation headers and cookies would only add easy members.
- Accept-Encoding parsing (section 12.5.3 of RFC 9110): the acceptability of gzip and identity are inputs.
- The decoding of compressed bodies, hashes, sizes and the metadata flag in the study validator: only the fixture, mode and counting logic is modelled.
- The explicit client hints of the network detector (X-Client-RTT, ECT, Save-Data): a table lookup.
- Cache entries written by anything but the gateway: undecodable entries count as absent.
- Transaction isolation below whole handlers in the token tables, and token expiry clean-up, which does not exist.
- HTTP, ASGI and session plumbing, URL and header parsing, DNS discovery, CORS, body limits, metrics, request logs, dashboard, deployment files and legacy benchmark scripts.
- Statistics and charts of the study analysis: library arithmetic.
