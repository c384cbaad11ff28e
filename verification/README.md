# Sutram: a verified model of its protocols

This project models the stateful core of Sutram in Dafny and proves what its services promise
over whole runs. `dafny verify dfyconfig.toml` checks all of it.

## What is modelled

**Durable execution.** `Protocol` is one workflow execution as a transition system: the status
row, the checkpoint rows, the two event streams and the task queue are committed state; workers
and API requests hold what they read earlier, and any worker may die between two steps.
`ProtocolInvariant` is the invariant every step keeps, `ProtocolTheorems` the promises about
steps, checkpoints and events, `ProtocolStreams` what the execution's own stream can lose,
`ProtocolStatus` when the stored status follows the state machine of `StateMachine`,
`ProtocolStarts` exactly when Started events stay within submits, and `ProtocolRecovery` what
re-enqueuing can and cannot achieve. `EventLog`
holds the run records the flat log is made of. `Executor` and `Tasks` are the code itself, a class
over the row, the checkpoints and the streams whose methods are proved to take protocol steps, so
that the theorems hold of the streams it writes. `Runs` says as values what one such run leaves
behind, and `RunOutcomes` derives from it, step by step, how a run ends. `RedisLock` is the lease with its separate GET
and EXPIRE and a clock; `DurableSystem` puts the protocol on that lock and shows that timely
heartbeats make it exclusive. `Recovery` is the recovery scan, `CostTracker` the cost limits.

**Memory.** `Ranking` and `Search` are the per-model truncated queries and the reranker,
`SearchExact` compares them with ranking every matching row, `SearchFields` says which rows come
back under which scores, and `SearchBounds` for which limits the bounds hold. `Compression` and
`CompressionTheorems` are the compression of old items.

**Observability.** `Trace` is the tail sampler and the event handler, `Consumer` the stream
consumer with its acknowledgements.

**Gateway and the rest.** `RateLimiter`, `Idempotency`, `Migration` (checkpoint schema versions)
and `Webhooks` (delivery retries).

## Where the code and its documentation differ

The model follows the code.

- The checkpoint of a step is committed before the step and a run starts after the highest
  checkpoint, so a checkpointed step whose worker died is skipped, not retried as the repository's `README.md:123`
  says. `ProtocolTheorems.CoverageAtCompletion` says exactly which steps are missing.
- Recovery re-enqueues RUNNING rows, but `submit` is legal only from PENDING, so the second worker
  never resumes as the repository's `README.md:331` says: `ProtocolRecovery.OnlyTheApiRevives`.
- Two workers can advance one execution when a heartbeat is late, against the repository's `README.md:137`:
  `RedisLock.LateTakeover`, `DurableSystem.LateWorkerPublishesTwice`.
- Status writes are not guarded by the status they find; a cancel can be overwritten and a
  COMPLETED row restarted. `ProtocolStatus.RunFollowsFsmIff` gives the exact condition.
- RUNNING to CANCELLED is legal in the table although
  `services/workflow-service/tests/unit/engine/test_state_machine.py:59-63` denies it.
- "At most one Started per submit" fails when a worker dies between publishing Started and
  committing RUNNING, or publishes Started from a stale read; `ProtocolStarts.StartedBoundIff` shows
  that nothing else breaks it, and `ProtocolStatus.StartedAccounting` counts exactly.
- The per-execution cost limit holds per run: every run has a fresh tracker. An execution costs at
  most the limit for every run past submit (`Tasks.Serve`), and n runs can cost n times the limit
  (`Tasks.RunsReachTheAllowance`). ExecutionCompleted reports its own run's cost.
- A step whose publication on the global stream raises has been charged without being published, and
  a worker that dies loses the cost of what it published since its last checkpoint (`Runs.RunBalance`).
- An idempotency key that expires under a request in flight admits a second one
  (`Idempotency.AtMostOneInFlightIff`).
- Failed executions are "kept 100%" only if the completion's transaction commits at the first
  try: the buffer and the flag are gone after the flush (`Trace.RetryAfterRollbackIff`).
- With a ttl of 1 second the lock's heartbeat sleeps longer than the lease lasts
  (`RedisLock.RenewableIffTtlAtLeastTwo`).
- The last retry delay of 1800 seconds is never used (`Webhooks.ConfiguredWaiting`).

## Model

| member | source | states |
|---|---|---|
| `ProtocolTheorems.AtMostOnce` | services/workflow-service/app/engine/executor.py:183-218 | Over every interleaving of deliveries, redeliveries, resumes, recoveries, API requests and crashes, a step with `checkpoint_before` is published as completed at most once, on either stream. |
| `ProtocolTheorems.CoverageAtCompletion` | services/workflow-service/app/engine/executor.py:272-288 | When ExecutionCompleted is published, a step is in the log exactly when no run ended between its checkpoint commit and its publication; only checkpointed steps can be missing. |
| `ProtocolTheorems.PublishedXorSkipped` | services/workflow-service/app/engine/executor.py:145-151 | Every step that some run reached was either published or skipped, never both. |
| `ProtocolTheorems.CheckpointLogIsOrdered` | services/workflow-service/app/engine/checkpoint.py:28-61 | Checkpoints of one execution are committed in strictly increasing step order across all runs, so the highest-index row is the last one written. |
| `ProtocolTheorems.EventLogGrammar` | services/workflow-service/app/engine/executor.py:81-88 | The global log is a concatenation of whole run segments (Started, consecutive steps from the run's start, at most one closing event, Completed only after the last step); the execution's own stream is a subsequence of it. |
| `ProtocolStreams.OwnStreamLosses` | services/workflow-service/app/engine/executor.py:81-88 | The execution's own stream is the runs' parts one after the other; a part lacks at most the run's closing event and the event before it, a completed run's part at most the closing event. |
| `ProtocolInvariant.StepKeepsInv` | services/workflow-service/app/engine/executor.py:112-294 | Every protocol step from any state, at every crash point, keeps the invariant that ties run records, checkpoints, both streams and the worker inside the lock together. |
| `ProtocolInvariant.ReachableInv` | services/workflow-service/app/engine/executor.py:112-294 | The invariant holds after every run of the protocol. |
| `ProtocolTheorems.RejectedTaskIsNoOp` | services/workflow-service/app/tasks/execute.py:44-80 | A task that read any status but PENDING changes neither the row, the checkpoints nor a stream, whatever it does. |
| `ProtocolTheorems.OnlyPendingRuns` | services/workflow-service/app/engine/state_machine.py:6-10 | In every run only a worker that had read PENDING ever gets past submit. |
| `ProtocolTheorems.RecoveryEnqueuesAlone` | services/workflow-service/app/engine/recovery.py:35-51 | When the recovery scan enqueues, no other worker is inside the execution's lock. |
| `ProtocolTheorems.HaltStopsWithinOneStep` | services/workflow-service/app/engine/executor.py:171-178 | While the stored status stays PAUSED or CANCELLED at most one more step is published, the one already past its status check. |
| `ProtocolRecovery.OnlyTheApiRevives` | services/workflow-service/app/engine/recovery.py:53-64 | Once a row says RUNNING and no worker that read PENDING is left, no number of redeliveries, recovery scans or crashes changes status, checkpoints, streams or run history; only an API request can. |
| `ProtocolRecovery.CrashStrands` | services/workflow-service/app/engine/executor.py:165-178 | Such a state is reached by a worker that dies right after committing RUNNING, although its task is queued again. |
| `ProtocolRecovery.PauseAndResumeRevive` | services/workflow-service/app/routes/executions.py:115-143 | Pausing and resuming it lets the next worker start right after the last checkpoint. |
| `ProtocolStatus.WriteFollowsFsmIff` | services/workflow-service/app/engine/executor.py:90-110 | A status write keeps the stored status on the transition table iff the status found there is the one it was decided on, its target already, or another source of a cancel. |
| `ProtocolStatus.RunFollowsFsmIff` | services/workflow-service/app/engine/executor.py:152-166 | A whole run keeps the stored status on the transition table iff none of its writes lands on a drifted status. |
| `ProtocolStatus.TerminalIsAbsorbing` | services/workflow-service/app/engine/state_machine.py:6-25 | On such runs a terminal status never changes again. |
| `ProtocolStatus.AbsorbingIff` | services/workflow-service/app/engine/state_machine.py:6-25 | For every run: no step leaves a terminal status iff no write lands on a terminal status other than the one it stores. |
| `ProtocolStatus.SubmitsAreResumes` | services/workflow-service/app/engine/state_machine.py:6-25 | With serialised load and write, committed submits plus a pending row equal committed resumes plus one. |
| `ProtocolStatus.StartedAccounting` | services/workflow-service/app/engine/executor.py:156-165 | Started events are exactly resumes, plus the first submit, plus starts whose RUNNING was never committed. |
| `ProtocolStatus.StartedBound` | services/workflow-service/app/engine/executor.py:156-165 | r resumes give at most r + 1 Started events, if no worker dies between publishing Started and committing RUNNING and Started is published while the row says PENDING. |
| `ProtocolStarts.StartedBoundIff` | services/workflow-service/app/engine/executor.py:156-165 | Exactly when, with serialised load and write: a run never gets beyond r + 1 Started events for r resumes, and no steady continuation from any of its moments does, iff no worker died or gave up between publishing Started and committing RUNNING and none published Started on a row that did not say PENDING. |
| `ProtocolStatus.StartedBoundByCount` | services/workflow-service/app/engine/executor.py:156-165 | The same bound as a count: it holds in a state iff there is no uncommitted start, or just one on a row that says PENDING. |
| `ProtocolStatus.CrashBeforeCommitStartsTwice` | services/workflow-service/app/engine/executor.py:156-165 | A worker that dies between the two makes two Started events come out with no resume at all. |
| `ProtocolStarts.StaleStartExceedsBound` | services/workflow-service/app/engine/executor.py:156-165 | So does a worker that read PENDING before another one committed RUNNING and died. |
| `ProtocolStatus.CompletionOverwritesCancel` | services/workflow-service/app/routes/executions.py:146-169 | A cancel accepted after the last status check is overwritten with COMPLETED. |
| `ProtocolStatus.StaleLoadRestartsCompleted` | services/workflow-service/app/tasks/execute.py:44-48 | A task that read PENDING before another run finished sets a COMPLETED row back to RUNNING. |
| `EventLog.FlattenCounts` | services/workflow-service/app/engine/executor.py:206-218 | A step occurs in the log exactly as often as there are runs that executed it. |
| `StateMachine.ExecutionFSM.Transition` | services/workflow-service/app/engine/state_machine.py:42-51 | A trigger is accepted iff the table has it; a rejected one leaves the status alone. |
| `StateMachine.StuckIffTerminal` | services/workflow-service/app/engine/state_machine.py:6-25 | No trigger is legal exactly in COMPLETED, FAILED and CANCELLED, and only a resume of a PAUSED execution leads to PENDING. |
| `StateMachine.DriveIsPaidFor` | services/workflow-service/app/engine/state_machine.py:6-25 | Length and submits of every accepted trigger sequence, from and to any status, in terms of its resumes. |
| `StateMachine.RunBound` | services/workflow-service/app/engine/state_machine.py:6-25 | From PENDING, r resumes allow at most 3r + 3 transitions and r + 1 submits. |
| `StateMachine.RunBoundIsTight` | services/workflow-service/app/engine/state_machine.py:6-25 | For every r some accepted sequence reaches both bounds. |
| `Executor.Executor.Run` | services/workflow-service/app/engine/executor.py:112-294 | One delivery is a run of the protocol, whatever fails or dies in its steps and whichever API requests come before its status checks and its closing write; and everything it leaves follows from what it met, as `RunOutcomes` spells out: outcome, status, pause reason, the whole context (step index, variables, cost), checkpoint rows, and both streams event by event. |
| `RunOutcomes.SmoothRunFinishes` | services/workflow-service/app/engine/executor.py:167-288 | If from the step after the latest checkpoint on no status check finds PAUSED or CANCELLED, nothing fails or dies and every partial sum of costs is within both limits, the run finishes: COMPLETED, a checkpoint row for every configured step, and on both streams Started, one StepCompleted with name, index and cost per step in order, and Completed with their sum and the number of steps. |
| `RunOutcomes.FirstObstacleDecides` | services/workflow-service/app/engine/executor.py:171-270 | Otherwise the first step where one of these fails ends the run: outcome, paused-at step, status, pause reason, context, checkpoints and both streams for a halted status, a death, a raising body, a breached limit and a failing publication, and the last commit's context when the worker died. |
| `RunOutcomes.FinishesIff` | services/workflow-service/app/engine/executor.py:167-288 | A run finishes iff no step has anything in its way and its worker lives to publish the completion. |
| `Executor.Executor.StepLoop` | services/workflow-service/app/engine/executor.py:167-219 | The loop ends where its values say, which `RunOutcomes.LoopGetsTo` and `LoopStops` decide from the first step with something in its way; it wrote exactly the events, checkpoints and context of the steps it got through, the tracker holds their cost plus that of a step whose publication on the global stream failed, and the last commit is that of the last checkpoint it passed. |
| `Executor.Executor.RunStep` | services/workflow-service/app/engine/executor.py:171-219 | A turn gets through its step iff the status after the requests is neither PAUSED nor CANCELLED, nothing fails or dies, and both limits hold with its cost; checkpoint before the step; a halted, failing or over-budget step charges and publishes nothing, a step whose publication fails is charged. |
| `Executor.Executor.PassCheckpoint` | services/workflow-service/app/engine/executor.py:183-191 | The checkpoint and the context charged so far are committed together, before the step. |
| `Executor.Executor.Die` | services/workflow-service/app/dependencies.py:73-79 | What a dead worker had not committed is lost, and its task is queued again. |
| `Executor.Executor.Publish` | services/workflow-service/app/engine/executor.py:81-88 | Global stream first, then the execution's own, unless that publication raises or the worker dies before it. |
| `Executor.Executor.Open` | services/workflow-service/app/engine/executor.py:138-165 | The run starts right after the latest checkpoint with its variables, publishes Started on both streams and stores RUNNING. |
| `Executor.Executor.Conclude` | services/workflow-service/app/engine/executor.py:221-288 | Cost limit and other exceptions pause the run at the step it stands at; completion reports this run's cost; the closing status overwrites whatever requests made of the row since the last check; a worker that dies instead leaves the last committed context. |
| `Executor.Executor.HandleRequest` | services/workflow-service/app/routes/executions.py:88-169 | Pause, resume and cancel follow the table, answer illegal triggers without effect, and set or clear the pause reason. |
| `Executor.GetLatest` | services/workflow-service/app/engine/checkpoint.py:53-61 | The row with the highest step index, which is the one resume starts after. |
| `Executor.StreamsKeepThePromises` | services/workflow-service/app/engine/executor.py:145-218 | Whenever the streams are those of a reachable state, a checkpointed step is on each at most once. |
| `Tasks.RunTask` | services/workflow-service/app/tasks/execute.py:35-80 | A delivery is dropped iff the row is terminal; a lost lock or a status other than PENDING leaves checkpoints and streams alone; otherwise it is a run of the protocol. |
| `Runs.PublishedKinds` | services/workflow-service/app/engine/executor.py:206-218 | The events a run publishes are consecutive steps. |
| `Runs.RunStartsOnce` | services/workflow-service/app/engine/executor.py:156-164 | A run that passes submit publishes Started exactly once. |
| `Runs.RunBalance` | services/workflow-service/app/engine/executor.py:183-218 | A run adds to the stored cost what it published plus a step it charged but could not publish; if its worker dies, everything published since the last checkpoint it passed is lost from the stored cost. |
| `Tasks.Serve` | services/workflow-service/app/tasks/execute.py:35-80 | After any sequence of deliveries with failing steps, workers dying in the step loop or before their closing event, and API requests before each delivery, between its load and lock, before each status check and before the closing write: the streams the code wrote hold every checkpointed step at most once, and the committed cost has grown by at most the per-execution limit for every Started event. |
| `Tasks.RunsReachTheAllowance` | services/workflow-service/app/engine/executor.py:139-142 | The bound is reached for every limit and every n: n runs with resumes in between cost n times the limit. |
| `CostTracker.CostTracker.Add` | services/workflow-service/app/engine/cost_tracker.py:26-44 | A cost is accepted iff both limits hold afterwards; the execution limit is reported first; a breach changes nothing. |
| `Recovery.RecoveryHandler.TryRecover` | services/workflow-service/app/engine/recovery.py:35-51 | An execution is enqueued iff its lock was free, while the lock is held, and the lock is given back. |
| `Recovery.RecoveryHandler.RunOnce` | services/workflow-service/app/engine/recovery.py:53-64 | A scan enqueues exactly the stale executions found unlocked and leaves everybody else's locks in force. |
| `Recovery.ScanFindsTheUnlocked` | services/workflow-service/app/engine/recovery.py:53-64 | An execution is enqueued by a scan iff the scan found it unlocked at some time. |
| `Recovery.RecoveryIsAnEnqueue` | services/workflow-service/app/engine/recovery.py:35-51 | In the protocol a recovery is one more queued task and nothing else. |
| `RedisLock.LockKey.Acquire` | packages/core/sutram_core/locking/redis_lock.py:45-48 | SET NX EX succeeds iff no unexpired key is there. |
| `RedisLock.LockKey.Renew` | packages/core/sutram_core/locking/redis_lock.py:69-70 | EXPIRE prolongs whatever unexpired key is there, whoever owns it. |
| `RedisLock.LockKey.Release` | packages/core/sutram_core/locking/redis_lock.py:11-17 | The release script deletes only a key that still holds its own token. |
| `RedisLock.OnlyOwnersRelease` | packages/core/sutram_core/locking/redis_lock.py:11-17 | Without any timing assumption: no action but its owner's release takes a visible key away, changes its owner or shortens it. |
| `RedisLock.MutualExclusion` | packages/core/sutram_core/locking/redis_lock.py:28-72 | If every renewal round finishes in time, two clients are never inside together and no acquire succeeds while one is. |
| `RedisLock.FreeIffLate` | packages/core/sutram_core/locking/redis_lock.py:60-72 | When time passes in a timely run, the lock becomes free exactly when some client inside has become late. |
| `RedisLock.RenewableIffTtlAtLeastTwo` | packages/core/sutram_core/locking/redis_lock.py:60-65 | A heartbeat can make its first renewal in time iff the ttl is at least 2. |
| `RedisLock.PunctualIff` | packages/core/sutram_core/locking/redis_lock.py:60-70 | However many times a lone client renews: it holds the lock in time throughout iff each of its rounds, the sleep of max(ttl / 2, 1) seconds included, takes less than the ttl. |
| `RedisLock.ForeignRenewalIsARace` | packages/core/sutram_core/locking/redis_lock.py:66-72 | An EXPIRE hits another client's key only if the lock was taken between it and the GET before it, which had found the own token. |
| `RedisLock.ExclusiveIffTimely` | packages/core/sutram_core/locking/redis_lock.py:28-72 | For every run: in each of its states a client inside keeps everybody else out iff nobody is ever late. |
| `RedisLock.AbandonedKeyExpiresIff` | packages/core/sutram_core/locking/redis_lock.py:60-70 | For every run, whatever the timing: a client's key is always gone ttl after its last renewal by that client iff no other client's EXPIRE ever hits it later than that renewal. |
| `RedisLock.TimelyAbandonedKeyExpires` | packages/core/sutram_core/locking/redis_lock.py:45-58 | So in a timely run a crashed client's key is gone ttl after its last renewal. |
| `RedisLock.LateTakeover` | packages/core/sutram_core/locking/redis_lock.py:63-70 | A client delayed between GET and EXPIRE ends up inside together with the one that took over. |
| `RedisLock.LateExpireProlongsForeignKey` | packages/core/sutram_core/locking/redis_lock.py:69-70 | Its EXPIRE then keeps a dead client's key alive past that client's ttl. |
| `DurableSystem.TimelySystemRefinesProtocol` | services/workflow-service/app/engine/executor.py:134-136 | With timely heartbeats every run on the timed lock is a run of the protocol with exclusive access. |
| `DurableSystem.DurableAtMostOnce` | services/workflow-service/app/engine/executor.py:134-218 | End to end on the timed lock: a step with `checkpoint_before` is published at most once. |
| `DurableSystem.DurableCoverage` | services/workflow-service/app/engine/executor.py:134-288 | End to end on the timed lock: after completion a step is in the log iff no run skipped it. |
| `DurableSystem.LateWorkerPublishesTwice` | services/workflow-service/app/engine/executor.py:134-218 | Without timeliness a stalled worker and the one that took over publish the same checkpointed step. |
| `Search.Rerank` | services/memory-service/app/retrieval/reranker.py:50-64 | The composite score of every candidate, stably sorted, cut to the first top_k. |
| `Search.Run` | services/memory-service/app/retrieval/searcher.py:43-160 | The candidates of every per-model query over items and over summaries, ranked together; `SearchFields` says which rows these are. |
| `Search.CutOffIsFarther` | services/memory-service/app/retrieval/searcher.py:77-78 | What a LIMIT leaves behind is at most as similar as anything it lets through. |
| `Search.OverFetchGap` | services/memory-service/app/retrieval/searcher.py:56-101 | A row cut off by its query beats no result by more than the difference of what recency and frequency can add. |
| `Search.ItemGap` | services/memory-service/app/retrieval/searcher.py:56-101 | With candidate_limit at least top_k, a cut-off item scores at most 0.5 above every result. |
| `Search.TimelessItemGap` | services/memory-service/app/retrieval/reranker.py:43-47 | At most 0.2 when no wanted item is episodic, because none is stored or none was asked for. |
| `Search.SummaryGap` | services/memory-service/app/retrieval/searcher.py:113-140 | At most 0.3 for a cut-off summary when candidate_limit // 2 is at least top_k. |
| `SearchExact.CandidatesAndLeft` | services/memory-service/app/retrieval/searcher.py:44-155 | Candidates and rows left behind make up all matching rows of both tables, none lost and none twice, above every score. |
| `SearchExact.NearExact` | services/memory-service/app/retrieval/searcher.py:34-160 | With top_k at most half the limit: as many results as exact ranking over everything gives, and rank by rank a score at most the exact one and at most 0.5 below it. |
| `SearchExact.ExactWhenNothingIsCut` | services/memory-service/app/retrieval/searcher.py:34-160 | If no query hits its limit the result has the exact length and scores. |
| `SearchExact.FoundIsMatching` | services/memory-service/app/retrieval/searcher.py:73-76 | Every result is a row that exact ranking would consider, of the requesting tenant, under its own score. |
| `SearchFields.FoundInFields` | services/memory-service/app/retrieval/searcher.py:53-87 | Every result is an uncompressed item of the tenant, of a requested type if any was requested, or one of its summaries; its score is 0.6 similarity + 0.3 recency (1 unless episodic) + 0.1 of the access term capped at 2. |
| `SearchFields.CandidateOrLeftIff` | services/memory-service/app/retrieval/searcher.py:43-155 | Exactly these rows are candidates or were left behind by their query's limit. |
| `SearchFields.FoundIsThePrefix` | services/memory-service/app/retrieval/reranker.py:63-64 | The results are the first top_k of all candidates in descending order of score; a negative top_k drops that many from the end. |
| `SearchExact.ItemGapIsTight` | services/memory-service/app/retrieval/reranker.py:50-64 | The 0.5 is reached. |
| `SearchExact.SummaryGapNeedsHalfTheLimit` | services/memory-service/app/retrieval/searcher.py:139 | With top_k above half the limit a summary can be lost by 1.5. |
| `SearchBounds.ItemBoundIff` | services/memory-service/app/retrieval/searcher.py:60-87 | The 0.5 for items holds for all stored data iff top_k is at most candidate_limit, or the limit is 0. |
| `SearchBounds.SummaryBoundIff` | services/memory-service/app/retrieval/searcher.py:118-141 | The 0.3 for summaries holds for all stored data iff top_k is at most candidate_limit // 2, or the limit is 0. |
| `Ranking.SortIsStable` | services/memory-service/app/retrieval/reranker.py:63 | Elements with the same score keep the order they came in. |
| `Ranking.FilterSort` | services/memory-service/app/retrieval/reranker.py:63 | Sorting and filtering commute. |
| `Ranking.SortFacts` | services/memory-service/app/retrieval/reranker.py:63 | The sort is a permutation in descending order. |
| `Trace.TailSampler.Flush` | services/observability-service/app/sampling/tail_sampler.py:67-73 | Returns the buffered spans and removes buffer and failure flag of that execution only. |
| `Trace.TailSampler.ShouldKeep` | services/observability-service/app/sampling/tail_sampler.py:58-65 | Kept iff a failure is flagged, the duration is above the threshold, or the draw is below the rate. |
| `Trace.EventHandler.HandleEvent` | services/observability-service/app/consumer/handler.py:34-123 | The code's effect on Redis and on both tables is the specified one for every event. |
| `Trace.Demultiplexing` | services/observability-service/app/consumer/handler.py:50-104 | However many executions interleave, rows, buffer and flag of one are those of its events alone. |
| `Trace.RedeliveryIndependence` | services/observability-service/app/sampling/tail_sampler.py:42-51 | Any order and multiplicity of span deliveries before the completion gives the same rows. |
| `Trace.KeptTrace` | services/observability-service/app/consumer/handler.py:81-104 | For any deliveries of an execution before its completion, paused and resumed or redelivered: kept iff a step failed, it was slow, or drawn; then one completion row and one row per distinct span key, that of the key's last delivery; buffer and flag are gone. |
| `Trace.SameFieldIff` | services/observability-service/app/consumer/handler.py:53-74 | Two spans overwrite each other iff both are Started, or both completed or both failed with the same step index. |
| `Trace.KeptTraceBySteps` | services/observability-service/app/consumer/handler.py:81-104 | A kept trace is one completion row, one for Started if delivered, one per completed index and one per failed index, each the last delivery's; a dropped one is none. |
| `Trace.AuditTrail` | services/observability-service/app/consumer/handler.py:50-129 | Every delivery but those of completed steps leaves one audit entry of its kind and execution, in order. |
| `Trace.SameRowsIff` | services/observability-service/app/consumer/handler.py:81-104 | Two streams of deliveries give the same rows iff both are dropped, or both are kept and agree on the last payload under every span key. |
| `Trace.RedeliveredCompletion` | services/observability-service/app/consumer/loop.py:86-92 | A completion handled again after its transaction committed adds one more completion row exactly when it is slow or drawn, and never a span row. |
| `Trace.RetryAfterRollbackIff` | services/observability-service/app/consumer/handler.py:81-104 | When the transaction fails after the flush, the redelivered completion writes the right rows iff there was nothing to lose. |
| `Consumer.ConsumerLoop.ProcessOne` | services/observability-service/app/consumer/loop.py:71-95 | Which attempts raise; any other commits if it is known and its transaction succeeds, and is acked, no longer pending, if that happened or its type is unknown, and the ack succeeds. |
| `Consumer.ConsumerLoop.RunBatch` | services/observability-service/app/consumer/loop.py:55-57 | The batch up to the first message that raises is processed and counted: newly acked and committed are exactly the messages with such an attempt; the rest stays pending. |
| `Consumer.BatchIsProcessed` | services/observability-service/app/consumer/loop.py:71-95 | A message of a batch is newly acked, and no longer pending, iff an attempt of it before the first raising one had a successful ack and was of unknown type or known with a successful transaction; newly committed iff one was known with a successful transaction. |
| `Consumer.TurnIsProcessed` | services/observability-service/app/consumer/loop.py:45-130 | The same for reading new messages and for reclaiming pending ones, up to any crash point. |
| `Consumer.ReachableAckSafe` | services/observability-service/app/consumer/loop.py:45-130 | In every reachable state the delivered messages split into acked and pending, every acked one was committed or of unknown type, and no turn takes an ack or commit back. |
| `RateLimiter.RateLimiter.Check` | packages/core/sutram_core/middleware/rate_limit.py:46-54 | One increment of the tenant's counter for this minute, and the verdict on it. |
| `RateLimiter.RateLimiter.CheckAll` | packages/core/sutram_core/middleware/rate_limit.py:46-54 | The verdicts of a whole sequence of checks. |
| `RateLimiter.CountersAreExact` | packages/core/sutram_core/middleware/rate_limit.py:10-16 | A counter never expires inside its own minute, so it equals the tenant's calls in it, and it is gone two minutes later. |
| `RateLimiter.VerdictIsByCount` | packages/core/sutram_core/middleware/rate_limit.py:46-54 | A call passes iff fewer than limit calls of the tenant came earlier in its window. |
| `RateLimiter.VerdictByEarlier` | packages/core/sutram_core/middleware/rate_limit.py:46-54 | Of any calls the i-th passes iff the tenant made fewer than limit calls before it in the same clock minute. |
| `RateLimiter.WindowIsExact` | packages/core/sutram_core/middleware/rate_limit.py:25-37 | In every window a tenant gets exactly min(limit, calls) calls through. |
| `RateLimiter.IntervalBound` | packages/core/sutram_core/middleware/rate_limit.py:31-35 | Any half-open interval of at most k minutes admits at most (k + 1) * limit calls. |
| `RateLimiter.TwiceTheLimitInAMinute` | packages/core/sutram_core/middleware/rate_limit.py:31-33 | The bound is reached: twice the limit within one minute. |
| `Idempotency.ScopedKeysAreDistinct` | services/api-gateway/app/routes/proxy.py:97-98 | A scoped key determines tenant and key. |
| `Idempotency.IdempotencyStore.CheckAndStore` | packages/core/sutram_core/middleware/idempotency.py:17-26 | Duplicate iff the key was stored; stored afterwards. |
| `Idempotency.ProxyPost` | services/api-gateway/app/routes/proxy.py:107-152 | One POST: conflict for a known key, otherwise the downstream's answer, the key surviving unless the answer is a server error. |
| `Idempotency.AtMostOneInFlight` | services/api-gateway/app/routes/proxy.py:124-152 | Under any interleaving and however often keys expire: as long as the key never expires under a live request, at most one request with it is downstream. |
| `Idempotency.AtMostOneInFlightIff` | services/api-gateway/app/routes/proxy.py:124-152 | Exactly when: a run can at no moment be continued to two live requests with a key iff the key never expired while a request with it was live. |
| `Idempotency.ForwardsAreSeparated` | services/api-gateway/app/routes/proxy.py:147-150 | Two forwards of one key are separated by the earlier one's 5xx and its delete, or by an expiry of the key. |
| `Idempotency.AtMostOneSuccess` | services/api-gateway/app/routes/proxy.py:147-150 | After one answer below 500 nothing further happens under that key until it expires. |
| `Idempotency.ExpiryAdmitsASecond` | packages/core/sutram_core/middleware/idempotency.py:17-24 | Whenever a live request has lost its key, the next request with it is let through beside it. |
| `Idempotency.RetryIffServerError` | services/api-gateway/app/routes/proxy.py:147-150 | After an answer the next request with the key is forwarded if it was a 5xx and the key was deleted, and refused if it was not; the key is deleted in no other case. |
| `Compression.Compressor.CompressTenant` | services/memory-service/app/compression/compressor.py:35-107 | The oldest due batch becomes one summary and is marked; a failing summariser leaves everything as it was; no other item changes, in particular none at or above the threshold. |
| `Compression.BatchFacts` | services/memory-service/app/compression/compressor.py:45-56 | A batch names live items of the tenant, not compressed, not kept for ever and older than the threshold, each once. |
| `Compression.QueueIsDue` | services/memory-service/app/compression/compressor.py:45-56 | Exactly the live items of the tenant that are not compressed, not kept for ever and older than the threshold are queued, oldest first. |
| `Compression.CompressedAreDue` | services/memory-service/app/compression/compressor.py:45-105 | One call sets the flag of due items only; one it leaves was shut out by a full batch of items at least as old. |
| `CompressionTheorems.ReachablePartition` | services/memory-service/app/compression/compressor.py:42-107 | After any serial mix of inserts, deletes and compressions the summaries partition the compressed items. |
| `CompressionTheorems.SummariesPartitionCompressed` | services/memory-service/app/compression/compressor.py:65-105 | Summaries are pairwise disjoint; a live item is compressed iff a summary names it, only summaries of its own tenant do, and forever items never are. |
| `CompressionTheorems.CompressDropsTheOldest` | services/memory-service/app/compression/compressor.py:45-56 | One call removes exactly the first batch of the tenant's age-ordered queue. |
| `CompressionTheorems.DrainsOldestFirst` | services/memory-service/app/compression/compressor.py:45-107 | With a fixed threshold and no writes the queue drains oldest first, completely, in ceil(n / batch) non-empty calls. |
| `Migration.MigrateToCurrent` | packages/core/sutram_core/models/checkpoint.py:27-35 | The loop's result is the applicable migrators applied in version order, and the version after the last. |
| `Migration.AppliesEachInOrder` | packages/core/sutram_core/models/checkpoint.py:27-35 | The result is what the migrators of all registered versions from the given one on make of the variables, one after the other in increasing order, and the version is the last of them plus one. |
| `Migration.EndsPastLargest` | packages/core/sutram_core/models/checkpoint.py:31-34 | It ends one past the largest key, or unchanged if none applies. |
| `Migration.Idempotent` | packages/core/sutram_core/models/checkpoint.py:27-35 | Migrating twice is migrating once. |
| `Migration.StagesComposeIff` | packages/core/sutram_core/models/checkpoint.py:31-34 | Two stages apply the same migrators as one iff the larger registry added none below the smaller one's end. |
| `Migration.StagedMigration` | packages/core/sutram_core/models/checkpoint.py:27-35 | In that case an older registry followed by a newer one gives the same variables and version as the newer one alone. |
| `Webhooks.DeliveryRow.Deliver` | services/workflow-service/app/webhooks/tasks.py:34-97 | One attempt: the row's new status, count and code, and the countdown. |
| `Webhooks.DeliveryRow.DeliverWebhook` | services/workflow-service/app/webhooks/tasks.py:25-31 | The retried task's final row, attempts and total countdown. |
| `Webhooks.DeliveryTerminates` | services/workflow-service/app/webhooks/tasks.py:83-97 | For any table of n >= 1 delays and any answers: at most n attempts, all counted, a final status decided by the first success or missing subscription, and waiting at most the first n - 1 delays. |
| `Webhooks.OutcomeFrom` | services/workflow-service/app/webhooks/tasks.py:83-97 | From any attempt on: status, attempts and waiting are those of the first success, the first missing subscription, or the last attempt. |
| `Webhooks.DeliveryLeaves` | services/workflow-service/app/webhooks/tasks.py:44-97 | The whole final row, response code included, by the first attempt that does not fail or the last one; a later delivery of the task leaves a delivered or dead-lettered row alone. |
| `Webhooks.ConfiguredWaits` | services/workflow-service/app/webhooks/tasks.py:16 | With the configured delays a delivery ending at its first to fifth attempt waits 0, 1, 6, 36 or 336 seconds. |
| `Webhooks.ConfiguredWaiting` | services/workflow-service/app/webhooks/tasks.py:16 | At most 336 seconds of waiting, reached iff the first four attempts fail: the last delay is never used. |

## Left out

- SQLAlchemy, Postgres, Redis and Celery internals: there are committed and uncommitted state, atomic commands, keys with expiry and a task count, but no row locks, row-level security, stream trimming or broker scheduling.
- Failing commits and flushes: in the protocol they are a worker leaving or raising; a commit whose outcome the worker does not learn is not distinguished.
- Executor.Executor.Run: faults are those of a step's body and of its two publications, and a worker's death in the step loop or before its closing event; failing status reads and checkpoint writes, and failures or deaths during the opening and closing publications, are in the protocol model only.
- Tasks.Serve: deliveries come one after the other, each finding the lock free; concurrent deliveries are in the protocol model only.
- Other executions: one execution's protocol is modelled; its global log stands for its own events on the shared stream.
- The fallback to the live definition when the snapshot is empty: the definition is fixed for all runs of an execution.
- A deleted execution or workflow, 404 answers, tenant checks of the routes: plain lookups.
- Heartbeat timestamps, the stale query and error messages: any execution may be found stale at any time.
- Progress of recovery and of the consumer: only safety is stated, and for stranded executions that there is no progress.
- An EXPIRE already sent when the heartbeat is cancelled: cancellation is taken to happen before the release script.
- Recovery.RecoveryHandler.RunOnce: does not model other clients taking locks during the scan; the protocol does.
- Floating point, exp and log: scores and costs are reals, recency lies in [0, 1], the access term is not negative; one clock reading per ranking.
- HNSW approximation: ORDER BY with LIMIT is exact, ties in table order.
- The memory query cache and access-count updates: its key omits top_k, so agreement with a fresh search is not a property of the code.
- Expiry of trace buffers and flags, Prometheus metrics, memory events: not needed for the trace rows. Rows are a multiset because a Redis hash has no order the code relies on.
- Event serialisation and parsing: the models start from typed events; a malformed message is one that raises.
- RateLimiter.RateLimiter.Check: the key expires by the caller's clock; calls may come at any times, so drifting clocks are covered except for the key's own expiry.
- Idempotency.ProxyPost: endpoint and method matching and the rate limit before it are left out; it is the path of a protected POST.
- Idempotency.AtMostOneInFlight: a request that broke off at the gateway no longer counts, although the downstream may still work on it; requests without a key are not counted.
- Expiry in the idempotency model is a step that may happen at any time, not a clock.
- Key formats of locks, counters and buffers are values, not strings, except the scoped idempotency key.
- The text of summaries, embeddings and S3 archiving: whether the summariser succeeds is an input.
- Concurrent compressions of one tenant: the histories are serial.
- Migration.MigrateToCurrent: migrators are total functions; one that raises is not modelled.
- Secret decryption, signing, URL checks and broker redelivery of webhooks: a response code or no active subscription is the input.
- JWT, HMAC and AES code, the SSE stream, header rewriting, LLM calls, settings, ORM declarations, health and list routes: foreign calls or declarations.
