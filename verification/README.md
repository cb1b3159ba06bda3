# InveniOps: a verified model of the incident pipeline

InveniOps turns floods of failure signals into few tracked work items. This project models the
backend pipeline behind that promise and proves its central guarantees with Dafny 4.11. Check it with
`dafny verify dfyconfig.toml`.

How the model is built:

- Wherever the source awaits something, other workers may run. Those protocols are state machines: a
  `State`, an `Action` for each await that resolves (and for each fault: lost acknowledgement, rollback,
  rejection, expiry, crash), a total `Step`, and `Run` over any sequence of actions. The theorems hold for
  every sequence.
- Objects that the source updates in place are classes (`RingBuffer`, `SignalBuffer`, `SignalDebouncer`,
  `PostgresWorkItemRepository`, `WorkflowService`, `DashboardService`, `SignalRepository`, `Histogram`, and
  the two `Redis` classes). Their methods are proved against functions on values, and the theorems are about
  those functions and the runs made of them.
- Postgres contributes an atomic guarded update, unique indexes and transaction rollback; Redis contributes
  single commands and one atomic script; Mongo contributes single document writes behind a unique index.
- Tokens, fill fractions and metric values are real numbers.

| files | what they model |
|---|---|
| `DebounceProtocol`, `DebounceBudget`, `DebounceTight`, `DebounceReports`, `DebounceFreshness`, `DebounceWaiting`, `DebounceSolo` | the debouncer: sessions, lossy locks, the partial unique index, who is told of a creation, how old a link can be, who may ask the store |
| `RingBuffer`, `BufferModel`, `BufferRuns`, `SignalBuffer` | the ingestion buffer: lanes, watermarks, ceilings, eviction, drop tables, draining |
| `TokenBucket` | the two-bucket rate limiter and Retry-After |
| `RcaRules`, `Lifecycle`, `LifecycleRequests`, `WorkflowService`, `Retrying` | the state graph, the RCA validator, the guarded transactions, their retries, and which request each record comes from |
| `Ordering`, `Dashboard`, `DashboardRuns` | the sorted-set cache of active incidents against the plain query |
| `IdempotentInsert` | the bulk insert that may be repeated |
| `Escalation`, `EscalationDelivery`, `Suppression` | escalating overdue items once, what becomes of a claim, and alert claims |
| `Histogram`, `PrometheusText`, `PrometheusRoundTrip`, `PrometheusGrammar`, `PrometheusLayout`, `MetricsPage`, `MetricsLookup`, `MetricsDiff`, `Decimals` | the metrics page, its parser, what each lookup on a page returns, and the difference of two scrapes |
| `Options`, `Severities`, `JsText`, `JsNumbers` | shared helpers |

Where the source's comments and its code differ, the model follows the code and the difference is a theorem:

- The page printer spells a line feed as `\n` but the parser never turns that back, and a `}` inside a label
  value makes the parser drop the line: `PageRoundTrip`, `MetricsRoundTrip` and `EscapeRoundTrip` give the
  exact condition.
- With capacity zero a P0 is reported accepted although it is stored nowhere: `Conservation` gives the exact
  condition.
- The expiry of an escalation key is called a safety net, but it decides: `OnceExactly` says for exactly which
  timings an item is escalated at most once.
- A retry after a lost acknowledgement is told of a conflict with the caller's own commit
  (`LostAckReadsAsConflict`), and then nobody is ever told of winning that edge: `WinnersAreTold` is exact.
- A bucket's key need only outlive its refill, says the comment on the key's lifetime; but the refill is reckoned
  by the callers' clocks and the lifetime by Redis's. With clocks within d ms of one offset, the rate bound holds on
  every trace exactly when `max(0, ttl - d/1000) * rate >= capacity` (`RateBoundExactly`), and the same lifetimes are
  exactly those under which no reply shows that keys expire (`ExpiryHiddenExactly`).
- `created: true` is said to appear once for each item. It never appears twice, but it may not appear at all:
  `CreatedIsReported` says for exactly which runs it appears once.
- The numeric dashboard score orders correctly only in a range of timestamps: `RangeIsNeeded`.
- The unreachable-cache list is the same list exactly when no two active items tie: `SameListExactly`.

## Model

| member | source | states |
|---|---|---|
| DebounceProtocol.DebounceIsSafe | backend/src/services/ingestion/debouncer.ts:128-202 | for any number of workers and any interleaving of reads, bumps, lock grants and losses, finds, inserts, lost acknowledgements, seeds, expiries and closes: one active item per component, every session and every result names an item of its own component, an item is reported created at most once and only by the worker whose insert committed it; no clock is shared, each reading may be of another process's |
| DebounceProtocol.RunIsSafe | backend/src/services/ingestion/debouncer.ts:128-202 | the inductive form: every run from a safe state stays safe |
| DebounceProtocol.StepSafe | backend/src/services/ingestion/debouncer.ts:128-249 | every single action of workers, clock, Redis and callers keeps safety, the lock playing no part; among them commits and Redis writes whose reply is lost |
| DebounceProtocol.InsertSafe | backend/prisma/migrations/20260723151018_add_active_component_unique_index/migration.sql:9-9 | the partial unique index is what keeps one active item per component, and a new row's id has never been reported |
| DebounceProtocol.FirstActive | backend/src/repositories/postgres/workItemRepository.ts:110-115 | the row found is active and of the component; none is found only if there is none |
| DebounceBudget.SeedingServesAtMost | backend/src/services/ingestion/debouncer.ts:216-249 | with k workers one seeded session serves at most threshold + k - 1 links, although check and increment are two commands |
| DebounceBudget.RunKeepsBudget | backend/src/services/ingestion/debouncer.ts:128-249 | served links plus workers still entitled to one never exceed that budget on any run |
| DebounceBudget.BumpKeepsBudget | backend/src/services/ingestion/debouncer.ts:242-249 | an increment turns one entitled worker into one served link, even when the session has expired or been replaced meanwhile |
| DebounceBudget.CountOnlyNeverTrusted | backend/src/services/ingestion/debouncer.ts:216-234 | a hash that a late increment has recreated with a count alone is never trusted until somebody seeds it |
| DebounceTight.BudgetIsReached | backend/src/services/ingestion/debouncer.ts:216-249 | for every positive threshold and window and every number of workers some run reaches the bound, so it is exact |
| DebounceTight.ZeroServesNobody | backend/src/services/ingestion/debouncer.ts:216-234 | with threshold zero no seeding ever serves a link |
| DebounceReports.CreatedIsReported | backend/src/services/ingestion/debouncer.ts:172-202 | once all workers are at rest, every item has been reported created exactly once, exactly on the runs in which no insert committed without its reply and no await was rejected between an insert and its result |
| DebounceFreshness.LinksAreFresh | backend/src/services/ingestion/debouncer.ts:128-249 | on every run, each link returned is of a resolve in which the worker found the item active in the store, or judged a session it had read: count below the threshold and stamped less than a window before, the stamp taken by a worker that had found the item active; only the store makes a link that claims a creation |
| DebounceFreshness.BumpsWereJudged | backend/src/services/ingestion/debouncer.ts:216-234 | on every run, a worker that increments a count has judged that session when its count was below the threshold and its stamp less than a window old |
| DebounceWaiting.StoreIsAskedInTurn | backend/src/services/ingestion/debouncer.ts:137-170 | on every run, a worker that asks the store was granted the lock in this resolve while nobody held it, or was refused it and has since seen the clock at least the waiting time later |
| DebounceSolo.ResolveAloneIsRun | backend/src/services/ingestion/debouncer.ts:128-202 | an undisturbed resolve is one run of the protocol, on the fast path and on the store path |
| DebounceSolo.ResolveAloneExactly | backend/src/services/ingestion/debouncer.ts:128-249 | undisturbed: a seeded session below the threshold and inside the window is linked and counted and the store left alone; otherwise, in particular from a window after the last seeding on, the store is visited, the link is active, created exactly when nothing was, and the session starts anew |
| DebounceSolo.WaitingEnds | backend/src/services/ingestion/debouncer.ts:155-170 | a worker that is refused the lock and sees no usable session resolves from the store once the waiting time is over |
| DebounceSolo.WaiterTakesSession | backend/src/services/ingestion/debouncer.ts:205-214 | a worker that finds a usable session while waiting links its item and leaves the store alone |
| DebounceSolo.LoserLinksToWinner | backend/src/services/ingestion/debouncer.ts:182-201 | a worker whose insert conflicts links to the active item, claims no creation, adds no row and seeds the session |
| DebounceSolo.WinnerGone | backend/src/services/ingestion/debouncer.ts:190-198 | if that item has been closed meanwhile the resolve fails and gives its lock back |
| DebounceSolo.BurstCost | backend/src/services/ingestion/debouncer.ts:115-135 | one worker, n signals of one component inside the window: exactly ceil(n / (threshold + 1)) store visits, whatever the pauses |
| DebounceSolo.BatchCost | backend/src/services/ingestion/debouncer.ts:115-121 | the same for one batch |
| DebounceSolo.BurstVisits | backend/src/services/ingestion/debouncer.ts:128-135 | the same from any starting session, counting what it can still serve |
| DebounceSolo.SignalDebouncer.Resolve | backend/src/services/ingestion/debouncer.ts:128-135 | the imperative resolve reaches the state and result of the undisturbed run |
| DebounceSolo.SignalDebouncer.ResolveFromStore | backend/src/services/ingestion/debouncer.ts:172-202 | links the active item or creates one, and seeds the session with it |
| DebounceSolo.SignalDebouncer.ReadValidSession | backend/src/services/ingestion/debouncer.ts:216-234 | returns the hash's item exactly when the hash names one, its count is below the threshold and the clock is less than a window past its stamp |
| DebounceSolo.SignalDebouncer.ResolveBatch | backend/src/services/ingestion/debouncer.ts:115-121 | results come in signal order, each for its own component |
| RingBuffers.RingBuffer.Push | backend/src/services/ingestion/buffer.ts:119-127 | appends unless full, over all wraps |
| RingBuffers.RingBuffer.PopOldest | backend/src/services/ingestion/buffer.ts:129-138 | removes and returns the oldest item, over all wraps |
| RingBuffers.RingBuffer.PopBatch | backend/src/services/ingestion/buffer.ts:140-150 | takes the oldest min(maxItems, size) items in order |
| RingBuffers.LaysPush | backend/src/services/ingestion/buffer.ts:119-127 | the slot written is the one where the FIFO contents end |
| RingBuffers.LaysPop | backend/src/services/ingestion/buffer.ts:129-138 | the head slot is the oldest item, and moving the head on leaves the rest laid out |
| BufferModel.SubmitDecision | backend/src/services/ingestion/buffer.ts:224-248 | exactly who is accepted, shed and refused, in terms of what the buffer holds and of each severity's share of the capacity: a non-P0 signal is shed exactly when shedding and one more in its lane would exceed capacity times its fraction |
| BufferModel.UrgencyDecidesWhoIsShed | backend/src/services/ingestion/buffer.ts:227-234 | in a deployed configuration a less urgent severity never has more room than a more urgent one |
| BufferModel.RejectionOnlyCounts | backend/src/services/ingestion/buffer.ts:224-243 | a rejection changes nothing but its drop counts |
| BufferModel.AcceptanceAppends | backend/src/services/ingestion/buffer.ts:236-277 | an accepted signal joins the back of its lane; only in a full buffer does one other item leave, the head of the lowest non-empty lane, and it is counted; the ignored push result is always true |
| BufferModel.Victim | backend/src/services/ingestion/buffer.ts:259-265 | the evicted lane is non-empty and every less urgent lane is empty |
| BufferModel.P0EvictedOnlyAlone | backend/src/services/ingestion/buffer.ts:250-277 | a P0 is evicted only when P0 alone fills the whole capacity |
| BufferModel.PopIsPriorityPrefix | backend/src/services/ingestion/buffer.ts:296-305 | a batch is the P0-to-P3 concatenation of lane prefixes, the lanes keep the suffixes, and its length is min(maxItems, total) |
| BufferModel.TakenByPriority | backend/src/services/ingestion/buffer.ts:296-305 | a lane gives an item only when every more urgent lane is emptied |
| BufferRuns.Conservation | backend/src/services/ingestion/buffer.ts:224-335 | per severity, submitted = buffered + in flight + delivered + dropped on every run with submits between a batch's pop and its settlement, exactly unless the capacity is zero and a P0 was submitted |
| BufferRuns.ReachableBuffer | backend/src/services/ingestion/buffer.ts:106-335 | on every run: total within capacity, everything popped from a lane followed by its contents is what the lane accepted in order, and both one-way drop tables are the margins of the cross table |
| BufferRuns.RunKeepsInv | backend/src/services/ingestion/buffer.ts:224-335 | the inductive form of both, together with P0 never shed |
| BufferRuns.RunKeepsWatermarks | backend/src/services/ingestion/buffer.ts:285-294 | normal implies fill below the high mark and shedding implies fill above the low mark |
| BufferRuns.Hysteresis | backend/src/services/ingestion/buffer.ts:285-294 | between the marks the state sticks |
| BufferRuns.SheddingExactly | backend/src/services/ingestion/buffer.ts:285-294 | on every run of a deployed configuration, after every action: shedding exactly if the items held reach high * capacity, or it was shedding and they still exceed low * capacity |
| BufferRuns.HardRejectionOnlyWhileShedding | backend/src/services/ingestion/buffer.ts:236-243 | a hard-capacity rejection happens only while shedding, on every run of a deployed configuration |
| BufferRuns.SheddingBoundsLanes | backend/src/services/ingestion/buffer.ts:227-234 | within one shedding period a non-P0 lane never exceeds the larger of its size at onset and its share of the capacity |
| BufferRuns.P0Guarantee | backend/src/services/ingestion/buffer.ts:227-277 | on every run a P0 submit is accepted at the back of its lane, none is ever shed, a P0 leaves only when P0 alone fills the buffer, and every other eviction takes the oldest of the lowest non-empty severity |
| SignalBuffers.SignalBuffer.Submit | backend/src/services/ingestion/buffer.ts:224-248 | the object's submit follows the submit function on its whole value |
| SignalBuffers.SignalBuffer.EvictToMakeRoomForP0 | backend/src/services/ingestion/buffer.ts:259-277 | removes the head of the victim lane and counts it, nothing else |
| SignalBuffers.SignalBuffer.PopPriorityBatch | backend/src/services/ingestion/buffer.ts:296-305 | the loop over the lanes yields the priority batch and leaves the suffixes |
| SignalBuffers.SignalBuffer.BeginDrain | backend/src/services/ingestion/buffer.ts:313-320 | up to the await, a drain pops one batch and recomputes the state |
| SignalBuffers.SignalBuffer.FailBatch | backend/src/services/ingestion/buffer.ts:325-333 | a failing sink counts every signal of the batch as dropped |
| SignalBuffers.SignalBuffer.DrainToSink | backend/src/services/ingestion/buffer.ts:313-335 | the numbers reported are the batch length, under the outcome the sink gave |
| SignalBuffers.SignalBuffer.DrainAll | backend/src/services/ingestion/buffer.ts:375-387 | processed and remaining add up to what was there, unless the deadline fires everything goes, and what failed is what was counted as sink failures |
| TokenBuckets.RateBound | backend/src/rateLimit/tokenBucket.ts:14-59 | for either bucket and any trace, keys expiring or not, admitted cost is at most capacity + rate times the forward steps of the request clock, even if that clock goes back; an expiring store need only let this one key lapse, between one request on it and the next, when the request clock has seen it fill up |
| TokenBuckets.RateBoundElapsed | backend/src/rateLimit/tokenBucket.ts:14-59 | hence capacity + rate times elapsed for a nondecreasing clock |
| TokenBuckets.RateBoundUnderSkew | backend/src/rateLimit/tokenBucket.ts:14-59 | the rate bound of one expiring bucket when the clocks disagree by at most d ms and max(0, ttl - d/1000) * rate >= capacity for that bucket, whatever the request clock and the other buckets do |
| TokenBuckets.SkewIsPaced | backend/src/rateLimit/tokenBucket.ts:56-59 | on every such trace that bucket's key never lapses before it is due to be full: the safe half of the next two rows |
| TokenBuckets.RateBoundExactly | backend/src/rateLimit/tokenBucket.ts:14-59 | over all deployments in which a bucket has given limits and lifetime, all traces and all offsets: every trace with clocks within d ms keeps that bucket's rate bound if and only if max(0, ttl - d/1000) * rate >= capacity; otherwise two requests spend the capacity twice |
| TokenBuckets.ExpiryHiddenExactly | backend/src/rateLimit/tokenBucket.ts:56-59 | the same condition is exactly the one under which, for two buckets of one size, no trace has a reply that shows that keys expire |
| TokenBuckets.RunBounded | backend/src/rateLimit/tokenBucket.ts:37-59 | tokens stay within [0, capacity] over every trace, whatever the clocks do |
| TokenBuckets.AllOrNothing | backend/src/rateLimit/tokenBucket.ts:37-61 | allowed exactly when both buckets can pay; then both lose exactly the cost, otherwise neither does, and no other key changes; the address bucket is named exactly when it cannot pay, the global one exactly when it alone cannot |
| TokenBuckets.ForgettableExactly | backend/src/rateLimit/tokenBucket.ts:56-59 | with one clock, losing an idle key is invisible for every bucket exactly when ttl * rate >= capacity |
| TokenBuckets.LapseShowsExactly | backend/src/rateLimit/tokenBucket.ts:56-59 | with two clocks, one lapse is invisible for every token count exactly when the request clock has seen the bucket fill up |
| TokenBuckets.ExpiryUnobservable | backend/src/rateLimit/tokenBucket.ts:14-59 | if no key lapses before it is due to be full, whole traces get the same replies and store with and without expiry, from any bounded store; for which lifetimes every trace does is `ExpiryHiddenExactly` |
| TokenBuckets.RefillComposes | backend/src/rateLimit/tokenBucket.ts:14-24 | refilling over two intervals is refilling over both at once, through the cap |
| TokenBuckets.DeniedRequestsInvisible | backend/src/rateLimit/tokenBucket.ts:14-59 | with nondecreasing timestamps, keys expiring or not, deleting any subset of the denied requests leaves every other decision and both remaining-token values unchanged; expiring keys must keep pace in the longer and in the shorter trace |
| TokenBuckets.DeniedRequestsInvisibleUnderSkew | backend/src/rateLimit/tokenBucket.ts:14-59 | the same for expiring keys under the condition on clocks and lifetimes alone |
| TokenBuckets.RetryAfterIsLeast | backend/src/rateLimit/tokenBucket.ts:120-130 | the reported seconds are the least after which the denying bucket can pay; one second less fails, and a cost above capacity is never payable |
| TokenBuckets.RetryAfterHolds | backend/src/rateLimit/tokenBucket.ts:120-130 | the same after any trace of requests denied on that bucket, which rewrite it, and with a key that may lapse meanwhile if it keeps pace, whatever the other keys do |
| TokenBuckets.SecondsPay | backend/src/rateLimit/tokenBucket.ts:120-130 | the deficit is covered after s whole seconds exactly when s is at least the reported number |
| TokenBuckets.Redis.CheckTokenBuckets | backend/src/rateLimit/tokenBucket.ts:26-61 | the script's assignments and two hash writes are the check function |
| TokenBuckets.Redis.RefillKey | backend/src/rateLimit/tokenBucket.ts:14-24 | the script's local refill on a live, expired or absent key |
| RcaRules.ValidExactly | backend/src/domain/rca/validateRca.ts:49-117 | no error is reported exactly for an analysis with ordered, past dates after the first signal, a listed category and three substantial texts |
| RcaRules.ReportsExactly | backend/src/domain/rca/validateRca.ts:49-117 | each field error is reported exactly when it is justified |
| RcaRules.ErrorsInOrder | backend/src/domain/rca/validateRca.ts:49-117 | missing fields are reported first, then the texts, then the comparisons, each error once |
| RcaRules.TextAccepted | backend/src/domain/rca/validateRca.ts:30-47 | a text passes exactly when a core of at least ten units lies between white space |
| RcaRules.TextReported | backend/src/domain/rca/validateRca.ts:30-47 | which of the two text errors is reported, and when |
| RcaRules.TrimIsCore | backend/src/domain/rca/validateRca.ts:34-37 | trimming removes exactly the surrounding white space |
| RcaRules.CoreIsUnique | backend/src/domain/rca/validateRca.ts:34-37 | a text has only one such core |
| RcaRules.ValidateRca | backend/src/domain/rca/validateRca.ts:49-117 | the method that pushes errors onto an array yields those errors in order |
| RcaRules.MttrIsRounded | backend/src/domain/rca/calculateMttr.ts:10-22 | clock skew exactly for a negative gap, otherwise the nearest whole second |
| RcaRules.GuardExcludesSkew | backend/src/domain/rca/closeGuard.ts:13-26 | once the close guard has passed, the clock-skew failure is unreachable |
| RcaRules.NextStatesExactly | backend/src/domain/state/baseWorkItemState.ts:22-32 | a state is listed as next exactly when some payload at some time makes the transition into it legal |
| Lifecycle.EachEdgeOnce | backend/src/services/workitems/workflowService.ts:132-264 | under concurrent callers and retries after lost acknowledgements: the audit rows with different states are the path from OPEN to the present state, a win is on record, no edge of an item is won twice, clock skew is never reported |
| Lifecycle.ClosedIffOneRca | backend/src/repositories/postgres/workItemRepository.ts:193-225 | in every reachable state an item is CLOSED exactly when it has exactly one analysis, which was valid at the closing time and carries the rounded time to resolve |
| Lifecycle.RunKeepsInv | backend/src/services/workitems/workflowService.ts:132-264 | the inductive form of both |
| Lifecycle.OnlyRcaCloses | backend/src/services/workitems/workflowService.ts:145-162 | the plain transition call can never reach CLOSED |
| Lifecycle.StepFollowsGraph | backend/src/domain/state/baseWorkItemState.ts:22-33 | a state is left only along its edge, one edge per step, and CLOSED is final |
| Lifecycle.CommitIsNews | backend/src/repositories/postgres/workItemRepository.ts:77-84 | a guarded update that matches applies an edge nobody has been told of before |
| Lifecycle.WinnersAreTold | backend/src/services/workitems/workflowService.ts:163-196 | every edge behind every item has a caller who was told of winning it, exactly on the runs in which no acknowledgement of a change of state was lost |
| Lifecycle.LostAckReadsAsConflict | backend/src/repositories/postgres/withPostgresRetry.ts:18-23 | at any attempt but the last, a retry after a commit whose acknowledgement was lost is told of a conflict (a transition) or an invalid state (a closing submission), with the edge applied once |
| LifecycleRequests.RecordsAreRequests | backend/src/services/workitems/workflowService.ts:132-304 | on every run: each stored analysis is one submitted for that item, word for word and with that submission's time, each resolving time is that of a transition into RESOLVED asked for, each audit row has a request of its kind, and whoever is told of a win had asked for it |
| LifecycleRequests.WinnerStamps | backend/src/repositories/postgres/workItemRepository.ts:65-89 | the analysis and the times in a row are those of the call whose transaction moved it, and a step that does not move it leaves them alone |
| LifecycleRequests.CommitRecords | backend/src/repositories/postgres/workItemRepository.ts:65-89 | a pending transaction commits exactly when its guard matches, an escalation always; it then leaves exactly its own audit row on its own item and every other item as it was |
| Lifecycle.TransitionTxOk | backend/src/repositories/postgres/workItemRepository.ts:178-185 | a guarded transition along an edge extends the path by that edge |
| Lifecycle.RcaTxOk | backend/src/repositories/postgres/workItemRepository.ts:193-225 | an allowed closing transaction keeps the row sound: closed, with its closing time and one sound analysis |
| WorkflowServices.TransitionAloneIsRun | backend/src/services/workitems/workflowService.ts:132-197 | an undisturbed transition call is one run of the concurrent protocol, in every outcome |
| WorkflowServices.RcaAloneIsRun | backend/src/services/workitems/workflowService.ts:199-304 | so is an undisturbed submission of an analysis |
| WorkflowServices.TransitionAloneExactly | backend/src/services/workitems/workflowService.ts:132-197 | undisturbed: won exactly from OPEN to INVESTIGATING and from INVESTIGATING to RESOLVED, never a conflict; the row then has its new state, its resolving time and one audit row, and nothing else changes |
| WorkflowServices.RcaAloneExactly | backend/src/services/workitems/workflowService.ts:199-304 | undisturbed: won exactly for a RESOLVED row without an analysis and an acceptable submission; the row then holds that very submission with its time and the rounded time to resolve; unacceptable submissions get their errors, and a refusal changes nothing |
| WorkflowServices.PostgresWorkItemRepository.ApplyGuardedTransition | backend/src/repositories/postgres/workItemRepository.ts:65-89 | matches exactly the existing row in the expected state, and then writes state, times and audit row of that row only |
| WorkflowServices.PostgresWorkItemRepository.TransitionState | backend/src/repositories/postgres/workItemRepository.ts:178-185 | commits the guarded transition or changes nothing |
| WorkflowServices.PostgresWorkItemRepository.SubmitRca | backend/src/repositories/postgres/workItemRepository.ts:193-225 | close and analysis commit together, exactly for a RESOLVED row without one, and then the row holds the given analysis; otherwise nothing changes |
| WorkflowServices.PostgresWorkItemRepository.RecordEscalation | backend/src/repositories/postgres/workItemRepository.ts:250-256 | adds one audit row from OPEN to OPEN and changes no state |
| WorkflowServices.WorkflowService.TransitionWorkItem | backend/src/services/workitems/workflowService.ts:132-197 | rows and outcome of the undisturbed transition, and what a won one leaves in the row |
| WorkflowServices.WorkflowService.SubmitIncidentRca | backend/src/services/workitems/workflowService.ts:199-304 | rows and outcome of the undisturbed submission; a won one leaves the submitted analysis, its time and the closing time in the row |
| Retrying.Retry | backend/src/utils/retry.ts:16-50 | it goes on exactly after failures that are retryable and not the last allowed; the end of the last attempt is the outcome; there is one sleep for each earlier attempt, at most its backoff, and just that where the whole share is slept |
| Retrying.BackoffSteps | backend/src/utils/retry.ts:52-61 | the first backoff is the base delay, each later one twice the one before, and the cap cuts it off |
| Retrying.BackoffsExact | backend/src/utils/retry.ts:52-61 | without a cap n backoffs are one base delay short of the next doubling |
| Retrying.BackoffsDouble | backend/src/utils/retry.ts:52-61 | the backoffs add up to less than the next doubling |
| Retrying.BackoffsCapped | backend/src/utils/retry.ts:52-61 | and to at most the cap for each |
| Ordering.SortedUnique | backend/src/repositories/redis/dashboardCache.ts:145-164 | a sorted set's walk is determined by its members |
| Ordering.LexIsFirstDifference | backend/src/repositories/redis/dashboardCache.ts:145-164 | ids compare by their first difference, a proper prefix coming first |
| Ordering.InsertSorted | backend/src/repositories/redis/dashboardCache.ts:100-104 | adding a member keeps the order of score, then id |
| Ordering.RemoveSorted | backend/src/repositories/redis/dashboardCache.ts:116-121 | removing one keeps it too |
| Dashboard.ScoreEncodes | backend/src/repositories/redis/dashboardCache.ts:24-27 | for timestamps in [0, 1e13) the score orders exactly by severity, first signal, id |
| Dashboard.RangeIsNeeded | backend/src/repositories/redis/dashboardCache.ts:20-27 | which rows the score can never mis-order: the range is needed except at the two ends |
| Dashboard.ZsetListsActive | backend/src/repositories/redis/dashboardCache.ts:146-164 | a coherent sorted set walks the active incidents in the promised order |
| Dashboard.ListingUnique | backend/src/repositories/redis/dashboardCache.ts:145-164 | there is only one such listing |
| Dashboard.UpsertRestores | backend/src/repositories/redis/dashboardCache.ts:82-128 | writing one row through repairs whatever was out of step about it, closing included |
| Dashboard.SummaryAwareOk | backend/src/services/dashboard/dashboardProjection.ts:294-305 | a summary read shows the row up to its update time, leaves that summary in the cache and keeps the cache coherent |
| Dashboard.PageIsSlice | backend/src/services/dashboard/dashboardProjection.ts:157-195 | a page is the slice of the active items sorted by severity, first signal, id, in all fields but the update time, with the right total |
| Dashboard.SliceIs | backend/src/services/dashboard/dashboardProjection.ts:157-195 | a page holds what stands at the positions from the offset on, at most the limit of them |
| Dashboard.EmptySetRepairs | backend/src/services/dashboard/dashboardProjection.ts:173-187 | a read of an empty set returns the right total exactly when the active items fit the repopulation cap, and then repairs the cache and returns the right page |
| Dashboard.RepopulateTotal | backend/src/services/dashboard/dashboardProjection.ts:319-325 | repopulation brings in as many rows as the cap allows |
| Dashboard.SameListExactly | backend/src/services/dashboard/dashboardProjection.ts:198-206 | the unreachable-cache path shows the very same rows on every page and for every order the database may answer in, exactly when no two active items tie |
| Dashboard.DirectPageAgrees | backend/src/services/dashboard/dashboardProjection.ts:198-206 | with ties it still has the same total, length and keys at every position |
| Dashboard.SameKeysAt | backend/src/repositories/postgres/workItemRepository.ts:139-146 | any two answers of the database to the ordered query have the same keys at every position |
| DashboardRuns.RunKeepsCoherent | backend/src/services/dashboard/dashboardProjection.ts:157-254 | every sequential run of write-through mutations, losses of summary keys and refilling reads keeps the cache coherent |
| DashboardRuns.ReachablePage | backend/src/services/dashboard/dashboardProjection.ts:157-195 | after any such run: how many items a page has, which item stands at each place, and that it shows its row in all fields but the update time |
| DashboardRuns.ReachableDetail | backend/src/services/dashboard/dashboardProjection.ts:222-254 | the detail view agrees with the database after any such run, and the null analysis of a cache hit is never wrong |
| DashboardRuns.FlushIsRepaired | backend/src/services/dashboard/dashboardProjection.ts:173-195 | after a flush the next read is right exactly when the active items fit the cap |
| DashboardRuns.CountKeeps | backend/src/workers/processBatch.ts:119-125 | raising a signal count with its write-through keeps the cache coherent, changes that row's count only, and shows it at once |
| DashboardRuns.TransitionKeeps | backend/src/services/workitems/workflowService.ts:164-171 | so does a transition, for the state |
| DashboardRuns.CloseKeeps | backend/src/services/workitems/workflowService.ts:266-268 | and closing, which takes the row out of the cache |
| DashboardRuns.DashboardService.GetActiveIncidents | backend/src/services/dashboard/dashboardProjection.ts:157-206 | the service's list read is the list function, with Redis reachable or not |
| DashboardRuns.DashboardService.GetIncidentSummaryCacheAware | backend/src/services/dashboard/dashboardProjection.ts:294-305 | the service's summary read is the summary function |
| DashboardRuns.DashboardService.RepopulateActiveCache | backend/src/services/dashboard/dashboardProjection.ts:319-325 | the refill loop writes every fetched row through |
| IdempotentInsert.ReportedAtMostOnce | backend/src/repositories/mongo/signalRepository.ts:80-111 | over any interleaving of repeated, overlapping and internally duplicated batches: an id is stored at most once, reported by at most one call and once in it, and only if stored |
| IdempotentInsert.UnreportedIsFromUnfinished | backend/src/repositories/mongo/signalRepository.ts:98-110 | a stored id is reported by some call or was left by one that has not returned |
| IdempotentInsert.AllReturned | backend/src/repositories/mongo/signalRepository.ts:80-111 | if all calls returned, stored = reported by some = given to some |
| IdempotentInsert.RunKeepsInv | backend/src/repositories/mongo/signalRepository.ts:80-111 | the inductive form |
| IdempotentInsert.KeptIn | backend/src/repositories/mongo/signalRepository.ts:103-107 | the report filtered by failed positions holds exactly what this call wrote |
| IdempotentInsert.KeptDistinct | backend/src/repositories/mongo/signalRepository.ts:103-107 | and names no id twice |
| IdempotentInsert.SignalRepository.InsertManyIdempotent | backend/src/repositories/mongo/signalRepository.ts:80-111 | undisturbed, what is new is stored and reported once and what was there is untouched, by look-up, unordered insert and filtering of the failed positions |
| Escalation.SelectsExactlyOverdue | backend/src/services/alerting/escalationScheduler.ts:61-96 | the widened query plus recheck selects exactly the OPEN items overdue at their own reconciled severity |
| Escalation.SelectOverdue | backend/src/services/alerting/escalationScheduler.ts:61-96 | the same for the query and the loop of rechecks |
| Escalation.OnceExactly | backend/src/services/alerting/dispatcher.ts:127-159 | across replicas, every timely run escalates every item at most once exactly for timings with (faults + 1) * gap + latency below the window, where up to `faults` ticks in a row may give up on an item; with no gap at all, exactly for a positive window |
| Escalation.OnceWithoutFaults | backend/src/services/alerting/dispatcher.ts:127-159 | without faults the condition is gap + latency below the window |
| Escalation.EscalatedAtMostOnce | backend/src/services/alerting/dispatcher.ts:127-159 | the safe half, run by run |
| Escalation.LapsedKeyEscalatesTwice | backend/src/services/alerting/suppression.ts:43-53 | for every other timing some run lets the key lapse under a waiting claim and escalates an item twice |
| Escalation.KeyStaysAlive | backend/src/services/alerting/suppression.ts:43-53 | while anybody works on an escalated item its key is alive, because failed claims renew it |
| Escalation.OnlyWinsRevive | backend/src/services/alerting/suppression.ts:43-53 | a key comes to life only by a won claim; an expiry never brings a lapsed key back |
| EscalationDelivery.FoundIsSettled | backend/src/services/alerting/dispatcher.ts:127-159 | under the timings of `OnceExactly`, an item that was found and that nobody works on any more has been sent once, exactly unless its one winner gave up between claim and sending or every tick that found it gave up before a claim was won |
| EscalationDelivery.FoundIsSentOnce | backend/src/services/alerting/dispatcher.ts:127-159 | hence without faults it is sent exactly once |
| Suppression.DeliveriesAWindowApart | backend/src/services/alerting/suppression.ts:19-33 | two winning delivery claims on one key are at least a window apart, whoever makes them |
| Suppression.DeliveryWinsExactly | backend/src/services/alerting/suppression.ts:19-33 | from an empty Redis: an attempt wins exactly when every earlier win on its key is at least a window old, so the first attempt on a key always wins |
| Suppression.RenewalDecides | backend/src/services/alerting/suppression.ts:43-53 | an escalation claim wins exactly when a window has passed since the attempt before it |
| Suppression.EscalationWinsExactly | backend/src/services/alerting/suppression.ts:43-53 | from an empty Redis, over any keys: a claim wins exactly when every earlier attempt on its key, won or lost, is at least a window old |
| Suppression.Redis.ClaimAlertDelivery | backend/src/services/alerting/suppression.ts:19-33 | set-if-absent with an expiry |
| Suppression.Redis.ClaimEscalationLevel | backend/src/services/alerting/suppression.ts:43-53 | set-add followed by an expiry that every claim renews |
| PrometheusText.EscapeIsEach | backend/src/api/routes/metrics.ts:29-31 | the three replacement passes amount to one pass character by character |
| PrometheusText.UnescapeOfEscape | scripts/loadtest/orchestrator/metrics.js:23-24 | the parser's two passes undo the escaping of backslashes and quotes and miss line feeds only |
| PrometheusText.EscapeRoundTrip | backend/src/api/routes/metrics.ts:29-31 | escaping is undone exactly for texts without a line feed |
| PrometheusText.ParsePrometheusText | scripts/loadtest/orchestrator/metrics.js:8-35 | the loop over lines yields what each line contributes, in order |
| PrometheusText.ParseLabels | scripts/loadtest/orchestrator/metrics.js:19-26 | the loop over pattern matches fills the label map the pair search describes |
| PrometheusText.Find | scripts/loadtest/orchestrator/metrics.js:14-14 | the brace group ends at the first closing brace |
| PrometheusText.Run | scripts/loadtest/orchestrator/metrics.js:14-14 | a greedy character class takes the longest prefix |
| PrometheusGrammar.LineMatchesExactly | scripts/loadtest/orchestrator/metrics.js:14-14 | for any text: the line pattern matches exactly a legal name, a brace group up to its first closing brace or none, white space, a token, white space; and reads it in one way only |
| PrometheusGrammar.LineYieldsExactly | scripts/loadtest/orchestrator/metrics.js:10-33 | for any line: it yields a sample, and at most one, exactly if it has that shape and its token is a number, the two infinities included |
| PrometheusGrammar.PairMatchesExactly | scripts/loadtest/orchestrator/metrics.js:21-23 | for any text: the pair pattern matches exactly a key, an equals sign and a quoted body whose backslashes each carry a character |
| PrometheusRoundTrip.ScanEscaped | scripts/loadtest/orchestrator/metrics.js:21-23 | the label-value pattern stops exactly at the printer's closing quote, whatever the value holds |
| PrometheusRoundTrip.ParseJoined | scripts/loadtest/orchestrator/metrics.js:20-25 | the global pair search recovers every printed label |
| PrometheusRoundTrip.SampleReceived | scripts/loadtest/orchestrator/metrics.js:10-33 | a printed sample reads back as itself with line feeds spelled out and a `__proto__` label lost, or as nothing if a label value holds a closing brace |
| PrometheusRoundTrip.BrokenLine | scripts/loadtest/orchestrator/metrics.js:14-17 | with a closing brace in a label value the line matches nothing |
| PrometheusRoundTrip.SplitConcat | scripts/loadtest/orchestrator/metrics.js:10-10 | splitting at line feeds distributes over joining |
| PrometheusRoundTrip.BlockReceived | backend/src/api/routes/metrics.ts:45-52 | a block's comment lines vanish and its samples come back in order |
| PrometheusRoundTrip.PageReceived | backend/src/api/routes/metrics.ts:183-183 | reading any rendered page gives, in order, exactly what each sample's labels let through |
| PrometheusRoundTrip.PageRoundTrip | backend/src/api/routes/metrics.ts:29-52 | printer and parser undo each other exactly when no label value holds a line feed or a closing brace and no label is named `__proto__` |
| PrometheusRoundTrip.SampleSurvives | backend/src/api/routes/metrics.ts:41-43 | the same for one sample |
| PrometheusLayout.PageIsLaidOut | backend/src/api/routes/metrics.ts:45-52 | every block stands on a rendered page in one piece: help line, type line, its samples in order, set off by empty lines |
| MetricsPage.MetricsRoundTrip | backend/src/api/routes/metrics.ts:89-184 | the whole metrics page reads back as its samples exactly when no alert channel's name holds a line feed or a closing brace |
| MetricsLookup.SignalsShown | backend/src/api/routes/metrics.ts:91-131 | on the scraped page every lookup of received, accepted, dropped (by severity and reason), depth and fill returns the snapshot's own number, whatever the alert channels are called |
| MetricsLookup.WorkShown | backend/src/api/routes/metrics.ts:132-175 | so does every lookup of queue depth, dead letters, jobs, work items by state and escalations |
| MetricsLookup.ChannelShown | backend/src/api/routes/metrics.ts:159-172 | and of delivered and failed alerts, for a channel listed for the first time whose name and those before it hold no line feed or closing brace |
| MetricsLookup.KindsFollowNames | backend/src/api/routes/metrics.ts:89-184 | a family is declared a counter exactly if its name ends in `_total`, and a histogram exactly if it is the latency |
| MetricsPage.BlocksGood | backend/src/api/routes/metrics.ts:89-184 | all blocks have legal names and keys, and the alert channel is the only label value from outside |
| MetricsPage.ByChannelGood | backend/src/api/routes/metrics.ts:159-172 | the alert samples survive exactly when the channels' names do |
| MetricsPage.HistogramGood | backend/src/api/routes/metrics.ts:54-66 | histogram lines always survive |
| Decimals.CountsPrint | backend/src/api/routes/metrics.ts:41-43 | whole numbers in decimal have the spelling the page theorems ask of its values |
| Histograms.Histogram.Observe | backend/src/utils/metrics.ts:108-116 | one observation extends the recorded history by itself |
| Histograms.Histogram.Snapshot | backend/src/utils/metrics.ts:118-125 | the snapshot is what the history calls for: per boundary the number of observations at most it, their sum and their number |
| Histograms.CountConcat | backend/src/utils/metrics.ts:108-116 | cumulative counts add up over consecutive histories |
| Histograms.CountIsPositions | backend/src/utils/metrics.ts:108-116 | a count is the number of positions in the history that hold an observation of at most the boundary |
| Histograms.CountMonotone | backend/src/utils/metrics.ts:85-91 | a wider bucket holds at least as much |
| MetricsDiff.WindowIsExact | scripts/loadtest/orchestrator/metrics.js:78-90 | differencing two scraped pages of one growing stream gives exactly the histogram of the observations in between; no clamp changes a count, and the sum's acts just for a negative total |
| MetricsDiff.ScrapeShows | scripts/loadtest/orchestrator/metrics.js:53-56 | every lookup on a scraped page returns the histogram's own number, whatever the alert channels are called |
| MetricsDiff.BucketLookup | scripts/loadtest/orchestrator/metrics.js:46-56 | a lookup by boundary finds that boundary's line |
| MetricsDiff.PercentileIsLeast | scripts/loadtest/orchestrator/metrics.js:93-105 | the percentile is the least boundary covering p times the count, and null exactly when there is no observation or no such boundary |
| MetricsDiff.PercentileReads | scripts/loadtest/orchestrator/metrics.js:93-105 | for any differenced histogram with a finite count: the boundary returned is that of the first bucket reaching the target, and there is one exactly for a positive count and a finite boundary |
| MetricsDiff.HistogramPercentile | scripts/loadtest/orchestrator/metrics.js:93-105 | the loop returns the first bucket reaching the target |

## Left out

- Floating-point rounding: tokens, ceilings, fill fractions and metric values are reals, and `tostring` is exact.
- Characters are Unicode scalar values; lone surrogates in JavaScript strings are not modelled.
- Numbers on the metrics page: `Prints` asks that each value has a one-token spelling that reads back as itself. NaN values, which the parser skips, are excluded by it.
- MetricsLookup.ChannelShown: a channel after one with a line feed in its name is not claimed to be found, because the two may read back alike.
- The help texts of the metrics page and the order of its alert channels are parameters; sorting channel names is not modelled.
- HTTP routes, request schemas, headers, server-sent events, authentication, logging and configuration loading.
- The frontend.
- Mongo aggregation pipelines, time-series collections, retention, and the metrics writer.
- Alert texts, channels and notifier payloads; of the dispatcher only claiming and sending are modelled.
- BullMQ delivery and dead-lettering; the drain timer of the buffer. Repeated batches appear as repeated calls.
- `incrementSignalCount` is not claimed to be safe under retries.
- DebounceSolo.SignalDebouncer.Resolve: one worker with a free lock; waiting for a lock is in the runs (`WaitingEnds`, `WaiterTakesSession`), not in the method.
- DebounceSolo.SignalDebouncer.ResolveFromStore: alone, an insert meets no conflict; linking to a winner after one is in the runs (`LoserLinksToWinner`), not in the method.
- SignalBuffers.SignalBuffer.DrainToSink: nothing is submitted during the sink's await; submits in between are the runs of BufferRuns.
- SignalBuffers.SignalBuffer.DrainAll: likewise, and the deadline is a given number of turns.
- WorkflowServices.WorkflowService.TransitionWorkItem: rows and outcome only; cache, alerts and events follow the commit, and retries are in the protocol.
- WorkflowServices.WorkflowService.SubmitIncidentRca: likewise; a RESOLVED row that already has an analysis, which no run reaches, is answered like any other wrong state.
- IdempotentInsert.SignalRepository.InsertManyIdempotent: one undisturbed call; interleaved and failing calls are the runs of the same module.
- The row id of a debounced item is its position, and an item's severity and title are not part of that protocol.
- `processSignal` and the counting of `processBatch`: the debounce protocol ends with the returned link.
- TokenBuckets.RateBound: one global key per trace; the login route's second bucket per address is not a separate model.
- Rate limiting when Redis is down: the callers fail open and the script is not reached.
- DashboardRuns.RunKeepsCoherent: runs are sequential with Redis reachable on writes. Racing writers, and a flush followed by a write before the next read, are not claimed.
- DashboardRuns.CountKeeps: a created item whose signals were never persisted is not written through by the source until a later write; creating and first writing through are one step here.
- DashboardRuns.DashboardService.GetActiveIncidents: Redis answers the whole call or none of it.
- The list of closed incidents, signal lists and transition lists: plain queries.
- Dashboard.PageIsSlice: asks for a limit of at least one, which the route enforces.
- Escalation.OnceExactly: counts won claims; which of them are sent is EscalationDelivery. A tick's clock reading and its query are one step, and Redis never loses a key before its expiry: a flush or an eviction is not among the actions.
- EscalationDelivery.FoundIsSettled: sending is one step after the renewal; the notifiers' own failures are not modelled.
- Suppression.DeliveriesAWindowApart: here too Redis loses no key before its expiry.
- WorkflowServices.PostgresWorkItemRepository.RecordEscalation: the actor of an audit row is not modelled; a row from OPEN to OPEN counts as no move.
- RcaRules.ValidateRca: raw request bodies are already parsed into optional dates and texts; values of other types count as absent.
- Retrying.Retry: sleeping is adding up delays; the random shares are an arbitrary function, all one without jitter.
- `sumValues`, `computeMetricsDiff` and the console reporter's percentiles: sums and lookups over the same pieces.
- Timer start and stop, and reading statistics.
