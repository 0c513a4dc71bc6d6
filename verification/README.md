# Verified model of the log aggregator's stateful core

A Dafny 4.11 model of the components of the real-time log aggregator whose correctness depends on state kept over many
steps, with machine-checked proofs about whole runs of them. `dafny verify dfyconfig.toml` checks everything.

## What is modelled

**Alert engine and evaluator** (`Percentiles`, `GroupKeys`, `GroupCounts`, `Evaluation`, `EvaluationLaws`,
`AlertEngine`, `RuleEvaluation`). The engine is an object with one window for each tenant and rule. A call appends a
batch without the ids it still retains, compacts the slice in place and evaluates the rule on what is left. The
reference is one evaluation of the whole history with each ingest id counted at its first delivery; the engine meets
it although it forgets, and the exact condition is proved beside the assumption that the pipeline provides.
`GroupKeys` models the joined group key of any number of fields, and `GroupCounts` counts the groups of a rule that
uses it.

**Notification delivery** (`Backoff`, `DeliveryStore`, `DeliveryProtocol`, `DeliveryTiming`, `DeliveryOverrun`,
`DeliveryRepeats`, `DeliveryBackoff`). Claim and record are one atomic step each on a table object. Workers, crashes,
clock steps and dispatches interleave freely in the transition system. The first group of results needs no timing; the
second adds one nondecreasing clock, one lease length and records within the lease; the third shows exactly when a
lease can be taken over, and when a second successful dispatch is still possible at all; `DeliveryBackoff` follows the
retry delay through the runs. `Abandon` stands both for a crash and for a batch given up.

**Alert lifecycle** (`AlertStore`, `AlertSync`, `AlertTables`, `AlertRuns`, `BackdatedRun`). `SyncAlertState` runs on
a table object and meets a specification that looks at one (rule, dedupe key) at a time; run properties follow from
that specification. A failed transaction is a step that leaves the tables.

**Stream consumption and batch handling** (`Fields`, `Batches`, `Processor`, `Settlement`, `StreamRuns`,
`StreamLimits`, `StreamExamples`, `EngineRuns`). `HandleBatch` drives the same engine and the same alert tables as
above. Every call to another system may work, fail or kill the process, before or after it took effect. Messages are
delivered again until they are acked, terminated or out of deliveries. `EngineRuns` adds the engine to these runs: it
starts empty with each process.

**Service graph** (`GraphRecords`, `GraphSpec`, `GraphBuilder`, `GraphLaws`, `GraphMeaning`, `GraphSessions`). The
builder's maps are walked in an arbitrary order and meet a declarative graph that counts flows; `GraphMeaning` and
`GraphSessions` say the response on the log records themselves.

**Rate limiter** (`RateLimiter`). One fixed window for each key, for clock readings in any order.

`Wrappers`, `Units`, `Numbers`, `Sequences`, `Positions`, `Ordering` and `Keys` hold the shared theory.

## Assumptions

- A rule's window and cooldown are fixed during a run. Rules loaded together have distinct ids, as rows of one table
  do.
- A redelivered ingest id brings nothing newer than its earlier delivery did. Equal records under equal ids imply it
  (`SameRecordsReplay`), and so do equal row times (`NormalizedBatchesReplay`). `EngineWindowsAreHistories` proves
  that stream runs provide it, given rules of the batch's own tenant and tenant ids of 64 bits; `RetainedDedupeExact`
  says exactly what is needed, and `ReplaysIsNeeded` shows a failure.
- Batches under one ingest id carry the same logs, each with a time of its own: the id hashes tenant, tags and logs
  (`internal/ingest/handler.go:231`, `403-437`), and the handler requires the times (`348-354`). Trace id, correlation
  id and receipt time may differ. `ResubmissionsNameRows` and `ResubmissionsNameTimes` derive from it what the stream
  and engine results ask for: rows equal but for the trace id, and equal row times.
- An API key's limit is fixed during a run. The limiter's results say themselves when they need its clock readings in
  order: callers read the clock before they take the lock (`internal/ingest/ratelimit.go:29-31`), so nothing enforces
  it.
- Delivery workers have distinct ids and are sequential.
- State syncs do not overlap. Spacing results also need nondecreasing observation times.
- One sequential consumer, a log store that reads its own writes, and an INSERT that stores all rows or none. The
  server's delivery limit is the consumer's. Publications are not deduplicated here, which only adds runs.
- Graph records come sorted by time.
- Reals stand for floating point. Times are integers in nanoseconds. `Backoff` works on exact 64-bit integers with
  wrap-around; elsewhere integers do not overflow.
- Lower-casing, trimming, JSON, time parsing, hashing, templates, field filters, regular expressions, group keys and
  numeric fields are arbitrary functions, so the results hold for all of them.

## Results that qualify the design

- `docs/architecture.md:493` lets a match after the cooldown trigger again while the alert is active. The code
  suppresses every match of a firing alert (`internal/alerts/state.go:186-189`), whatever the cooldown
  (`FiringAlertSuppressed`); the model follows the code.
- Redelivering a batch at once leaves the window alone exactly when no record of it without an ingest id is in the
  window (`ImmediateRedelivery`).
- A held delivery can be taken over exactly when its lease has been outlived (`TakeoverIffOverrun`), and then a second
  successful dispatch is reachable without any further crash or clock step (`SecondDispatchReachable`,
  `OverrunRepeatsDispatch`). A crash between dispatch and record is the other road: a second success is reachable at
  all exactly when the delivery has no final status yet and there is a worker, or when the successes so far and the
  workers that still get to their claim of it add up to two (`SecondSuccessReachableIff`).
- A resolved alert's next announcement is sure to keep the cooldown exactly when its last opening was not stamped
  before the latest announcement (`NextAnnouncementSpacedIff`); `BackdatedReopeningBreaksSpacing` is a run in which it
  does not.
- A nak strands a message exactly on the last of several deliveries with unreadable metadata (`NakLeavesDeliveryIff`).
- Without a dead-letter publisher messages are terminated without an envelope (`TerminatedIsDeadLetteredIff`).
- The last delivery strands its message exactly when it does not close it (`ClosedIff`, `StrandedIff`), for instance
  because the process dies (`CrashOnLastDeliveryStrands`: every configuration with a limit and every processable
  message, one that decodes to an accepted batch whose ids the replay check takes).
- A stored batch's alert state is synced exactly when the delivery that first stored it saw its write work and its
  sync go through (`StoredSyncedIff`); a write that fails after taking effect can cost any processable message its
  sync, as soon as there is a second delivery (`StoredBatchCanMissItsSync`).
- An ingest id of blanks passes validation and is refused by the replay check: nothing is ever stored, synced or
  acknowledged under it (`BlankIdsNeverStored`), and a delivery dead-letters it exactly when its deliveries are seen
  to be used up and a publisher takes the envelope (`BlankIdDeadLetteredIff`).
- Values with bars can give two groups one key; `SharedIff` says exactly which groups of any number of fields are
  affected. Their records are counted together (`GroupExactIff`), so that a rule can fire for two groups of which
  neither reaches its threshold (`MergedGroupsTrigger`, `BarMerges`).
- The limit of a second holds exactly when its window is opened at most once or no more is asked for
  (`LimitHoldsIff`); readings that reach the table out of order open it again (`LateReadingBreaksLimit`).
- The ordering of the two retry bounds is restored by the defaults exactly when the base does not exceed both
  (`NormalizedIsUsable`).

## Model

| member | source | states |
|---|---|---|
| Evaluation.LatestRecordTime | internal/alerts/engine.go:62-73 | the newest event time of a slice, and the zero time of an empty one |
| Evaluation.RecordsInWindow | internal/alerts/evaluator.go:258-276 | keeps the window of the slice (`WindowIsRecent` says which records that is), and everything when there is no window |
| Evaluation.WindowIsRecent | internal/alerts/evaluator.go:258-276 | a record is in the window if and only if no record of the slice is more than windowSeconds * 10^9 ns later; each as often as it occurs, in order, and no other slice is the window |
| Evaluation.Evaluate | internal/alerts/evaluator.go:60-106 | returns the declarative outcome: the rule's own failure, or one trigger for each group reaching the threshold, in ascending key order |
| Evaluation.CountGroups | internal/alerts/evaluator.go:108-133 | the map walk counts each group key's matching records, and holds exactly the keys that occur |
| Evaluation.EvaluateCounts | internal/alerts/evaluator.go:328-342 | sorting the keys that reach the threshold gives the declarative triggers, whatever order the map was walked in |
| Evaluation.EvaluateRate | internal/alerts/evaluator.go:169-193 | the rate triggers over the event-time window |
| Evaluation.EvaluatePercentile | internal/alerts/evaluator.go:200-243 | the percentile triggers over the event-time window; a group exists only if some record has a numeric value |
| Evaluation.CollectValues | internal/alerts/evaluator.go:208-227 | the values of each group in record order, one for each counted record |
| Percentiles.ComputePercentile | internal/alerts/evaluator.go:309-326 | never indexes out of range and returns that interpolation; truncation is the floor here |
| Percentiles.PercentileInterpolates | internal/alerts/evaluator.go:309-326 | at percentile / 100 of the way from the first to the last of any sorted arrangement of the values, the result is the linear interpolation of the two neighbours; at the end it is the greatest value; nothing gives 0 |
| Percentiles.SortValues | internal/alerts/evaluator.go:313-314 | a nondecreasing rearrangement of the values |
| Percentiles.PercentileWithinValues | internal/alerts/evaluator.go:309-326 | the percentile lies between the least and the greatest value |
| Percentiles.PercentileIgnoresOrder | internal/alerts/evaluator.go:313-314 | permuting the values leaves the percentile unchanged |
| Percentiles.PercentileMonotone | internal/alerts/evaluator.go:318-325 | a higher requested percentile never gives a smaller value |
| Percentiles.PercentileAtRank | internal/alerts/evaluator.go:318-325 | at a whole number of steps, percentile * (n - 1) = 100 * rank, the percentile is the rank-th value of any sorted arrangement |
| EvaluationLaws.GroupCountsConserveRecords | internal/alerts/evaluator.go:108-133 | group counts over all groups add up to the number of matching records |
| EvaluationLaws.GroupCounted | internal/alerts/evaluator.go:108-133 | a group holds exactly the records of the slice that pass the filter, the pattern or value test, the group key and, for metric rules, the window; it counts their positions |
| EvaluationLaws.TriggersOnePerKey | internal/alerts/evaluator.go:328-342 | trigger keys are strictly ascending, each trigger carries its group's count and its rule's columns (a rate times the window is the count; metric, threshold, window, percentile), and a key is raised if and only if its group reaches the threshold |
| EvaluationLaws.CountTriggersExact | internal/alerts/evaluator.go:328-342 | a count or pattern rule raises a key if and only if at least threshold positions of the slice count for it |
| EvaluationLaws.RateTriggersExact | internal/alerts/evaluator.go:185-191 | a rate rule raises a key if and only if the positions that count in the window are at least rate times window, and not none |
| EvaluationLaws.PercentileTriggersExact | internal/alerts/evaluator.go:200-243 | a percentile rule raises a key if and only if it has values in the window whose interpolated percentile reaches the limit, and reports that percentile and their number |
| EvaluationLaws.OutcomeIgnoresOrder | internal/alerts/evaluator.go:60-106 | permuting the records leaves the whole outcome unchanged: keys, counts, metrics and errors |
| EvaluationLaws.FailsIff | internal/alerts/evaluator.go:60-106 | an evaluation fails if and only if the rule did not parse or its threshold, window or percentile is out of range |
| GroupKeys.BuildGroup | internal/alerts/evaluator.go:452-465 | reads each field of the record and joins the parts |
| GroupKeys.KeyText | internal/alerts/evaluator.go:452-465 | the text of the key: field, equals sign, value, bars between, and scope=all without fields |
| GroupKeys.GroupKeyDetermines | internal/alerts/evaluator.go:452-465 | under the same fields two groups share their key if and only if they agree on every field, as long as no value but the last contains a bar |
| GroupKeys.SharedIff | internal/alerts/evaluator.go:452-465 | for any number of fields and without that proviso: a group shares its key with a different one if and only if, for some value but the last, the separator after it occurs a second time in the text up to the end of the next value |
| GroupKeys.TwoFieldsSharedIff | internal/alerts/evaluator.go:452-465 | the case of two fields: a group shares its key with another one if and only if the separator occurs a second time in it |
| GroupKeys.BarMerges | internal/alerts/evaluator.go:452-465 | a family of such pairs: a bar and a second part moved from one value to the next give a different group with the same key |
| GroupCounts.GroupExactIff | internal/alerts/evaluator.go:108-133 | a group counts exactly the matching records with its values if and only if no matching record has other values under the same key |
| GroupCounts.MergedGroupsTrigger | internal/alerts/evaluator.go:108-133 | the records of two groups under one key are counted together, and a count rule fires for them when they reach the threshold together |
| Keys.NumberedKeyInjective | internal/alerts/state.go:400-402 | a printed number, a colon and any text can be read back, even when the text contains colons or digits |
| AlertEngine.RuleKeySeparates | internal/alerts/engine.go:54-60 | two calls share a window if and only if they agree on tenant and rule, the tenant being the rule's own or else the first record's |
| AlertEngine.AdvanceMeans | internal/alerts/engine.go:27-50 | a step of the window in plain terms: the batch records whose id no retained record has join in order, and of all those the ones that no other is more than windowSeconds * 10^9 ns later than stay |
| AlertEngine.Engine.Evaluate | internal/alerts/engine.go:18-52 | one call moves exactly its own window, record by record as `AdvanceMeans` says, and returns the rule's outcome on it; without a window it evaluates the batch and moves nothing |
| AlertEngine.Engine.Slide | internal/alerts/engine.go:27-50 | drops records whose id is retained, appends the rest in order, then evicts what the window length says |
| AlertEngine.Engine.EvictInPlace | internal/alerts/engine.go:42-49 | compacting onto the slice's own front leaves exactly the recent records, in order |
| AlertEngine.WindowsIndependent | internal/alerts/engine.go:25-50 | a key's window depends only on the batches handed in under that key, however calls interleave |
| AlertEngine.RetainedDedupeExact | internal/alerts/engine.go:27-50 | dropping only ids that are still retained, and evicting on the way, equals deduplicating against the whole past and evicting once, if and only if the records under forgotten ids are too old for the next window |
| AlertEngine.RetainedDedupeSuffices | internal/alerts/engine.go:27-41 | redeliveries that bring nothing newer meet that condition |
| AlertEngine.WindowIsHistoryWindow | internal/alerts/engine.go:25-50 | after any batches, late and redelivered ones included, the window is the window of the whole history with each id counted at its first delivery |
| AlertEngine.WindowIsHistoryWindowIff | internal/alerts/engine.go:25-50 | with no assumption at all: the window was the history window after every batch if and only if no batch brought young records under a forgotten id |
| AlertEngine.SameRecordsReplay | internal/processor/normalize.go:87-103 | equal records under equal ids, which stamping gives, implies the weaker assumption the window results need |
| AlertEngine.EngineEvaluatesHistory | internal/alerts/engine.go:18-52 | what a call returns is one evaluation of the deduplicated history (metric rules) or of its window (count and pattern rules) |
| AlertEngine.ImmediateRedelivery | internal/alerts/engine.go:34-41 | handing a batch in again at once changes the window if and only if a record of it without an id is in the window |
| AlertEngine.RetriedBatchTriggersAlike | internal/alerts/engine.go:18-52 | one rule's call handed over twice in a row leaves the windows and returns the same triggers |
| AlertEngine.ReplaysIsNeeded | internal/alerts/engine.go:34-41 | a concrete id reused for newer records after eviction, for which the window is not the history's |
| AlertEngine.LateRecordNotCounted | internal/alerts/engine.go:34-41 | in that example the history's window does not hold the reused id's newer record |
| Backoff.Doubled | internal/alerts/notifications.go:344-354 | the loop reaches exactly min(base * 2^(attempt-1), maximum) without leaving 64 bits |
| Backoff.Jittered | internal/alerts/notifications.go:355-368 | the result is clamped to the bounds, wrapped jitter included, and is the exact formula when its products fit |
| Backoff.RetryDelay | internal/alerts/notifications.go:337-369 | inside [base, maximum] for all 64-bit inputs unless the default maximum undercuts the base; exactly the ideal delay, and within a tenth of base * 2^(attempt-1), when the products fit |
| Backoff.ExponentialUnfolds | internal/alerts/notifications.go:344-354 | without powers: the base at first, then twice the delay before, up to the maximum |
| Backoff.JitterMeans | internal/alerts/notifications.go:355-368 | the jitter in plain arithmetic: up or down by (31 id + 17 attempt) mod 201 less 100 thousandths of the delay, then clamped |
| Backoff.FirstDelay | internal/alerts/notifications.go:337-369 | the first delay in plain arithmetic: the base, or up to a tenth more when the jitter goes up |
| Backoff.DelayNearExponential | internal/alerts/notifications.go:344-368 | within the bounds and within a tenth of the exponential value |
| Backoff.DelayGrows | internal/alerts/notifications.go:344-368 | strictly grows from one attempt to the next while the doubled value still fits under the maximum |
| Backoff.NormalizedIsUsable | internal/alerts/notifications.go:152-175 | every policy becomes usable and stays fixed under a second pass, usable settings are kept and the others take the stated defaults; its retry bounds are ordered if and only if the base does not exceed both the given and the default maximum |
| DeliveryStore.DeliveryTables.SelectDue | internal/alerts/notifications.go:209-220 | the first due rows by availability and id, skipping rows locked elsewhere, up to the batch size |
| DeliveryStore.DeliveryTables.ClaimDueDeliveries | internal/alerts/notifications.go:201-275 | claims only rows that are pending or retrying and available, or locked longer than the lease; each takes exactly the lock columns, all others stay, and a due row is left only behind a full batch of rows available earlier |
| DeliveryStore.DeliveryTables.RecordDeliveryAttempt | internal/alerts/notifications.go:277-335 | commits if and only if the lease is held, and then inserts the attempt and sets every column of the row; a failure below the limit becomes available within a tenth of base * 2^attempt_count after its end and never before the base; otherwise nothing changes |
| DeliveryProtocol.StepKeepsInv | internal/alerts/notifications.go:201-335 | every claim, dispatch, record, crash, clock step and enqueue keeps the protocol invariant |
| DeliveryProtocol.AttemptsNumberedExactly | internal/alerts/notifications.go:284-322 | in every interleaving the attempt rows are numbered exactly 1..attempt_count, and lock columns are set if and only if processing |
| DeliveryProtocol.OutcomeMatchesAttempts | internal/alerts/notifications.go:301-323 | sent if and only if the last recorded attempt succeeded, the only one that did; failed means all of at least max_attempts failed |
| DeliveryProtocol.CommittedRecordInsertsAttempt | internal/alerts/notifications.go:291-299 | ON CONFLICT never fires on a record that commits |
| DeliveryProtocol.TerminalIsForever | internal/alerts/notifications.go:212-216 | sent and failed rows never change again |
| DeliveryProtocol.CommitsWithinBudget | internal/alerts/notifications.go:301-317 | the number of committed records of a delivery is its attempt_count and never exceeds the largest attempt limit of any worker |
| DeliveryProtocol.NotReacquired | internal/alerts/notifications.go:221-228 | a lease taken by another worker is not held again without a claim of one's own |
| DeliveryProtocol.LateRecordChangesNothing | internal/alerts/notifications.go:318-330 | once another worker has claimed a delivery, the first holder's late record changes no table, whatever happened in between |
| DeliveryBackoff.RetryNotBefore | internal/alerts/notifications.go:301-323 | along every run, between a failure and the next attempt the delivery is not claimed before the base, nor more than a tenth before base * 2^failures, after the failure |
| DeliveryTiming.RunKeepsTimed | internal/alerts/notifications.go:177-199 | with one clock, one lease length and records in time, every processing row is held by its locker and every dispatch is accounted for |
| DeliveryTiming.ExclusiveHolders | internal/alerts/notifications.go:212-228 | then no two workers ever hold the same delivery |
| DeliveryTiming.DispatchesRecordedOnce | internal/alerts/notifications.go:191-197 | then every dispatch is recorded, apart from the one in flight, and at most one dispatch of a delivery succeeds in the whole run |
| DeliveryOverrun.TakeoverIff | internal/alerts/notifications.go:212-216 | in every reachable state an idle worker can claim a delivery that another one holds and locks if and only if the lease is over at the time it reads |
| DeliveryOverrun.TakeoverIffOverrun | internal/alerts/notifications.go:212-216 | so with a reading that is not ahead of the clock it can if and only if the lease has been outlived |
| DeliveryOverrun.SecondDispatchReachable | internal/alerts/notifications.go:191-197 | once another worker has taken the lease over, the two can both dispatch successfully, with no crash and no clock step in between |
| DeliveryOverrun.OverrunRepeatsDispatch | internal/alerts/notifications.go:212-216 | a concrete run with equal leases in which every step keeps time, the clock passes the end of a lease, and the delivery is dispatched successfully twice |
| DeliveryRepeats.SecondSuccessReachableIff | internal/alerts/notifications.go:177-199 | in every reachable state a second successful dispatch is reachable if and only if the delivery has no final status and there is a worker, or its successes and the workers that still get to their claim of it add up to two |
| AlertStore.InstanceKeyInjective | internal/alerts/state.go:400-402 | two alerts share a text key if and only if they are the same, colons in the dedupe key included |
| AlertStore.PlanTriggers | internal/alerts/state.go:126-190 | the first loop gives one decision for each trigger against the stored instance of its key, and fails if and only if a rule is unknown |
| AlertStore.PlanResolutions | internal/alerts/state.go:192-219 | appends a resolution for exactly the firing instances of known rules that no trigger names |
| AlertStore.ReconcileState | internal/alerts/state.go:108-222 | both loops together, over text-keyed maps, give the decisions by alert key |
| AlertStore.PlanMeans | internal/alerts/state.go:128-219 | the plan in plain terms: first the triggers in their order (inserted or reopened with all times now, announced unless within the cooldown, or left alone), then exactly the firing instances without a trigger, resolved now |
| AlertSync.DecisionsByKey | internal/alerts/state.go:108-222 | with one trigger a key, there is at most one decision a key, each for a trigger or a resolution, and one for every trigger |
| AlertTables.AlertDatabase.InsertInstance | internal/alerts/state.go:293-320 | inserts under a new id unless the unique constraint on rule, dedupe key and status refuses it |
| AlertTables.AlertDatabase.ApplyUpserts | internal/alerts/state.go:224-243 | carries out any plan write by write, up to the first one the unique constraint refuses; one that fits the rows is never refused and every new id reaches the change of its key |
| AlertTables.AlertDatabase.LoadInstances | internal/alerts/state.go:258-291 | exactly the instances of the given rules |
| AlertTables.AlertDatabase.EnqueueNotifications | internal/alerts/notifications.go:91-133 | appends one delivery for each triggered or resolved change of an evaluated rule, in order, and nothing for others |
| AlertTables.AlertDatabase.SyncAlertState | internal/alerts/state.go:67-106 | a success takes every key through its own step and keeps at most one instance a key; a failure leaves the tables; it succeeds on consistent tables for known, distinct triggers |
| AlertTables.SyncMeetsSpec | internal/alerts/state.go:86-105 | the rows, events and deliveries written by the plan are those of the per-key specification |
| AlertRuns.SyncAgreesWithTriggers | internal/alerts/state.go:108-222 | after a sync the firing keys of the evaluated rules are exactly the triggers' keys; other rules' instances are untouched; events carry their own key's instance id |
| AlertRuns.RunKeepsKeyInv | internal/alerts/state.go:126-219 | along every serial run each key's history is a legal one and matches its instance |
| AlertRuns.LifecycleAccounting | internal/alerts/state.go:126-219 | openings minus resolutions is 1 exactly while firing, and deliveries are triggered plus resolved events |
| AlertRuns.InstanceTimesAreEventTimes | internal/alerts/state.go:167-205 | along every run first_fired_at and last_fired_at are the time of the key's last opening, and resolved_at is empty while it fires and the time of its last resolved event otherwise |
| AlertRuns.ResolvedBetweenOpenings | internal/alerts/state.go:166-219 | between two openings of a key there is a resolution |
| AlertRuns.AnnouncementsAlternate | internal/alerts/state.go:126-219 | along every run two triggered events of a key have a resolved event between them |
| AlertRuns.AnnouncedIffCooledDown | internal/alerts/state.go:166-180 | along every run an opening is announced if and only if it does not come within the cooldown of the opening before it, though the code reads only the last firing time of the row |
| AlertRuns.FiringAlertSuppressed | internal/alerts/state.go:186-189 | along every run a sync that fires an already firing alert leaves its instance, adds exactly one suppressed event and no delivery, whatever the cooldown |
| AlertRuns.AnnouncementsSpaced | internal/alerts/state.go:166-184 | with nondecreasing observation times two triggered events of a key are at least the cooldown apart |
| AlertRuns.FlappingAnnouncedOnce | internal/alerts/state.go:166-190 | a key announces only its first opening if and only if every reopening comes within the cooldown of the previous opening, suppressed ones included |
| AlertRuns.NextAnnouncementSpacedIff | internal/alerts/state.go:166-184 | in every reachable state, observation times in any order: the next announcement of a resolved alert is sure to keep the cooldown from the latest one if and only if the last opening was not stamped before it |
| BackdatedRun.BackdatedReopeningBreaksSpacing | internal/alerts/state.go:175-180 | a concrete run of five syncs with a cooldown of fifty seconds whose two announcements are ten seconds apart |
| RuleEvaluation.EvaluateAlertRules | internal/processor/consumer.go:225-245 | evaluates rule after rule through the shared engine, stopping at the first failure with that rule's window already moved |
| RuleEvaluation.TriggersOfTheirRule | internal/processor/consumer.go:235-242 | rules with distinct ids do not disturb each other: the pass raises exactly what each rule raises over the windows from before it |
| RuleEvaluation.TriggersInRuleOrder | internal/processor/consumer.go:235-242 | the triggers of a pass come in the order of their rules |
| RuleEvaluation.PassFailsFirst | internal/processor/consumer.go:235-242 | a pass fails with the first rule that fails on its own: the windows up to that rule's have taken their step, those of later rules have not |
| RuleEvaluation.PassFitsSync | internal/processor/consumer.go:235-244 | a successful pass raises at most one trigger for each rule and dedupe key, only for loaded rules: what the state sync relies on |
| RuleEvaluation.RetriedPassAlike | internal/processor/consumer.go:155-161 | the whole pass over a redelivered batch, all rules in between and failing ones included, moves no window and gives the same triggers or the same error |
| Fields.LookupFirst | internal/queryapi/graph.go:321-335 | finds the value under the least key that any of the names matches |
| Fields.Extract | internal/processor/normalize.go:149-182 | removes every matching key and returns the value of the least one, whatever order the map was walked in |
| Batches.NormalizedRecordMeans | internal/processor/normalize.go:55-104 | when a record has a row; every column of it: tenant, id, tags in lower case, mapped level, trimmed message, template, fingerprint, size, own or receipt time, host, own or batch trace id, and the fields that are left |
| Batches.DashesDropped | internal/processor/normalize.go:184-189 | field names are compared without dashes and underscores, and with everything else |
| Batches.NormalizeBatch | internal/processor/normalize.go:33-53 | all rows in order, or nothing |
| Batches.NormalizedRowsStamped | internal/processor/normalize.go:87-103 | one row for each log, each stamped with the batch's tenant and ingest id; normalization fails if and only if a timestamp or some record's fields cannot be encoded |
| Batches.ResubmittedRowsAlike | internal/processor/normalize.go:55-104 | the same tenant, tags and logs normalize to the same rows but for the trace id, whatever receipt time and batch trace id |
| Processor.AcceptingStampsRows | internal/processor/consumer.go:117-129 | an accepted batch has an ingest id and at least one row, all rows under that id and tenant |
| Processor.AcceptedIff | internal/contracts/logsraw.go:28-56 | a batch is accepted if and only if the schema is logs.raw.v1, no required part is empty, and all times and remaining fields can be read; its state is synced as of the time it was received |
| Processor.NormalizedBatchesReplay | internal/processor/normalize.go:101 | batches whose rows have equal times under equal ingest ids meet what the engine's window asks of redeliveries |
| Processor.RecordsFromNormalized | internal/processor/alert_scheduler.go:109-135 | one alert record for each row in order, or an error |
| Processor.RecordsMean | internal/processor/alert_scheduler.go:109-135 | an alert record has its row's time, tenant, id, size and decoded attributes, and one row that does not decode fails them all |
| Processor.LogProcessor.SyncAlerts | internal/processor/consumer.go:247-252 | the sync takes effect as the environment says unless the tables refuse it, which they never do for a sound pass |
| Processor.LogProcessor.PersistBatch | internal/processor/consumer.go:159-173 | writes first; syncs only after a write that reported success |
| Processor.LogProcessor.HandleBatch | internal/processor/consumer.go:116-176 | the log moves as the handling function says for every failing or crashing call; the engine slides if and only if the batch is neither refused nor a replay; the alert tables take one sync with the engine's own triggers or stay |
| Processor.HandlingMeans | internal/processor/consumer.go:116-176 | done, poison or death of a handling and what it leaves in the log, call by call: done if and only if the replay check says yes or every call worked |
| Settlement.StreamConsumer.RejectMessage | internal/stream/consume_errors.go:39-71 | with a publisher, terminates only after the envelope with payload, reason and count is out; a publication not known to have worked leaves the message unsettled and ends the consumer; settled means that the termination reached the server |
| Settlement.StreamConsumer.ConsumeMessage | internal/stream/nats.go:279-342 | ack, nak or term as the ruling on the handler's result and the delivery count says, or an error |
| Settlement.ConsumeMeans | internal/stream/nats.go:279-357 | one delivery in plain terms: correlated ids, which end leads to ack, nak or rejection, the limit as an unsigned number, the columns of the envelope, and publication before termination |
| Settlement.EnvelopeMeans | internal/stream/consume_errors.go:52-69 | the envelope repeats payload, reason and count, and of a payload that decodes the id, tenant, service, environment, source and the correlated event |
| StreamRuns.HandleMoves | internal/processor/consumer.go:134-166 | a handling writes only the first time an id is seen and syncs only with that write; success means the id is stored; only unacceptable batches are poison |
| StreamRuns.StepKeepsLogInv | internal/processor/consumer.go:134-166 | every publication and every delivery, failing or crashing anywhere, keeps the rows of an id those of one message |
| StreamRuns.RunKeepsInv | internal/stream/nats.go:217-246 | the invariant of log, settlements and closed messages in every reachable state |
| StreamRuns.SettlementsAreSound | internal/stream/nats.go:279-342 | an acknowledged message's id is stored; a terminated one has a dead-letter event, and if its batch was acceptable its deliveries were used up |
| StreamRuns.ClosedMessagesAccountedFor | internal/stream/nats.go:279-342 | a message that is no longer delivered has its rows stored, once and equal in every column but the trace id, or is dead-lettered |
| StreamRuns.ClosedMessagesStoredExactly | internal/stream/nats.go:279-342 | exactly its own rows, when the messages under its id normalize to the same ones |
| StreamRuns.ResubmissionsNameRows | internal/processor/normalize.go:55-104 | messages that carry the same logs under an id, each log with its own time, have rows that differ in the trace id at most |
| StreamRuns.StoredOnceSyncedOnce | internal/processor/consumer.go:134-166 | the rows of an id are written at most once and alert state is synced at most once for it, only with its rows stored |
| StreamLimits.NakLeavesDeliveryIff | internal/stream/nats.go:312-334 | a nak leaves the server a delivery, except exactly on the last of several deliveries when the delivery count cannot be read |
| StreamLimits.NaksLeaveDeliveries | internal/stream/nats.go:312-334 | along every run with readable metadata, every nak is issued with a delivery left or no limit |
| StreamLimits.WorkingDeliverySettles | internal/stream/nats.go:279-342 | a delivery that the process survives, with working calls, closes the message or leaves it deliverable |
| StreamLimits.TerminatedIsDeadLetteredIff | internal/stream/consume_errors.go:48-50 | a terminated message has its dead-letter event if and only if a publisher is configured |
| StreamLimits.ClosedIff | internal/stream/nats.go:279-342 | a delivery closes its message if and only if the ruling is final, the envelope it needs is known to be published and the settlement reaches the server |
| StreamLimits.StrandedIff | internal/stream/nats.go:312-334 | a delivery strands its message, open but never delivered again, if and only if it is the last one and does not close it |
| StreamExamples.CrashOnLastDeliveryStrands | internal/stream/nats.go:217-246 | for every configuration with a delivery limit and every processable message: a run in which a crash on the last delivery leaves the message neither stored nor dead-lettered nor delivered again |
| StreamLimits.StoredSyncedIff | internal/processor/consumer.go:134-166 | along every run the state of a stored batch has been synced if and only if the delivery that first stored its rows saw the write work and its sync go through |
| StreamExamples.StoredBatchCanMissItsSync | internal/processor/consumer.go:134-166 | for every stamping configuration that delivers more than once and every processable message: a run in which a write fails after taking effect and the message is acknowledged without ever being synced |
| StreamExamples.RealConfigStamps | internal/processor/normalize.go:87-103 | validation and normalization stamp every row they accept, so every configuration that uses them is among those the stream results are for |
| StreamLimits.BlankIdsNeverStored | internal/processor/clickhouse.go:62-68 | along every run nothing is stored or synced under a blank ingest id and no message that carries one is acknowledged |
| StreamLimits.BlankIdDeadLetteredIff | internal/processor/clickhouse.go:62-68 | a delivery of such a batch dead-letters it if and only if there is a publisher that takes the envelope and the count read has reached the limit; otherwise it is only redelivered |
| EngineRuns.MadeWindows | internal/processor/consumer.go:235-242 | the windows after a pass are those after its calls, up to and including the first rule that fails |
| EngineRuns.RunKeepsSourced | internal/processor/consumer.go:134-158 | along every run each call the engine has had is for the records of some message and of that message's tenant |
| EngineRuns.EngineWindowsAreHistories | internal/processor/consumer.go:116-166 | along every stream run, with failed writes, redeliveries and restarts, what reaches a window meets the redelivery assumption, so each window is that of its history |
| EngineRuns.ResubmissionsNameTimes | internal/processor/normalize.go:60-67 | messages that carry the same logs under an id, each log with its own time, have rows at the same times |
| GraphRecords.FlowIdentity | internal/queryapi/graph.go:298-312 | the first identifier present among session, request, trace and user decides kind and key |
| GraphRecords.FlowKeysFaithful | internal/queryapi/graph.go:314-320 | splitting a flow key gives back its kind and id, colons included; two records share a flow if and only if they share both |
| GraphBuilder.TallyRecords | internal/queryapi/graph.go:180-201 | the first pass counts records and errors of each service and gathers each flow's records in order |
| GraphBuilder.NoteRecord | internal/queryapi/graph.go:218-249 | after each record the flow's edge map holds exactly the transitions so far, with their error and propagation marks |
| GraphBuilder.WalkFlow | internal/queryapi/graph.go:205-251 | one flow's services, edges, trace ids, user and errors; nodes named only by others are added empty |
| GraphBuilder.AddFlowToNodes | internal/queryapi/graph.go:252-254 | adds one flow to exactly the nodes seen in it, in any order |
| GraphBuilder.AddFlowToEdges | internal/queryapi/graph.go:255-268 | adds one flow to exactly the edges taken in it, with its error and propagation marks, in any order |
| GraphBuilder.WalkFlows | internal/queryapi/graph.go:205-271 | the walk over the flow map, in any order, leaves node and edge counts equal to counts over all flows |
| GraphBuilder.SortSessions | internal/queryapi/graph.go:290-295 | the same sessions, latest start first, then by id |
| GraphBuilder.BuildServiceGraph | internal/queryapi/graph.go:178-296 | nodes and edges are exactly those of the declarative graph, so they do not depend on map order; there is one session for each flow; the rows from here to `ResponseOrdered` say what they are on the records |
| GraphMeaning.EdgeIff | internal/queryapi/graph.go:218-249 | an edge from a to b is in the response if and only if some flow has a record of b whose least upstream field names a, a record of a whose least downstream field names b, or consecutive records of a and b; field names written out |
| GraphMeaning.EdgeMeans | internal/queryapi/graph.go:255-268 | its three counts are the flows that go that way, that do so at a record of one of the four error levels, and that pass from a failed record to a failed one |
| GraphMeaning.NodeIff | internal/queryapi/graph.go:180-251 | there is a node for exactly the services with a record and those that a record of some flow names |
| GraphMeaning.NodeMeans | internal/queryapi/graph.go:180-254 | a node counts the records of its service, those of the four error levels, and the flows the service takes part in |
| GraphMeaning.LettersOnly | internal/queryapi/graph.go:336-340 | field names are compared without underscores, dashes and dots, and with everything else |
| GraphSessions.SessionMeans | internal/queryapi/graph.go:270-271 | a session has the kind and id of the first identifier of exactly its records, their first and last time, counts, first user, trace ids and services |
| GraphSessions.OneSessionPerFlow | internal/queryapi/graph.go:270-271 | each kind and id that some record with a service has gets exactly one session, any other none |
| GraphSessions.ResponseOrdered | internal/queryapi/graph.go:273-295 | nodes come by service, edges by source and target, sessions latest first and then by id |
| Ordering.BelowMeans | internal/queryapi/graph.go:356-365 | the string order: equal up to a place where one string ends or has the smaller character |
| GraphLaws.NodeCountsConserveRecords | internal/queryapi/graph.go:183-197 | node log and error counts add up to the records, and the failed records, with a service |
| GraphLaws.SessionCountsConserveRecords | internal/queryapi/graph.go:198-201 | session log counts add up to the records with a service and a flow identity |
| GraphLaws.EdgesWellFormed | internal/queryapi/graph.go:218-268 | every edge joins two different nodes and its counts are ordered: propagated, error flows, flows, flow count of either end |
| GraphLaws.NodeFlowCountIsSessionCount | internal/queryapi/graph.go:252-271 | a node's flow count is the number of sessions listing its service, at most the number of sessions |
| GraphLaws.SessionBoundsEncloseFlow | internal/queryapi/graph.go:271 | on time-ordered records the bounds of a session enclose all records of its flow |
| GraphLaws.SessionBoundsTaken | internal/queryapi/graph.go:271 | each bound of a session is the time of some record of its flow |
| GraphLaws.SessionsNameTheirFlow | internal/queryapi/graph.go:270-271 | two sessions never share both kind and id |
| RateLimiter.MemoryRateLimiter.Allow | internal/ingest/ratelimit.go:24-49 | refuses exactly when the key is limited and the table counts limit requests of this second; counts each admission of a limited key, and leaves the counts of other keys alone |
| RateLimiter.SameSecondIff | internal/ingest/ratelimit.go:29-29 | two readings share a window if and only if one whole second of 10^9 ns holds both |
| RateLimiter.RefusedIff | internal/ingest/ratelimit.go:29-48 | for readings in any order: a request of a limited key is refused if and only if the key's last request was in the same second and the limit is used up since that second was opened |
| RateLimiter.AdmittedPerOpening | internal/ingest/ratelimit.go:29-48 | for readings in any order: a second admits at most the limit for each time its window is opened |
| RateLimiter.LimitHoldsIff | internal/ingest/ratelimit.go:29-48 | for readings in any order: a second admits at most the limit, and then exactly min(n, limit), if and only if its window is opened at most once or no more than the limit is asked for |
| RateLimiter.LateReadingBreaksLimit | internal/ingest/ratelimit.go:29-40 | a concrete run: readings 0, 1 s and 0 admit two requests of second 0 under a limit of one |
| RateLimiter.ExactlyLimitPerSecond | internal/ingest/ratelimit.go:34-48 | when a key's readings come in order, of its n requests in one clock second exactly min(n, limit) are admitted, whatever other keys do |
| RateLimiter.RefusedIffUsedUp | internal/ingest/ratelimit.go:34-48 | a request in the only opening of its second is refused if and only if limit requests of that second have been admitted |
| RateLimiter.BurstBound | internal/ingest/ratelimit.go:29-48 | any half-open interval of L seconds admits at most the limit for each opening of the L + 1 clock seconds it touches; at most (L + 1) * limit when the readings come in order |
| RateLimiter.BurstBoundIsTight | internal/ingest/ratelimit.go:29-40 | a concrete run reaches the bound: two requests a nanosecond apart pass a limit of one |

## Left out

- Parsing of rules (filter, threshold and group JSON, regular expressions): a rule arrives parsed, with its failures as one case.
- Overflow of a window or cooldown when converted to a duration: the columns are 32-bit, so the product fits.
- Trigger details that play no part in the lifecycle: rule name, severity, the group map carried in the trigger and the value field.
- Payloads of events and notifications, the dispatcher, and the `notification_enqueued` bookkeeping event.
- Overlapping state syncs, rules edited during a run, and workers that share an id, as `processor-inline` does across processors.
- Several processors racing on one batch: the replay check and the write are not atomic, and the code promises nothing there.
- The scheduled evaluation loop: it hands further batches to the same engine and syncs; only the calls it makes are modelled.
- AlertTables.AlertDatabase.SyncAlertState: failures of the connection itself are a step that leaves the tables, because a transaction rolls back as a whole.
- EngineRuns.EngineWindowsAreHistories: batches that the scheduled loop hands to the same engine are not part of these runs.
- Processor.LogProcessor.HandleBatch: correlation ids, logging and metrics are not modelled; inline dispatch is one call that may fail.
- Settlement.StreamConsumer.ConsumeMessage: observers and error callbacks are not modelled, and the delivery count is not bounded to 64 bits.
- The Consume loop's fetch errors and waits: a fetch that brings no message changes nothing.
- GraphBuilder.BuildServiceGraph: sessions that agree on start and id may come in any order, as the code's sort leaves them; the initial sort by time is an assumption on the input.
- Field values other than text in normalization and in the graph: values arrive printed.
- HTTP handlers, SQL text, clients, configuration, search, embeddings and the dashboard.
- Mutexes of the engine and the rate limiter: the parts under the locks are taken one after another. The limiter's clock is read before its lock, so its readings come in any order.
