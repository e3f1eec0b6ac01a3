# Kthena: verified models of the autoscaler and of the router's admission and routing state

Kthena serves language models on Kubernetes. This project models the parts of it that keep state and make
decisions, and proves what those decisions guarantee. To check it: `dafny verify dfyconfig.toml` (Dafny 4.11).

## What is modelled

**The autoscaler's decisions.** `SlidingWindow` holds the three sliding windows with their monotone deques; each is
proved to answer like a scan of everything ever appended. `Revision` is the arithmetic of the stable and panic
corrections and its monotonicity. `AutoscalerRun` composes them into reconcile cycles: `Status` and `Autoscaler` are
the objects, `IsRun` says which sequences of cycles they produce, and the rate limits, the stabilization and the panic
hold are theorems about every run. `Optimizer` splits heterogeneous backends into blocks and hands a total out over
them; conservation, monotonicity and cost optimality hold for every sorted order of the blocks. `ExpansionCost` bounds
what the default expansion rate can cost. `RoleRatio` repairs the prefill/decode ratio. `Histogram` estimates a
percentile from two scrapes, judged against the samples themselves.

**Request admission.** `AdmissionQueue` is a transition system: every mutex section, channel operation and atomic
operation of the dequeue loop, of the waiting callers, of releases, backend refreshes and shutdown is one step, and the
theorems are about every interleaving, in the semaphore, session-boost and fixed-rate modes. Below it, `RequestHeap` is
the array heap with its two orders, the rebuild, the drain of cancelled requests and the refresh loop of the dequeue.

**Token accounting.** `TokenTracker` keeps buckets with running sums, a lazy start index and compaction; the counts are
those of a scan of the list of all updates.

**Routing state.** `ModelRoutes` keeps the ModelRoute indexes, `HttpRouteMatch` selects an HTTPRoute match in two levels,
`PdGroups` keeps the prefill/decode groups of a model server. Each is tied to a reference with one definition: the map of
live routes, one lexicographic order on all candidates, one map from pods to classes.

`Common`, `Sums` and `GoStrings` hold shared vocabulary.

Floating-point values are reals and the 32- and 64-bit integers are unbounded, except where a conversion saturates
(`RoleRatio`) or leaves its result open (`Optimizer`). Clocks are parameters: one reading per operation, never going back.

## Where a promise does not hold as stated

- A wakeup can be lost against the *current* inflight limit: if pods are added while a pass waits inside
  `popWhenAvailable`, and their recheck finds the heap empty, the pass ends on the old limit. `WakeupLostWhenPodsChange` is
  such a run. `NoLostWakeup` holds for the limit the latest pass read, `NoLostWakeupUnlessMissed` for the current one in
  every run without such a recheck. The exception is real: `MissedRecheckLosesWakeup` continues a quiet state with a
  waiting loop and such a recheck to a lost wakeup.
- The rate limits are against recorded decisions, and need recorded cycles at most twice the period apart.
  `LongGapBreaksRateLimit` has a run for every longer gap. The count before the first recorded cycle is in no window:
  `FirstCountIsForgotten` has the run, `FirstCountDownLimit` what holds instead, and `FirstCountSurvivesIff` when its limit
  survives the second decision.
- One zero among the counts of the last panic period lifts the panic limit (`ZeroBreaksPanicLimit`); `PanicRateLimit` has
  the exact condition for one cycle, `PanicStretchLimit` the limit over a stretch of cycles without a zero.
- The fairness comparator is not always an order. `FairnessIsAnOrderIff` has the exact condition on a queue: no two requests
  of one user, the better scored one not earlier, with another user's request ranked between them. Equal scores, as a
  rebuild sets them, meet it.
- Ratio repair can empty one role although the webhook admitted the policy, when the minimums are zero
  (`AdmittedButUnpayable`); `LiveIffPayable` has the exact condition. The repaired pair can also miss the opposite bound of
  the band (`RepairMissesBand`); `NumeratorRepairReachesBandIff` and `DenominatorRepairReachesBandIff` say when it does not.
- `DeleteModelRoute` can close the queue of a name that is still registered, as the other kind of name.
  `DeletionClosesRegisteredIff` has the exact condition. Updates do not do this, except that queues are closed after the
  route lock is released, so that a route added in between can lose its new queue (`CleanUpAfterLateAdd`). `UpdateAmid`
  and `DeleteAmid` have the exact condition for any operations in between.
- Restored counts add up to the total only if no backend with a minimum is followed by one with the same target key:
  the later minimum overwrites the earlier one (`RepeatedKeysConserveIff`).
- The API reference describes `costExpansionRatePercent` as a cap on the cost, at 200 twice the minimal one. The code uses
  it as the growth factor of the block sizes, and the cap does not hold: with two backends the hand-out of 18 replicas
  can cost 39 where 18 would do (`ExpansionExceedsTwice`). What holds at 200 is a factor of three times the number of
  backends (`ExpansionIsBounded`). `CheapestIff` says exactly when the hand-out is the cheapest; up to rate 100 it always
  is (`RestoredIsCheapest`), above it need not be (`ExpansionIsNotCheapest`).
- A root path prefix matches every path except the empty one (`PathPrefixIsSegmentPrefix`).

## Model

| member | source | states |
|---|---|---|
| `SlidingWindow.BestFreshIsBest` | pkg/autoscaler/datastructure/sliding_window.go:87-94 | The reference answer of a record window is a recorded value still fresh, and no fresh record is better; there is none exactly when nothing is fresh |
| `SlidingWindow.ExpireRepresents` | pkg/autoscaler/datastructure/sliding_window.go:66-73 | Dropping the expired front of the deque loses no record that can still matter |
| `SlidingWindow.PushRepresents` | pkg/autoscaler/datastructure/sliding_window.go:75-85 | Popping dominated records from the back before appending keeps every fresh record covered by one that is as good and lasts as long |
| `SlidingWindow.FrontIsBest` | pkg/autoscaler/datastructure/sliding_window.go:87-94 | The front of such a deque is the best of the whole history |
| `SlidingWindow.RecordWindow.Append` | pkg/autoscaler/datastructure/sliding_window.go:75-85 | The history grows by one record and the deque still represents it |
| `SlidingWindow.RecordWindow.GetBest` | pkg/autoscaler/datastructure/sliding_window.go:87-94 | The answer is the brute-force best over all still-fresh records, nothing forgotten |
| `SlidingWindow.ChartBestIsBest` | pkg/autoscaler/datastructure/sliding_window.go:164-183 | The reference answer of a line chart is the best of the current value and of every value still in effect in the window |
| `SlidingWindow.SupersededAppend` | pkg/autoscaler/datastructure/sliding_window.go:148-162 | Appending stamps the drifting value with the moment it was replaced, if it had not drifted for more than twice the span |
| `SlidingWindow.ChartWindow.Expire` | pkg/autoscaler/datastructure/sliding_window.go:136-146 | Expiry drops old deque entries and a drifting value older than twice the span, and changes no answer |
| `SlidingWindow.ChartWindow.Append` | pkg/autoscaler/datastructure/sliding_window.go:148-162 | The history grows by one value and deque and drifting value still represent it |
| `SlidingWindow.ChartWindow.GetBest` | pkg/autoscaler/datastructure/sliding_window.go:164-183 | The answer is the best of the current value, the last value if not older than twice the span, and every value superseded within the span of now and within twice the span of its own append |
| `SlidingWindow.FrontDecides` | pkg/autoscaler/datastructure/sliding_window.go:222-236 | The front of the snapshot deque decides which snapshot of the whole history is the latest unfresh and unexpired one |
| `SlidingWindow.SnapshotWindow.Expire` | pkg/autoscaler/datastructure/sliding_window.go:201-214 | Expiry keeps every snapshot that can still be asked for |
| `SlidingWindow.SnapshotWindow.Append` | pkg/autoscaler/datastructure/sliding_window.go:216-220 | The history grows by one snapshot |
| `SlidingWindow.SnapshotWindow.GetLastUnfreshSnapshot` | pkg/autoscaler/datastructure/sliding_window.go:222-236 | The answer is the latest snapshot in the whole history that is no longer fresh and not expired, and None exactly when there is none |
| `Revision.ScaleDownConstraintMonotone` | pkg/autoscaler/algorithm/revision.go:77-98 | A larger past count never allows scaling further down, for the Or and the And of the absolute and the percent limit |
| `Revision.ScaleUpConstraintMonotone` | pkg/autoscaler/algorithm/revision.go:100-121 | A smaller past count never allows scaling further up |
| `Revision.CorrectedKeepsDownLimit` | pkg/autoscaler/algorithm/revision.go:44-98 | One correction stays above the scale-down constraint of every past value the chart window still sees |
| `Revision.CorrectedKeepsUpLimit` | pkg/autoscaler/algorithm/revision.go:64-121 | One stable correction stays below the scale-up constraint of every past value the chart window still sees |
| `Revision.CorrectedKeepsPanicLimit` | pkg/autoscaler/algorithm/revision.go:54-62 | One panic correction stays within the panic percentage of every count the window sees, or keeps the current one, while the window sees no zero |
| `Revision.ZeroLiftsPanicLimit` | pkg/autoscaler/algorithm/revision.go:54-62 | With a zero in the window the correction is the recommendation, not below the current count and not above the maximum |
| `Revision.PanicLimitIff` | pkg/autoscaler/algorithm/revision.go:54-62 | It does so for every count seen exactly when no zero is seen or nothing more is recommended |
| `Revision.CorrectedIsStabilized` | pkg/autoscaler/algorithm/revision.go:64-121 | One correction does not go beyond the current count and a recommendation recorded inside the stabilization window |
| `Revision.ConstraintsBound` | pkg/autoscaler/algorithm/revision.go:77-121 | A count may be reached from a past one exactly when the number of instances or the percentage of the past count covers the difference, under Or, and when both do, under And |
| `Revision.ScaleUpIsGreatest` | pkg/autoscaler/algorithm/revision.go:100-121 | Outside panic with more recommended, the decision is the greatest count up to the recommendation that exceeds no recommendation of the stabilization window and may be reached from every count the period sees; the current count if there is none |
| `Revision.ScaleDownIsLeast` | pkg/autoscaler/algorithm/revision.go:77-98 | With less recommended, dually the least such count |
| `Revision.PanicJumpIsGreatest` | pkg/autoscaler/algorithm/revision.go:54-62 | In panic, the greatest count up to the recommendation that the panic percentage allows from every count its period sees, unlimited if one of them is zero; never below the current count |
| `AutoscalerRun.EffectIsSeen` | pkg/autoscaler/datastructure/sliding_window.go:136-183 | The chart window sees exactly the counts of the decisions in effect: the latest, and every one superseded within the period that had not drifted for more than twice the period |
| `AutoscalerRun.ScaleDownRateLimit` | pkg/autoscaler/algorithm/revision.go:77-98 | In every run whose decisions are carried out, each new count is at least the scale-down constraint of every earlier recorded decision in effect during the last period |
| `AutoscalerRun.ScaleUpRateLimit` | pkg/autoscaler/algorithm/revision.go:100-121 | Dually, each new count is at most the scale-up constraint of every such decision after which no cycle was in panic |
| `AutoscalerRun.PanicRateLimit` | pkg/autoscaler/algorithm/revision.go:54-62 | In panic mode each new count is limited by the panic percentage of every such decision, or keeps the count, exactly when none of them was zero or nothing more is recommended; a zero among them lifts the limit altogether |
| `AutoscalerRun.PanicStretchLimit` | pkg/autoscaler/algorithm/revision.go:54-62 | Over any number of panic cycles in a row without a zero in effect, the count stays within the panic percentage of the decision they start from while that is in effect |
| `AutoscalerRun.ZeroBreaksPanicLimit` | pkg/autoscaler/algorithm/revision.go:54-62 | A run from zero over 10 to 100 replicas inside one panic period at a limit of 100 percent |
| `AutoscalerRun.FirstCountDownLimit` | pkg/autoscaler/algorithm/revision.go:77-98 | Against the count before the first recorded cycle the first decision respects the limit, and a later one, while the first is in effect, the limit of that limit |
| `AutoscalerRun.FirstCountUpLimit` | pkg/autoscaler/algorithm/revision.go:100-121 | Dually for scaling up outside panic |
| `AutoscalerRun.FirstCountIsForgotten` | pkg/autoscaler/algorithm/revision.go:77-98 | For every period a run whose second decision goes below the limit of the count before the first recorded cycle |
| `AutoscalerRun.FirstCountSurvivesIff` | pkg/autoscaler/algorithm/revision.go:77-98 | Without hold and stabilization, the limit of the count before the first recorded cycle survives every second decision exactly when it is at most the minimum or at most the limit of the first decision |
| `AutoscalerRun.Stabilization` | pkg/autoscaler/algorithm/revision.go:64-121 | In every run a count never drops below the lower of the current count and any recommendation recorded inside the stabilization window, and dually upwards outside panic |
| `AutoscalerRun.PanicIsHeld` | pkg/autoscaler/autoscaler/status.go:77-87 | Panic mode is on exactly while some trigger of the run is at most the hold time old |
| `AutoscalerRun.PanicIff` | pkg/autoscaler/autoscaler/scaler.go:129-134 | A cycle is decided in panic mode exactly when, within the hold time, a cycle so far or itself recommended at least the threshold percentage of its current count |
| `AutoscalerRun.CalmDecision` | pkg/autoscaler/algorithm/revision.go:44-121 | Every calm cycle of every run: the decision is the extreme allowed count between the current one and the recommendation, in terms of the times, recommendations and decisions of the earlier cycles |
| `AutoscalerRun.PanicDecision` | pkg/autoscaler/algorithm/revision.go:44-62 | Every panic cycle of every run: the greatest count the panic percentage allows from the decisions in effect |
| `AutoscalerRun.LongGapBreaksRateLimit` | pkg/autoscaler/datastructure/sliding_window.go:136-162 | For every gap above twice the period there is a run that breaks the scale-down limit |
| `AutoscalerRun.Status.AppendRecommendation` | pkg/autoscaler/autoscaler/status.go:66-69 | Both recommendation windows hold the run's recommendations with the new one |
| `AutoscalerRun.Status.AppendCorrected` | pkg/autoscaler/autoscaler/status.go:71-75 | All three decision windows hold the run's decisions with the new one |
| `AutoscalerRun.Status.CorrectedForPanic` | pkg/autoscaler/algorithm/revision.go:54-62 | The in-place windows give the answer computed from the history |
| `AutoscalerRun.Status.CorrectedForScaleDown` | pkg/autoscaler/algorithm/revision.go:77-98 | The in-place windows give the answer computed from the history |
| `AutoscalerRun.Status.CorrectedForScaleUp` | pkg/autoscaler/algorithm/revision.go:100-121 | The in-place windows give the answer computed from the history |
| `AutoscalerRun.Status.GetCorrectedInstances` | pkg/autoscaler/algorithm/revision.go:44-75 | The corrected count is the function of the history that the limits are proved about, within the bounds |
| `AutoscalerRun.Status.ScaleOneTarget` | pkg/autoscaler/autoscaler/scaler.go:113-151 | The decision and the panic refresh of one cycle as a function of the trace so far |
| `AutoscalerRun.Status.RecordResult` | pkg/autoscaler/autoscaler/scaler.go:153-159 | The status then tracks the trace with the new cycle |
| `AutoscalerRun.Status.constructor` | pkg/autoscaler/autoscaler/status.go:32-64 | A new status tracks the empty trace, each of its windows an object of its own |
| `AutoscalerRun.Autoscaler.Scale` | pkg/autoscaler/autoscaler/scaler.go:65-91 | A skipped cycle records nothing; any other is decided and recorded, and the trace stays a run, so the run theorems apply |
| `Optimizer.SplitIntoPackages` | pkg/autoscaler/autoscaler/optimizer.go:109-120 | The block-splitting loop terminates; block k holds the whole part of (rate / 100)^k replicas, at least one, at the price of that many, and the last block holds the rest |
| `Optimizer.BlocksFill` | pkg/autoscaler/autoscaler/optimizer.go:92-121 | At every rate the blocks under a key hold exactly the capacity between the bounds, and each is a nonempty part of its backend at that backend's price |
| `Optimizer.BlocksAreDivisions` | pkg/autoscaler/autoscaler/optimizer.go:92-121 | At every rate the blocks of each backend are none for an empty range, one priced per replica at rate 100, and otherwise such packages, all under its key and index |
| `Optimizer.SortBlocks` | pkg/autoscaler/autoscaler/optimizer.go:122-127 | A sorted permutation by cost, then backend position |
| `Optimizer.NewOptimizerMeta` | pkg/autoscaler/autoscaler/optimizer.go:83-138 | The bounds are the sums of the backends' bounds and the order is a sorted permutation of the blocks |
| `Optimizer.OrderIsByCost` | pkg/autoscaler/autoscaler/optimizer.go:122-127 | A cheaper block comes first, and of two at one price that of the earlier backend |
| `Optimizer.RestoreReplicasOfEachBackend` | pkg/autoscaler/autoscaler/optimizer.go:65-81 | Every backend gets its minimum plus what the hand-out along the order gives its key |
| `Optimizer.FillsInOrder` | pkg/autoscaler/autoscaler/optimizer.go:71-79 | The hand-out has one cut in the order: every block before it is used in full, that block in part, none after it |
| `Optimizer.RestoredIsFeasible` | pkg/autoscaler/autoscaler/optimizer.go:65-81 | Conservation: with distinct target keys, at every rate, the restored counts are within each backend's bounds and add up to the clamped total |
| `Optimizer.RepeatedKeysConserveIff` | pkg/autoscaler/autoscaler/optimizer.go:65-81 | With repeated target keys the counts add up to the clamped total exactly when the overwritten minimums come to nothing |
| `Optimizer.RepeatedKeyLosesMinimum` | pkg/autoscaler/autoscaler/optimizer.go:65-81 | Two backends with one key and a minimum on the first are never restored to the clamped total |
| `Optimizer.OneMoreReplica` | pkg/autoscaler/autoscaler/optimizer.go:65-81 | Raising the total by one within range raises exactly one backend by one and changes no other |
| `Optimizer.CheapestIff` | pkg/autoscaler/autoscaler/optimizer.go:65-127 | With distinct target keys, at every rate, the hand-out of every total is the cheapest within the bounds exactly when the price per replica does not fall along the order of the blocks |
| `Optimizer.FallingPriceIsNotCheapest` | pkg/autoscaler/autoscaler/optimizer.go:65-81 | Where the price falls from one block to a later one, the total that just fills the first is not handed out at the lowest cost |
| `Optimizer.LowRateRises` | pkg/autoscaler/autoscaler/optimizer.go:100-127 | At every rate up to 100 the price never falls along the order |
| `Optimizer.RestoredIsCheapest` | pkg/autoscaler/autoscaler/optimizer.go:65-127 | So at every rate up to 100 and with distinct target keys no allocation with the same total and bounds has a lower sum of cost times replicas |
| `Optimizer.ExpandedIsConstructed` | pkg/autoscaler/autoscaler/optimizer.go:109-127 | What the construction makes of two backends of similar price at rate 200 |
| `Optimizer.ExpansionIsNotCheapest` | pkg/autoscaler/autoscaler/optimizer.go:65-81 | For those two the price falls: the hand-out of two replicas costs more than two replicas of the cheaper one |
| `ExpansionCost.ExpansionIsBounded` | pkg/autoscaler/autoscaler/optimizer.go:65-127 | At rate 200 the replicas above the minimums cost at most three times the number of backends what they cost in any allocation with the same total and bounds |
| `ExpansionCost.ExpansionIsBoundedInAll` | pkg/autoscaler/autoscaler/optimizer.go:65-127 | The same of the whole cost, when no minimum is negative |
| `ExpansionCost.MixedIsConstructed` | pkg/autoscaler/autoscaler/optimizer.go:100-127 | The blocks and their order for two backends of prices 8 and 1 at rate 200 |
| `ExpansionCost.ExpansionExceedsTwice` | pkg/apis/workload/v1alpha1/autoscalingpolicy_types.go:447-449 | The cap of twice the minimal cost is broken: for those two the hand-out of 18 replicas costs 39, where 18 is possible |
| `RoleRatio.Ceil32` | pkg/autoscaler/algorithm/disaggregated_ratio.go:136-148 | The least integer not below the value, saturated |
| `RoleRatio.Floor32` | pkg/autoscaler/algorithm/disaggregated_ratio.go:151-163 | The greatest integer not above the value, saturated |
| `RoleRatio.PositiveMinimumsArePayable` | pkg/autoscaler/webhook/autoscalingpolicy_validator.go:287-307 | With positive minimums the admission checks make both ratio bounds payable |
| `RoleRatio.RaisedNumerator` | pkg/autoscaler/algorithm/disaggregated_ratio.go:94-106 | A ratio below the minimum raises the numerator to the least sufficient value, or saturates it and lowers the denominator to the greatest sufficient value |
| `RoleRatio.RaisedDenominator` | pkg/autoscaler/algorithm/disaggregated_ratio.go:107-123 | A ratio above the maximum raises the denominator to the least sufficient value, or saturates it and lowers the numerator to the greatest sufficient value |
| `RoleRatio.RepairIsSound` | pkg/autoscaler/algorithm/disaggregated_ratio.go:92-127 | The result is within bounds with both roles live, the violated bound holds afterwards by the least change, and pairs in the band are fixpoints |
| `RoleRatio.RepairIsBest` | pkg/autoscaler/algorithm/disaggregated_ratio.go:92-127 | For every band, admitted or not: the deficient side is raised to the least sufficient value, else to its maximum with the other side lowered to the greatest sufficient value or its minimum |
| `RoleRatio.SeededIsLive` | pkg/autoscaler/algorithm/disaggregated_ratio.go:83-91 | A role at zero is seeded with one replica and any other keeps its count, which gives a live pair within bounds |
| `RoleRatio.BoundedIsNearest` | pkg/autoscaler/algorithm/disaggregated_ratio.go:40-46 | A role moves to the nearest value in its bounds, and stays if it has no bounds |
| `RoleRatio.MissingIsFirst` | pkg/autoscaler/algorithm/disaggregated_ratio.go:53-68 | The error names the first thing missing |
| `RoleRatio.LiveIffPayable` | pkg/autoscaler/algorithm/disaggregated_ratio.go:92-127 | Both roles stay live for every input exactly when each ratio bound can be met with one replica on the other side |
| `RoleRatio.AdmittedButUnpayable` | pkg/autoscaler/webhook/autoscalingpolicy_validator.go:287-307 | A policy that passes the admission checks and whose repair leaves one role without replicas |
| `RoleRatio.NumeratorRepairReachesBandIff` | pkg/autoscaler/algorithm/disaggregated_ratio.go:94-106 | A numerator repair ends inside the whole band exactly when the side it keeps has a partner there |
| `RoleRatio.DenominatorRepairReachesBandIff` | pkg/autoscaler/algorithm/disaggregated_ratio.go:107-123 | A denominator repair ends inside the whole band exactly when the side it keeps has a partner there |
| `RoleRatio.RepairMissesBand` | pkg/autoscaler/algorithm/disaggregated_ratio.go:94-106 | A pair below the band that the repair lifts above it |
| `RoleRatio.EnforceRoleRatio` | pkg/autoscaler/algorithm/disaggregated_ratio.go:37-133 | The four error cases in order, other roles only bounded, two zeros kept, and otherwise the repaired pair of the seeded inputs; adjusted exactly when something was seeded or out of band, with the resulting ratio |
| `Histogram.Rank` | pkg/autoscaler/histogram/histogram.go:91-95 | The nearest rank, rounded up, between 1 and the number of samples |
| `Histogram.Walk` | pkg/autoscaler/histogram/histogram.go:96-121 | The walk answers from the first nonempty bucket that reaches the rank, dividing the bucket as the rank divides its samples, and each of its errors means what it says |
| `Histogram.QuantileInDiff` | pkg/autoscaler/histogram/histogram.go:61-122 | Every refusal in order, zero for no new samples, and otherwise the walk at the nearest rank |
| `Histogram.QuantileBrackets` | pkg/autoscaler/histogram/histogram.go:96-116 | If the selected bucket is finite, both the estimate and the true nearest-rank percentile of the added samples lie in it |
| `Histogram.QuantileDivides` | pkg/autoscaler/histogram/histogram.go:96-116 | In its bucket, finite or infinite, the estimate leaves above it the share of the bucket that the samples above the rank are of the samples in it; the highest rank gets the upper end, and an infinite bucket ends at twice its lower end |
| `Histogram.QuantileFoundIff` | pkg/autoscaler/histogram/histogram.go:98-121 | On real scrapes the counts never break the order, and a bucket is found exactly when the true percentile is under the last boundary |
| `Histogram.QuantileIsMonotone` | pkg/autoscaler/histogram/histogram.go:96-116 | A higher rank never gets a lower answer, and inside a bucket every rank is an equal step |
| `Histogram.RankIsMonotone` | pkg/autoscaler/histogram/histogram.go:91-95 | A higher percentile never gets a lower rank |
| `AdmissionQueue.StepKeepsInv` | pkg/kthena-router/datastore/session_boost_queue.go:149-412 | Every step of the loop, of a caller or of the environment keeps the whole protocol invariant |
| `AdmissionQueue.PermitConservation` | pkg/kthena-router/datastore/fairness_queue.go:551-598 | In every reachable state permits are the admitted but unreleased requests plus the one the loop may hold, at most MaxConcurrent, and no request is both admitted and abandoned |
| `AdmissionQueue.PermitReturnsOnce` | pkg/kthena-router/datastore/fairness_queue.go:182-211 | A permit is returned only by its owner, once, and there is always one to return |
| `AdmissionQueue.FinishedReturnedPermit` | pkg/kthena-router/router/router.go:1718-1766 | No permit leaks: a caller that is done has returned the permit of its admission, and when all are done none is out |
| `AdmissionQueue.NotifyClosesOnce` | pkg/kthena-router/datastore/fairness_queue.go:551-598 | NotifyChan is closed at most once, and after the admission is committed |
| `AdmissionQueue.InflightBounded` | pkg/kthena-router/datastore/session_boost_queue.go:352-412 | No admission raises the inflight count above the limit its pass computed |
| `AdmissionQueue.AdmissionWasChecked` | pkg/kthena-router/datastore/session_boost_queue.go:352-412 | Every admission of every run was preceded, in order and since the last admission, by an inflight count under the pod limit just read, a backend check that found capacity and a nonempty queue |
| `AdmissionQueue.BusyBackendsAdmitNothing` | pkg/kthena-router/datastore/session_boost_queue.go:380-388 | A run in which every backend check finds the backends busy admits nothing |
| `AdmissionQueue.FreedSlotIsHeld` | pkg/kthena-router/datastore/session_boost_queue.go:220-226 | With a grace period no admission follows a taken release before the period ends or the queue stops |
| `AdmissionQueue.PassWaitsForGrace` | pkg/kthena-router/datastore/session_boost_queue.go:247-253 | Nor does a pass start on an arrival or refresh while a release is pending |
| `AdmissionQueue.AdmittedWasLive` | pkg/kthena-router/datastore/fairness_queue.go:373-386 | Every admitted request was queued and not cancelled when popped, and in semaphore mode was found not cancelled again before its permit |
| `AdmissionQueue.RefusedPassDrains` | pkg/kthena-router/datastore/session_boost_queue.go:320-346 | A pass that ends for want of room or capacity takes exactly the cancelled requests out of the queue |
| `AdmissionQueue.TicksPaceAdmissions` | pkg/kthena-router/datastore/fairness_queue.go:525-549 | In the fixed-rate mode no more requests are let through than there were ticks |
| `AdmissionQueue.LoopEndsOnlyWhenStopping` | pkg/kthena-router/datastore/fairness_queue.go:512-599 | The loop ends only when the queue is closed or its context is done |
| `AdmissionQueue.NoLostWakeup` | pkg/kthena-router/datastore/session_boost_queue.go:210-307 | An idle loop with a held request, room and capacity under the pass limit always has a signal pending or about to be sent |
| `AdmissionQueue.NoLostArrival` | pkg/kthena-router/datastore/fairness_queue.go:373-447 | In every mode and every interleaving, a loop that waits for an arrival although a request is queued has been or is about to be signalled |
| `AdmissionQueue.FixedPodsFixLimit` | pkg/kthena-router/datastore/session_boost_queue.go:352-412 | Without a change of the pod count every pass reads the same limit |
| `AdmissionQueue.NoLostWakeupWithFixedPods` | pkg/kthena-router/datastore/session_boost_queue.go:210-307 | With a fixed pod count no wakeup is lost against the current limit |
| `AdmissionQueue.NoLostWakeupUnlessMissed` | pkg/kthena-router/datastore/session_boost_queue.go:259-273 | With any changes of the pod count no wakeup is lost against the current limit, unless the recheck of a risen limit finds the heap empty while a pass that read the old limit may still wait |
| `AdmissionQueue.MissedRecheckLosesWakeup` | pkg/kthena-router/datastore/session_boost_queue.go:259-273 | From every quiet state whose loop waits, a recheck of a risen limit that finds the heap empty can be followed by arrivals and the loop's own steps to a state with a lost wakeup |
| `AdmissionQueue.FallingPodsMissNothing` | pkg/kthena-router/datastore/session_boost_queue.go:352-412 | That never happens while the pod count only falls |
| `AdmissionQueue.WakeupLostWhenPodsChange` | pkg/kthena-router/datastore/session_boost_queue.go:352-412 | A run with a changed pod count that ends with a held request and nothing to wake the loop |
| `AdmissionQueue.ClosedStaysClosed` | pkg/kthena-router/datastore/fairness_queue.go:601-629 | After Close the queue stays empty and no push is accepted, whatever happens |
| `AdmissionQueue.ShutdownLosesNothing` | pkg/kthena-router/datastore/fairness_queue.go:485-629 | The size gauge is the heap length in every state, and once closed and exited every accepted request was admitted, signalled or cancelled |
| `RequestHeap.LessIsPrecedes` | pkg/kthena-router/datastore/fairness_queue.go:284-311 | The session-boost comparator is one lexicographic order on all requests; the fairness comparator is one exactly on agreeing requests |
| `RequestHeap.ServedFirst` | pkg/kthena-router/datastore/fairness_queue.go:284-311 | Follow-ups first, the most recent turn first among them, then arrival; in fairness mode the lower score, and arrival within a user or at equal scores |
| `RequestHeap.PrecedesIsStrictWeakOrder` | pkg/kthena-router/datastore/fairness_queue.go:284-311 | That order is irreflexive, transitive and has transitive ties |
| `RequestHeap.DisagreementBreaksFairnessOrder` | pkg/kthena-router/datastore/fairness_queue.go:284-311 | Two requests of one user that disagree and any one of another user scored in between break transitivity |
| `RequestHeap.SessionBoostIsAnOrder` | pkg/kthena-router/datastore/fairness_queue.go:284-311 | The session-boost comparator is a strict weak order on every queue |
| `RequestHeap.FairnessIsAnOrderIff` | pkg/kthena-router/datastore/fairness_queue.go:284-311 | The fairness comparator is a strict weak order on a queue exactly when no disagreeing pair of one user has a request of another user ranked between it, ends included |
| `RequestHeap.RootPrecedesAll` | pkg/kthena-router/datastore/fairness_queue.go:313-331 | Nothing in a heap is less than its root, wherever the comparator is an order |
| `RequestHeap.RequestQueue.Push` | pkg/kthena-router/datastore/fairness_queue.go:313-369 | The heap holds the request more and stays a heap |
| `RequestHeap.RequestQueue.Pop` | pkg/kthena-router/datastore/fairness_queue.go:313-331 | The heap holds the returned request less, stays a heap, and no request preceded the one returned |
| `RequestHeap.RequestQueue.DrainCancelled` | pkg/kthena-router/datastore/session_boost_queue.go:320-346 | Exactly the cancelled requests go, the count says how many, and the rest is a heap |
| `RequestHeap.RequestQueue.Rebuild` | pkg/kthena-router/datastore/fairness_queue.go:467-483 | Every request keeps its place in the multiset with its refreshed score, and the result is a heap whatever it was before |
| `RequestHeap.RequestQueue.Reinsert` | pkg/kthena-router/datastore/fairness_queue.go:398-423 | A refreshed request goes back without making any other stale |
| `RequestHeap.RequestQueue.PopWhenAvailable` | pkg/kthena-router/datastore/fairness_queue.go:373-447 | The refresh loop ends, only cancelled requests are dropped, nothing else is lost; what is handed out is not cancelled, carries its current score, was a first request of the queue it was taken from, and if just refreshed does not score above the new head |
| `TokenTracker.Prune` | pkg/kthena-router/datastore/token_tracker.go:123-161 | Pruning and compaction change no count inside the window, keep running sums, and leave a dead prefix that is empty or under half the slice |
| `TokenTracker.ActiveUsage` | pkg/kthena-router/datastore/token_tracker.go:164-215 | One subtraction of running sums is the sum over the buckets in the window, for tokens and requests |
| `TokenTracker.Account` | pkg/kthena-router/datastore/token_tracker.go:275-299 | Exactly the new amount is added to every window that includes the current second |
| `TokenTracker.Record` | pkg/kthena-router/datastore/token_tracker.go:252-299 | The buckets then account for the log with the update appended |
| `TokenTracker.UsageIsCounted` | pkg/kthena-router/datastore/token_tracker.go:240-302 | The reference counts every update in the window once and adds its tokens |
| `TokenTracker.InWindowIff` | pkg/kthena-router/datastore/token_tracker.go:117-120 | An update is in the window exactly from the start of the second in which the window begins |
| `TokenTracker.InMemoryTracker.WeighedIs` | pkg/kthena-router/datastore/token_tracker.go:265-273 | Input tokens carry the input weight, output tokens the output weight, and negative amounts count as none |
| `TokenTracker.InMemoryTracker.UpdateTokenCount` | pkg/kthena-router/datastore/token_tracker.go:240-302 | An empty name is refused and changes nothing; any other update is logged with negative amounts as zero, and every user's buckets still account for the log |
| `TokenTracker.InMemoryTracker.GetTokenCount` | pkg/kthena-router/datastore/token_tracker.go:218-238 | The weighted token sum of all updates ever made that are at or after the cutoff |
| `TokenTracker.InMemoryTracker.GetRequestCount` | pkg/kthena-router/datastore/token_tracker.go:305-325 | The number of all updates ever made that are at or after the cutoff |
| `ModelRoutes.LessIsTotal` | pkg/kthena-router/datastore/store.go:1447-1459 | The route order decides between any two routes with different keys |
| `ModelRoutes.LessIsTransitive` | pkg/kthena-router/datastore/store.go:1447-1459 | The route order is transitive |
| `ModelRoutes.LessIsOlder` | pkg/kthena-router/datastore/store.go:1447-1459 | The route created first comes first; the resource version and then the key break ties |
| `ModelRoutes.KeyIsUnique` | pkg/kthena-router/datastore/store.go:1447-1459 | Namespaces hold no slash, so different routes have different keys |
| `ModelRoutes.SortModelRoutes` | pkg/kthena-router/datastore/store.go:1447-1459 | Strictly sorted, and a permutation |
| `ModelRoutes.Upsert` | pkg/kthena-router/datastore/store.go:1288-1306 | The list then holds the route once, in order, and everything it held before |
| `ModelRoutes.DropAll` | pkg/kthena-router/datastore/store.go:1372-1409 | An index without one route, no empty list left, and exactly the names it left empty |
| `ModelRoutes.PutAll` | pkg/kthena-router/datastore/store.go:1288-1325 | An index that lists the new route under exactly its names |
| `ModelRoutes.Unindex` | pkg/kthena-router/datastore/store.go:1364-1434 | Both indexes without the route; the cleanup candidates are exactly the names it was the only one to register as one kind |
| `ModelRoutes.RouteStore.AddOrUpdateModelRoute` | pkg/kthena-router/datastore/store.go:1278-1362 | Uninterrupted: the indexes are those of the new live routes; closed are exactly the queues of the replaced route's names that nothing registers any more, never one that stays registered |
| `ModelRoutes.RouteStore.PublishModelRoute` | pkg/kthena-router/datastore/store.go:1278-1351 | The part under the route lock: the indexes are those of the new live routes, and to be closed are exactly the abandoned names |
| `ModelRoutes.RouteStore.UpdateAmid` | pkg/kthena-router/datastore/store.go:1278-1353 | With any operations between the locked part and the clean-up: closed are exactly the queues of the names abandoned at publication, and one of them is registered exactly when an operation in between put it back |
| `ModelRoutes.RouteStore.CleanUpAfterLateAdd` | pkg/kthena-router/datastore/store.go:1351-1353 | A route added between the two parts that registers an abandoned name again loses the name's new queue to the clean-up |
| `ModelRoutes.RouteStore.DeleteModelRoute` | pkg/kthena-router/datastore/store.go:1461-1478 | Uninterrupted: the indexes are those of the remaining routes; closed are exactly the queues of the names whose base-model or adapter list became empty |
| `ModelRoutes.RouteStore.UnpublishModelRoute` | pkg/kthena-router/datastore/store.go:1461-1465 | The part under the route lock: the indexes are those of the remaining routes, and to be closed are exactly the names left without a route of one kind |
| `ModelRoutes.RouteStore.DeleteAmid` | pkg/kthena-router/datastore/store.go:1461-1468 | With any operations in between: closed are exactly those queues, and one of them is registered exactly when the name kept a route or an operation in between put it back |
| `ModelRoutes.RegisteredAfterIff` | pkg/kthena-router/datastore/store.go:1278-1478 | After any operations a name is registered exactly when a route it had is still there or one of them put one that is |
| `ModelRoutes.DeletionClosesRegisteredIff` | pkg/kthena-router/datastore/store.go:1461-1478 | A deletion closes the queue of a registered name exactly when the route was the last of its kind and another route registers the name as the other kind |
| `ModelRoutes.DeletionClosesSharedName` | pkg/kthena-router/datastore/store.go:1461-1478 | It happens for every two routes that share a name across the kinds |
| `ModelRoutes.RouteStore.HasModel` | pkg/kthena-router/datastore/store.go:2236-2245 | True exactly when some live route registers the name |
| `ModelRoutes.RouteStore.GetModelRoute` | pkg/kthena-router/datastore/store.go:2276-2312 | The live route of that key, unless it registers nothing |
| `ModelRoutes.RouteStore.MatchModelRoute` | pkg/kthena-router/datastore/store.go:1496-1552 | The oldest accepting live route of the base model, or of the adapter if no route has it as base model; None exactly when none accepts |
| `HttpRouteMatch.PathPrefixIsSegmentPrefix` | pkg/kthena-router/router/httproute_match.go:426-432 | Prefix matching is prefix of the segment lists, trailing slashes aside, except for the root prefix on the empty path |
| `HttpRouteMatch.PathMatchIff` | pkg/kthena-router/router/httproute_match.go:396-424 | When an exact, prefix or regular-expression match accepts a path, with its defaults, and which prefix it reports |
| `HttpRouteMatch.MatchesIff` | pkg/kthena-router/router/httproute_match.go:162-219 | A rule without matches accepts everything; a match accepts exactly when it has no unsupported constraint and its path match, if any, accepts |
| `HttpRouteMatch.MoreSpecificPathWins` | pkg/kthena-router/router/httproute_match.go:221-255 | Of two path matches for one request an exact one wins, then the longer prefix, and a regular expression loses to both |
| `HttpRouteMatch.PatternMatches` | pkg/kthena-router/router/httproute_match.go:483-506 | An equal pattern matches exactly; a wildcard matches exactly the hosts with something before its suffix, and ranks below by its length |
| `HttpRouteMatch.MatchHostnames` | pkg/kthena-router/router/httproute_match.go:437-455 | The rank of the most specific matching hostname, the lowest rank for a route without hostnames, None exactly when none matches |
| `HttpRouteMatch.FindBestRuleMatch` | pkg/kthena-router/router/httproute_match.go:162-215 | The best match of one route by specificity and list order, None exactly when none matches |
| `HttpRouteMatch.CompareMatchIsAnOrder` | pkg/kthena-router/router/httproute_match.go:261-303 | The cross-route comparison is antisymmetric and transitive |
| `HttpRouteMatch.ComparisonsArePrecedence` | pkg/kthena-router/router/httproute_match.go:221-303 | Both comparisons together are one order: more specific hostname, more specific path, created earlier, namespace, name, then rule and match order |
| `HttpRouteMatch.FindHTTPRouteMatch` | pkg/kthena-router/router/httproute_match.go:93-124 | The two-level choice is the first of all candidates in that order, None exactly when there is no candidate |
| `HttpRouteMatch.FirstIsUnique` | pkg/kthena-router/router/httproute_match.go:93-124 | The winner depends only on which routes there are, not on their enumeration |
| `PdGroups.CheckLabels` | pkg/kthena-router/datastore/model_server.go:204-215 | No required labels match nothing; otherwise every required label must be there with its value |
| `PdGroups.ClassOfIff` | pkg/kthena-router/datastore/model_server.go:91-126 | A pod has the group its group label names, as decode exactly when it has all decode labels, as prefill exactly when it has all prefill labels and not all decode labels |
| `PdGroups.IndexesAgree` | pkg/kthena-router/datastore/model_server.go:33-39 | A pod is in a group's set of a role exactly when the reverse index maps it there, in one role and one group only, and no group is empty |
| `PdGroups.GroupedWithoutPod` | pkg/kthena-router/datastore/model_server.go:136-153 | Taking a pod out of its group, and an emptied group out of the map, is the grouping of the classification without the pod |
| `PdGroups.GroupedWithPod` | pkg/kthena-router/datastore/model_server.go:91-115 | Adding a pod to its group, made if need be, is the grouping of the classification with the pod |
| `PdGroups.ModelServer.RemovePodFromPDGroups` | pkg/kthena-router/datastore/model_server.go:128-153 | The classification loses the pod; groups and reverse indexes follow |
| `PdGroups.ModelServer.CategorizePodForPDGroup` | pkg/kthena-router/datastore/model_server.go:82-115 | The pod's class is replaced by the one its labels give now, or taken away; groups and reverse indexes follow |
| `PdGroups.ModelServer.Update` | pkg/kthena-router/datastore/store.go:938-962 | Any change of the workload selector, match labels included, classifies anew exactly the known pods of the server; an unchanged one keeps the classification |
| `PdGroups.ModelServer.Populate` | pkg/kthena-router/datastore/store.go:922-937 | A new server classifies exactly the known pods given with it |
| `PdGroups.ModelServer.GetPrefillPodsForDecodeGroup` | pkg/kthena-router/datastore/model_server.go:180-201 | Exactly the prefill pods of the decode pod's own group, none for any other pod |

## Left out

- Metric scraping, GetRecommendedInstances and Prometheus queries: a cycle's recommendation is any value within the bounds, or a skip.
- Runs of the heterogeneous and disaggregated scalers: they reuse the status and the corrections modelled here.
- IEEE rounding, NaN and infinities, and int32/int64 wrap-around.
- Clock readings: each operation reads the clock once, where the code may read it again a moment later.
- Optimizer.RestoredIsCheapest: assumes distinct target keys, because backends with one key share one replica count and have no cost of their own.
- RequestHeap.RequestQueue.PopWhenAvailable: pushes do not interleave with it, and with score refresh it does not compare the request with those dropped or reinserted before, because a refresh changes scores one request at a time.
- Heap order inside AdmissionQueue: there the heap is a set and any queued request may be popped; RequestHeap decides which. Grace timing and tick rates are left open, and the signal after requeueRequest belongs to its push, since the only receiver is leaving.
- Locking outside the admission queue: the stores, the tracker and the model server are modelled one critical section at a time, as their mutexes serialize them; only the late clean-up of waiting queues is stated for every interleaving.
- ModelRoutes.RouteStore.AddOrUpdateModelRoute: states the uninterrupted operation, because the source closes queues after releasing the route lock; UpdateAmid states the interrupted one.
- ModelRoutes.RouteStore.DeleteModelRoute: states the uninterrupted operation, for the same reason; DeleteAmid states the interrupted one.
- ExpansionCost.ExpansionIsBounded: is about rate 200, the default, with distinct keys and with costs and replica ranges as the API validation admits them; the least factor that always holds is left open.
- Opening of waiting queues, gateway-to-route indexes, callbacks, the regex cache, rule selection and weighted destinations of ModelRoutes.
- Regular expressions, listener attachment, host and pattern normalization, URL rewriting and backend weights of HTTPRoutes.
- The sorting in NewSnapshotOfHistogram: scrapes are taken with increasing boundaries.
- Consistency between a model server's pods and the pod records: it holds only after later pod events.
- Session stores, Redis counters, KV connectors, proxying, tokenizers and all Kubernetes plumbing.
