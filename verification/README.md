# A verified model of tinyllb

tinyllb is a proxy in front of one LLM inference server. It admits requests through a deficit round robin
(DRR) scheduler, pins sessions to KV-cache slots, classifies request cadence, watches the backend for
stalls, and repairs degenerate or broken streams by re-sending. This project models those parts and proves
what they guarantee, for every input, every run and every backend.

`dafny verify dfyconfig.toml` checks everything. Code that updates state in place is a class whose methods
are proved against specification functions; the theorems are about those functions.

| file | models |
|---|---|
| `Flows.dfy` | flow identifiers and shared sequence operations |
| `Priority.dfy`, `BiasedSelection.dfy` | fair selection and KV-biased selection |
| `Drr.dfy`, `DrrState.dfy` | the scheduler state as a value, and the class that changes it in place |
| `Fairness.dfy`, `BoundedWaiting.dfy`, `QueuedWaiting.dfy`, `ForcedSelection.dfy`, `Starvation.dfy` | guarantees over whole scheduler runs |
| `Drain.dfy` | the admission loop's drain: termination, permits, where it stops, closed form |
| `Admission.dfy`, `Tickets.dfy` | every interleaving of enqueuers, waiters, tickets, pressure and the loop |
| `PressureCap.dfy`, `Reporting.dfy` | the pressure ladder, queue reports |
| `Accounting.dfy`, `Credit.dfy` | charges and the progress tracker, and the scheduler's own credit over its runs |
| `Sse.dfy`, `Stream.dfy`, `StreamSafety.dfy`, `StreamRuns.dfy`, `StreamFates.dfy`, `StreamPrefix.dfy` | SSE framing and the streaming retry machine |
| `ProxyRetry.dfy` | transient re-forwarding, backoff, the non-streaming retry loop, total work per request |
| `Slots.dfy`, `Registry.dfy` | slot allocation and the reaper |
| `Cadence.dfy`, `Watchdog.dfy` | two online monitors against specifications over the whole history |

Time is an integer clock. Weights and costs are the integers left after `as i64`; scores, footprints and
pressures are reals. The clock readings, weights, priorities, footprints and pressure of a round, the
backend's replies, frame classification and client departure are arbitrary parameters.

Where the code and its documentation differ, the model follows the code:

- `lat.md/scheduler_policies.md:39` puts the base-score tolerance before "lower score wins", as `cmp_fair`
  does; the selection loop tests the lower score first (`src/scheduler/priority.rs:54-60`). The two choose
  alike from every listing of some candidates exactly when no two are contested: equal priority, bases less
  than epsilon apart, and the lower base not enqueued earlier (`ScansAgreeIff`). The scheduler's integer
  bases never are.
- The comments at `src/gateway/retry.rs:10` and 62 say that a premature stop is `finish_reason == "stop"`;
  the code, and the model, also take `"length"`.
- The comment at `src/gateway/retry.rs:411` promises `min(backoff_start * 2^(attempt-1), backoff_max)`; the
  first delay is not capped. `TransientBackoff` says exactly when the two agree.
- A forced selection keeps the flow's deficit, also when it empties the flow's queue
  (`src/scheduler/drr.rs:340-374`), so a flow that is not waiting can hold one
  (`DeficitOfAFlowThatIsNotWaiting`). `enqueued_at` is one slot per flow; `StarvedIffLastEnqueueIsOld` says
  what the starvation check then measures.
- A tracker entry is exact only while estimates are at least 1 (`ExactAfterCloseIff`).
- The incomplete last frame of a replaced attempt stays in front of the next attempt's frames exactly when
  the attempt was read to its end (`ReplacedAttemptFlushesIff`), so the frame-level stream theorems speak of
  complete frames.

## Model

| member | source | states |
|---|---|---|
| `DrrScheduler.DrrState.Enqueue` | src/scheduler/drr.rs:579-597 | under the lock an enqueue appends one request, with the given cost and time and a fresh id, at the back of its flow's queue, lists the flow last in the cursor if it was not listed, and changes nothing else |
| `DrrScheduler.DrrState.StampEnqueued` | src/scheduler/drr.rs:600-604 | the separate write of the flow's one enqueue timestamp overwrites what was there and touches nothing else |
| `DrrScheduler.DrrState.DropGuard` | src/scheduler/drr.rs:860-884 | under the lock, dropping an unconsumed guard removes its own entry, forgets the flow's deficit exactly when that empties its queue, clears its timestamp, and leaves other flows, permits and credit alone |
| `DrrScheduler.DrrState.TrySelect` | src/scheduler/drr.rs:301-527 | the in-place round (gates, starved flow, crediting, candidate choice, rotation) is the specification's round; under the queue invariant no `expect` or `unwrap` in it can fail |
| `ForcedSelection.ForcedPickLeadsTheStarved` | src/scheduler/drr.rs:309-374 | a round forces a selection if and only if a permit is free below the cap and a listed flow is starved; it takes the head request of the starved flow that stands first in the cursor |
| `ForcedSelection.StarvedFlowMovesUp` | src/scheduler/drr.rs:320-364 | a round that finds a flow starved and takes another takes one in front of it, so its cursor index falls by one |
| `ForcedSelection.StarvedFlowIsForcedWithinBound` | src/scheduler/drr.rs:309-374 | a flow that stays queued and starved at cursor index i is passed over by at most i rounds that pass the cap gate, whatever arrives, is cancelled or is released in between |
| `DrrScheduler.DrrState.AccumulateCredit` | src/scheduler/drr.rs:380-426 | one pass adds each waiting flow's positive weight exactly once and finds exactly the flows whose deficit covers their head's cost, in cursor order |
| `DrrScheduler.DrrState.ReportAccounting` | src/scheduler/drr.rs:752-780 | a completion report and a cancellation report both add their restore cost to the flow's credit and touch nothing else |
| `Drr.CancelRemovesOnlyOwnEntry` | src/scheduler/drr.rs:844-885 | a cancelled waiter removes only its own entry; every entry of a sibling or of another flow stays queued |
| `Drr.CreditedAt` | src/scheduler/drr.rs:387-426 | the crediting loop adds the weight once to every flow passed so far that has positive weight, and changes no other deficit |
| `Fairness.RunKeepsQueueStructure` | src/scheduler/drr.rs:302-527 | on every run of enqueues, cancels, rounds, releases and reports the cursor lists exactly the flows with a non-empty queue, once each, and pending ids are unique and ascend in every queue |
| `Fairness.ServiceIsFifo` | src/scheduler/drr.rs:320-527 | on every run each flow is served in the order in which its requests were queued |
| `Fairness.WeightedRateBound` | src/scheduler/drr.rs:395-469 | over any run the cost a flow of weight w is served on credit, plus the deficit it still holds, is at most w per credit round it waited in, through forced selections and cancellations |
| `Priority.SelectBest` | src/scheduler/priority.rs:37-67 | the fair selection loop returns nothing for no candidate and otherwise the winner of the specification's left-to-right scan |
| `Priority.LoopComparesFairlyIff` | src/scheduler/priority.rs:49-87 | one comparison of the selection loop is `cmp_fair` if and only if the pair is not contested: equal priority, the first base lower by less than epsilon, and not enqueued earlier |
| `Priority.ScansAgreeIff` | src/scheduler/priority.rs:37-87 | the loop and a left-to-right scan under `cmp_fair` choose alike from every listing of the candidates if and only if no two of them are contested |
| `Priority.SelectBestIsLexBestIff` | src/scheduler/priority.rs:37-67 | the loop returns the first best by priority, then base, then enqueue time from every listing if and only if no pair is contested with the higher base strictly earlier |
| `Priority.IntegerBasesUncontested` | src/scheduler/drr.rs:433-448 | integer bases, as the cursor positions the scheduler passes, are never contested |
| `Priority.WinnerIgnoresListingOrder` | src/scheduler/priority.rs:37-67 | when no contested pair has its higher base strictly earlier, and different candidates differ in priority, base or enqueue time, the winner does not depend on the order in which candidates are listed |
| `Priority.FractionalBasesSplitTheTwoOrders` | src/scheduler/priority.rs:37-87 | a witness: of two candidates with bases 0 and epsilon/2, the lower enqueued later, the loop chooses whichever is listed last |
| `Priority.Select` | src/scheduler/kv_bias.rs:67-136 | with the weight the enabled flag and the pressure ramp give, the biased selection loop returns the winner of the specification |
| `BiasedSelection.BiasRamp` | src/scheduler/kv_bias.rs:67-100 | the weight is 0 exactly when the bias is off or the pressure is at most the lower end of the ramp, 1 from the upper end on, and linear in between |
| `BiasedSelection.BiasedWinnerNearGreatestFootprint` | src/scheduler/kv_bias.rs:102-136 | at every weight above 0, with some positive footprint, what selection returns scores within (n-1) epsilon of every candidate, scores being the weight times the footprint over the greatest footprint |
| `BiasedSelection.BiasedWinnerIsFirstBest` | src/scheduler/kv_bias.rs:102-136 | when scores are equal or more than epsilon apart and candidates of equal footprint are not contested, it returns the first best by footprint, priority, base, enqueue time |
| `BiasedSelection.BiasedRoundServesGreatFootprint` | src/scheduler/drr.rs:429-455 | a biased credit round serves an eligible flow whose score is at most (cursor length - 1) epsilon below any eligible flow's |
| `BiasedSelection.BiasedRoundServesBest` | src/scheduler/drr.rs:429-455 | with separated scores it serves the eligible flow of greatest footprint, then highest priority, then first in the cursor |
| `Priority.KvSelectRefinesFair` | src/scheduler/kv_bias.rs:91-136 | with no bias weight or no positive footprint biased selection returns exactly what fair selection returns, and so it does with equal footprints when no pair of candidates is contested, as with integer bases |
| `Priority.KvWinnerNearMaximum` | src/scheduler/kv_bias.rs:108-136 | the winner of n candidates scores within (n-1) epsilon of the highest score |
| `Priority.KvDriftIsAttained` | src/scheduler/kv_bias.rs:108-136 | for every n some n candidates have a winner exactly (n-1) epsilon below the maximum, so that constant is the best |
| `Priority.KvWinnerIsLexBest` | src/scheduler/kv_bias.rs:108-136 | when scores are equal or more than epsilon apart and no two candidates of equal score are contested, the winner is the first best by score, priority, base, enqueue time |
| `BoundedWaiting.NeededIsCeiling` | src/scheduler/drr.rs:395-426 | the rounds of credit needed are max(1, ceil(shortfall / weight)) |
| `BoundedWaiting.WinnerIsBestEligible` | src/scheduler/drr.rs:426-455 | a credit round without bias serves an eligible flow that no eligible flow beats by priority, or by cursor position at equal priority |
| `BoundedWaiting.PassedOver` | src/scheduler/drr.rs:380-526 | a credit round that passes a flow over adds its weight to its deficit, and strictly lowers its cursor index once it is eligible |
| `BoundedWaiting.HeadServedWithinBound` | src/scheduler/drr.rs:380-526 | with weight w, no bias and nobody of higher priority waiting, a head of cost c and deficit d is served within max(1, ceil((c-d)/w)) + L - 1 credit rounds for cursors of length at most L, whatever arrives, is cancelled or is forced in between |
| `QueuedWaiting.RequestServedWithinBound` | src/scheduler/drr.rs:380-526 | under the same conditions a request at any depth of its queue is served within the sum, over the requests ahead of it and itself, of max(1, ceil(cost/w)) + L - 1 credit rounds |
| `Starvation.StarvedIffLastEnqueueIsOld` | src/scheduler/drr.rs:320-374 | after any run a flow is starved exactly when it is queued and the last action on its timestamp was an enqueue more than the timeout ago |
| `Starvation.OverdueHeadIsNotStarved` | src/scheduler/drr.rs:600-606 | a request can wait longer than the timeout unnoticed, because a later enqueue of its flow overwrites the timestamp |
| `Starvation.DeficitSurvivesServiceIff` | src/scheduler/drr.rs:333-374 | after a pick its flow has a deficit, the old one, if and only if the pick was forced and there was one |
| `Starvation.DeficitOfAFlowThatIsNotWaiting` | src/scheduler/drr.rs:340-374 | a run from the start (enqueue, one credit round, forced selection) ends with a deficit for a flow that is not waiting |
| `Drain.RoundShrinks` | src/scheduler/drr.rs:229-291 | a round that picks consumes a pending id; an empty round that credits somebody lowers the total positive-weight shortfall |
| `Drain.Iterate` | src/scheduler/drr.rs:229-291 | one iteration of the drain loop, delivering the ticket of a selection, is one step of the specified drain, and lowers its measure unless it stops |
| `Drain.DrainLoop` | src/scheduler/drr.rs:229-291 | the drain loop terminates for every sequence of caps, environments and delivery failures, and serves what the specification serves |
| `Drain.DrainKeepsPermitsOfDeliveries` | src/scheduler/drr.rs:259-290 | for every world the active count rises by exactly the number of selections whose delivery succeeded; the permit of every other selection is back |
| `Drain.DrainStopsOnlyWhenIdle` | src/scheduler/drr.rs:229-291 | the loop never stops early: it ends at a closed cap gate, with nobody waiting, or after a round that found no waiting flow starved or of positive weight |
| `Drain.DrainIsARun` | src/scheduler/drr.rs:229-291 | the drain makes the selections of a run of rounds and permit releases, so the theorems about runs hold of it |
| `Drain.FewestRoundsExist` | src/scheduler/drr.rs:387-426 | whenever somebody is credited, the fewest rounds R any creditable flow needs exists |
| `Drain.DrainServesInRoundR` | src/scheduler/drr.rs:229-291 | while weights stay, no round finds a flow starved and a permit is free, whatever the clock, priorities, footprints and pressure of each round, the loop runs exactly R-1 empty rounds, each only crediting and rotating, and then serves a flow that needed R |
| `Drain.DrainServesBestInRoundR` | src/scheduler/drr.rs:426-455 | without bias that flow has the highest priority among those that need R rounds, and stands first in the rotated cursor among equals |
| `Drain.DrainStopsWithoutWeight` | src/scheduler/drr.rs:508-526 | when every waiting weight truncates to 0 or less the loop stops within one round and changes no queue and no deficit |
| `Admission.InvStep` | src/scheduler/drr.rs:204-292 | every step of every participant keeps the whole invariant of the admission protocol |
| `Admission.NoLostWakeup` | src/scheduler/drr.rs:217-292 | on every run, a parked loop with no stored notification, no unseen snapshot and nobody about to notify leaves no permit idle below the cap while a flow of positive weight waits |
| `Admission.SystemAtRestHasServedEveryone` | src/scheduler/drr.rs:217-292 | with a validated pressure ladder, a system at rest with no ticket out has no waiting flow of positive weight left, whatever the pressure |
| `Admission.PermitsConservedOnRuns` | src/scheduler/drr.rs:229-312 | on every run free permits plus live armed tickets equal the budget, so the active count never goes negative or above it |
| `Admission.SpentStaysSpent` | src/scheduler/ticket.rs:35-54 | a ticket that is gone never comes back on any run, so each permit is returned exactly once |
| `Admission.TicketsBalancePermits` | src/scheduler/drr.rs:266-288 | in every step the number of live tickets changes by exactly the permits taken, whether a ticket is made, delivered, refused, received or dropped |
| `Admission.GrantStaysWithinCapRead` | src/scheduler/drr.rs:229-312 | a grant never takes the active count above the cap that was read for it |
| `Admission.NoRequestForgotten` | src/scheduler/drr.rs:579-620 | on every run a waiter whose receiver is alive is queued in a flow the cursor lists, or its ticket is in the loop's hand or in its channel |
| `Admission.WaitersStep` | src/scheduler/drr.rs:795-893 | every step keeps each flow's depth equal to its number of live guards and to its multiplicity in the reporting queue |
| `Admission.QueuedOwnedStep` | src/scheduler/drr.rs:844-885 | every step keeps every queued entry owned by one live guard of its flow |
| `Admission.RunProjects` | src/scheduler/drr.rs:204-527 | every run of the system is a run of the scheduler, so the fairness theorems apply to it |
| `Admission.SystemServesFifo` | src/scheduler/drr.rs:204-527 | every run of the whole system serves each flow first in, first out |
| `Tickets.QueueTicket.Release` | src/scheduler/ticket.rs:47-54 | dropping a ticket returns the permit if and only if it is still armed, and disarms it |
| `Tickets.Deliver` | src/scheduler/drr.rs:266-288 | a delivery to a dead receiver returns exactly one permit although the disarmed ticket is dropped too; a live delivery returns none |
| `PressureCap.EffectiveMax` | src/scheduler/pressure_cap.rs:49-61 | the cap is the maximum when the ladder is disabled or no threshold is reached; otherwise it is at most the maximum and every reached threshold's value, and is one of them |
| `PressureCap.CapFallsWithPressure` | src/scheduler/pressure_cap.rs:49-61 | higher pressure never raises the cap |
| `Accounting.FlowProgressTracker.Unregister` | src/scheduler/flow_progress.rs:67-79 | unregistering subtracts one request and removes the entry exactly when both sums reach zero |
| `Accounting.FlowProgressTracker.AnyFlowNearDone` | src/scheduler/flow_progress.rs:113-126 | the scan answers whether some entry with a positive estimate has delivered at least the threshold's share of it, in whatever order the entries are visited |
| `Accounting.LifecycleGuard.Release` | src/scheduler/lifecycle.rs:131-205 | dropping the guard unregisters its request and restores the unused estimate, except for a completion without usage data |
| `Credit.CreditOverRuns` | src/scheduler/drr.rs:342-780 | on every run of the scheduler a flow's credit is its start value minus the costs of its selections, forced or not, plus what was reported for it |
| `Credit.CreditIsMinusCharges` | src/scheduler/lifecycle.rs:131-205 | on every run whose reports come from dropped lifecycle guards the scheduler's credit of a flow is minus the sum of its requests' charges: the estimate while outstanding or undelivered, then delivered tokens, or the estimate for a completion without usage |
| `Credit.SystemCreditIsMinusCharges` | src/scheduler/lifecycle.rs:131-205 | the same of every run of the whole admission system with those scheduler actions |
| `Credit.RoundDebitsItsPick` | src/scheduler/drr.rs:342-469 | a round, forced or not, debits exactly the picked request's cost from its flow and no other credit |
| `Accounting.TrackerIsExact` | src/scheduler/flow_progress.rs:41-79 | with estimates of at least 1 the tracker's entry is, on every run from the empty start, the exact sum over live guards, and absent exactly when there are none |
| `Accounting.ExactAfterCloseIff` | src/scheduler/flow_progress.rs:67-79 | for any estimates, dropping a guard keeps the tracker exact if and only if it is the flow's last one or the remaining sums are not both zero |
| `Accounting.ZeroEstimateErasesEntry` | src/scheduler/flow_progress.rs:67-79 | a run from the empty start: of two guards with estimate 0, dropping one erases the entry of the other, which is still live |
| `Reporting.QueueDepth` | src/scheduler/drr.rs:727-730 | summing the depth counters over the registry, in whatever order it lists its flows, gives the length of the reporting queue |
| `Reporting.RemoveFromQueue` | src/scheduler/drr.rs:888-893 | leaving the reporting queue removes the flow's first entry and keeps the order of the others |
| `Reporting.QueueSnapshot` | src/flow/mod.rs:370-400 | the snapshot lists each waiting flow once, in order of first occurrence, at positions 1, 2, 3 |
| `Reporting.SnapshotListsWaitingFlows` | src/flow/mod.rs:370-400 | the snapshot of the reporting queue lists exactly the flows that have a live waiter |
| `Sse.FindDelimiter` | src/gateway/retry.rs:284-311 | the search over start positions finds the delimiter that ends first, and finds none only if none ends anywhere |
| `Sse.EndsBlankIff` | src/gateway/retry.rs:284-311 | a delimiter ends exactly where the bytes LF LF or CR LF CR LF stand right before |
| `Sse.SseFrameParser.Feed` | src/gateway/retry.rs:246-279 | after any feed the events returned so far and the buffer are the byte-by-byte split of everything fed |
| `Sse.ParseChunks` | src/gateway/retry.rs:246-279 | however a body is chunked, events and leftover are those of the whole body |
| `Sse.SplitResumes` | src/gateway/retry.rs:246-311 | splitting a concatenation is splitting the first part and then its leftover with the second, also when a delimiter straddles the cut |
| `Sse.SplitRoundTrip` | src/gateway/retry.rs:246-311 | events and leftover concatenate to the input; each event holds a delimiter at its end and nowhere else, the leftover none |
| `Sse.SplitIsTheOnlyFraming` | src/gateway/retry.rs:284-311 | any cutting with those properties is the one the parser makes |
| `Stream.RetryTask.CountAndForwardFrame` | src/gateway/stream.rs:267-283 | a frame's reported usage is counted once, before the frame is sent |
| `Stream.RetryTask.HandleFrame` | src/gateway/stream.rs:383-556 | one frame is rejected, retried, accepted, held back or forwarded as the specification says, under both budgets |
| `Stream.RetryTask.ReadLoop` | src/gateway/stream.rs:361-557 | reading chunk by chunk ends in the same state as handling the frames of the joined bytes |
| `Stream.RetryTask.Run` | src/gateway/stream.rs:346-655 | the whole retry machine, with its nested loops, terminates and computes the specified outcome |
| `StreamFates.UndecidedAttempt` | src/gateway/stream.rs:537-640 | an attempt no frame decides forwards its frames, held-back ones left out, flushes the incomplete one, and is re-sent if and only if the stream just ended, showed nothing substantial and a transient attempt is left |
| `StreamFates.FailedAttempt` | src/gateway/stream.rs:403-440 | an early error frame within the budget re-sends the original at once; if that fails the error frame is forwarded and the body aborted |
| `StreamFates.DegenerateAttempt` | src/gateway/stream.rs:442-496 | a degenerate stop within the budget is withheld, the n-th retry announced, and the n-th bump of the body sent unless it cannot be encoded |
| `StreamFates.AcceptedAttempt` | src/gateway/stream.rs:497-571 | any other finish accepts the attempt: from that frame on everything is forwarded and its usage counted, and the body closes cleanly however the stream ends |
| `StreamFates.FirstDecision` | src/gateway/stream.rs:383-556 | for every attempt either one first frame decides or none does, so these four fates are all there are |
| `StreamFates.ResentAtItsEndIff` | src/gateway/stream.rs:573-640 | an attempt read to its end is re-sent if and only if its ending is a plain end, no frame carried content or tool calls or had a finish reason, and a transient attempt is left; a stall or a missed deadline never re-sends |
| `StreamPrefix.ImpatientClientSeesPrefix` | src/gateway/stream.rs:346-655 | a client that takes n items gets the whole response if it is no longer, else exactly its first n items, and is then never marked completed |
| `StreamSafety.StreamIsSafe` | src/gateway/stream.rs:346-655 | for every backend and client, frames with content or tool calls reach the client from the last attempt only, and the tokens counted are those of the usage frames sent at or after the accepting terminal frame |
| `StreamSafety.ConnectedClientSeesOneEnding` | src/gateway/stream.rs:567-655 | while the client stays, the body ends cleanly and is marked completed exactly when a terminal frame was accepted; otherwise exactly one error item ends it |
| `StreamRuns.ChunksDoNotMatter` | src/gateway/stream.rs:361-571 | output, re-sends and token count depend on each attempt's bytes and ending only, never on the chunking |
| `StreamRuns.ResendsAreBounded` | src/gateway/stream.rs:403-496 | original re-sends stay within the transient budget, temperature bumps within the retry budget, and there are none of the latter when retrying is off |
| `StreamRuns.CompletedAttemptIsForwarded` | src/gateway/stream.rs:383-571 | a completed attempt reaches the client frame for frame: before its first terminal frame only `[DONE]` and early usage frames are held back, from there on nothing is |
| `StreamRuns.OnlyBareAttemptsAreReplaced` | src/gateway/stream.rs:386-496 | an attempt is replaced in mid-stream only by an error frame or a degenerate stop, and only if no frame up to it carried content or tool calls |
| `StreamRuns.BareAttemptIsAcceptedOnlyWhenSpent` | src/gateway/stream.rs:403-516 | conversely a stop or length finish without any content is passed on only with the retry budget spent or retrying off, and an error frame before any content only with the transient budget spent |
| `StreamRuns.ReplacedAttemptFlushesIff` | src/gateway/stream.rs:403-571 | a replaced attempt leaves bytes beyond its forwarded frames in front of the next one if and only if it was read to its end with an incomplete frame left, and then exactly that frame; one replaced in mid-stream flushes nothing |
| `StreamRuns.LeftoverPrecedesTheNextAttempt` | src/gateway/stream.rs:559-622 | such a flush happens: an attempt of incomplete bytes alone, cut short with a transient attempt left, stands whole in front of the next attempt |
| `ProxyRetry.TransientBackoff` | src/gateway/retry.rs:411-420 | the doubling loop is min(start * 2^(k-1), max) from the second delay on; for the first exactly when start is at most max |
| `ProxyRetry.TransientRetry` | src/gateway/proxy.rs:302-388 | the loop sends until the first reply that is not worth another try, at most `max_attempts` times, after delays that double up to the cap; a success comes back, any other readable answer is final, everything else failed |
| `ProxyRetry.RetryPrematureBody` | src/gateway/proxy.rs:861-931 | every replaced body was a premature stop, the last usable body is kept, and a premature body is returned only with the budget exhausted or after a retry that failed |
| `ProxyRetry.Connect` | src/gateway/proxy.rs:660-776 | the transient loop runs exactly when the first reply calls for it and retrying is on; the reply dispatched is the first one or the success of that loop |
| `ProxyRetry.Forward` | src/gateway/proxy.rs:660-931 | a retried stream is the streaming machine run on the dispatched reply and causes at most 1 + max_attempts + max_retries + max_attempts sends; a collected chat is the dispatched body unless that is a premature stop, is premature only with retries spent or a failed retry, and causes at most 1 + max_attempts + max_retries |
| `Slots.SlotIdForFlow` | src/flow/mod.rs:51-63 | the loop computes the FNV-1a hash modulo the slot count, which is in range |
| `Slots.HashVectors` | src/flow/mod.rs:55-61 | the hash agrees with published 64-bit FNV-1a values |
| `Slots.SlotAllocator.Assign` | src/flow/slots.rs:77-97 | assignment keeps a valid slot, else takes the free home, the lowest free slot or the shared home, and keeps the two maps in agreement |
| `Slots.SlotAllocator.SweepMissing` | src/flow/slots.rs:110-123 | a sweep drops exactly the unregistered assignments, in any visiting order, and reports how many |
| `Slots.AgreeDeterminesOccupancy` | src/flow/slots.rs:29-53 | the two maps agree exactly when the occupancy is the one counted from the assignments |
| `Slots.RunAgrees` | src/flow/slots.rs:38-123 | after any run, with any slot counts, each slot's occupancy is the number of flows assigned to it and there are no zero entries, so no decrement underflows |
| `Slots.FreshAssignment` | src/flow/slots.rs:77-97 | a flow without a valid slot gets an in-range one, unshared if and only if some slot was left; otherwise it shares its hash home |
| `Slots.HomeFirstThenLowest` | src/flow/slots.rs:77-97 | a flow without a valid slot gets its hash home unless another flow holds it, else the lowest slot no other flow holds, else its home after all; every other assignment stays |
| `Slots.CapacityLeavesASlot` | src/flow/slots.rs:77-97 | while fewer other flows than slots hold assignments a slot is left (pigeonhole) |
| `Slots.RunStaysInjective` | src/flow/slots.rs:77-123 | a run that never exceeds capacity never makes two flows share a slot |
| `Slots.AssignmentIsStable` | src/flow/slots.rs:77-123 | an assignment that stays in range never moves until its flow is released or swept |
| `Registry.FlowRegistry.ReapIdle` | src/flow/mod.rs:318-345 | a reap removes exactly the idle flows and leaves exactly the survivors' assignments, unmoved |
| `Registry.ReapSparesTheLive` | src/flow/mod.rs:318-345 | a flow survives a reap exactly when it is queued, active or was seen within the time-to-live, and keeps its slot |
| `Registry.TouchedFlowSurvives` | src/flow/mod.rs:255-345 | a flow seen within the time-to-live survives the reap with its queue, activity and slot |
| `Registry.ReapLeaksNothing` | src/flow/mod.rs:318-345 | right after a reap only registered flows hold slots, whatever ran before |
| `Registry.LiveFlowKeepsSlot` | src/flow/mod.rs:318-345 | a flow that is never idle at a reap keeps its slot through the whole run |
| `Cadence.CadenceRegistry.RecordArrival` | src/flow/cadence.rs:119-173 | the in-place transition keeps each tracked flow's entry the observation of its whole history, and no other flow's |
| `Cadence.StateIsDecidedByRuns` | src/flow/cadence.rs:119-173 | the state is Confirmed, Suspected, Interactive or Cold exactly as the runs of non-boundary arrivals since the last idle chunk say, for every arrival history |
| `Cadence.CadenceRegistry.StateOf` | src/flow/cadence.rs:205-207 | the state reported for a flow is the one its history explains, also for an unknown flow |
| `Cadence.CadenceRegistry.ReapIdle` | src/flow/cadence.rs:211-229 | only flows not seen within the time-to-live are forgotten, the others keep state and history |
| `Watchdog.StallWatchdog.Poll` | src/backend/mod.rs:588-630 | after every scrape the flag and the event counter are those of the history specification; failed and unknown scrapes change nothing |
| `Watchdog.MonitorIsExact` | src/backend/mod.rs:588-630 | the flag is set exactly when at least the timeout has passed since start and every scrape in the last timeout was busy with all four counters unchanged; events are its rising edges |

## Left out

- HTTP handling, header filtering, configuration loading, telemetry and Prometheus counters, except the stall-event counter.
- JSON parsing and body rewriting: a frame's classification, an error body's class and a premature stop are arbitrary functions of the bytes.
- `TokenAccumulator` and the pass-through stream used when retrying is off: its token count is best effort and depends on chunk boundaries.
- Memory-level races: each accounting action, each round and each guard drop is one atomic step, although `report_accounting` loads and stores the credit outside the scheduler lock and a guard drop updates depth, reporting queue and scheduler in turn.
- Reaper races, such as a slot assigned before its flow is registered: a reap is one atomic step.
- Timeliness of starvation rescue: no timer wakes the loop. A round may read the clock differently for each flow, and a forced selection happens only when a round runs.
- The `active` gauges: active means budget minus free permits, because a ticket that is delivered but never received lowers the gauges without having raised them.
- Weight and priority changes during a run: weights are fixed in the fairness and wakeup theorems, because a change does not notify the loop.
- Rounding, infinities and NaN of `f64`, and overflow of integer deficits, credits and counters.
- The sweep of empty queues at the end of an empty round (`src/scheduler/drr.rs:511-524`): under the queue invariant it never finds one.
- Completion-bias admission, fail-fast rejection, the KV admission policy and explicit priority overrides: gates and decision tables beside the modelled protocol.
- The client of a stream is modelled by how many items it takes before it is gone; buffering in the channel is not.
- Streams are finite lists of chunks; a stream that never ends keeps the retry machine busy as long as the backend keeps sending.
