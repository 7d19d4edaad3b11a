# Delivery dispatch: a verified model

A delivery platform collects orders that vendors have marked ready, groups them into batches, hands each
batch to a deliverer as a job with one stop per order, and takes unstarted jobs back from deliverers who
go silent. Four services write to the same tables for this, and no row guards itself: several updates
carry no condition and are right only because of what holds across orders, batches, jobs, stops and
deliverers together. This project models that protocol and the smaller mechanisms around it, and proves
what holds in every state they can reach.

To check the whole project: `dafny verify dfyconfig.toml`.

## How it is laid out

- `Types`, `Batching`, `Transactions`: the rows, the pure batching rules over an abstract metric, and one
  function per committed transaction.
- `Store`: the same transactions as methods that perform the services' statements in order on mutable
  tables, with their loops and their rollbacks. Each is proved to commit exactly what its function says.
- `Invariant`, `JobSteps`, `OrderSteps`, `Evolution`: the invariant across all tables, that every
  transaction keeps it, and what no transaction takes back.
- `Effects`: the same transactions told from the outside: which rows answer with which error, and what every
  other column is after a commit.
- `Dispatch`: runs of the whole system. Workers hold snapshots of any age, one sweeper holds a list of any
  age, messages are duplicated and lost, and availability flips at any time. A step whose guard fails
  changes nothing, so every sequence of steps is a run.
- `Guarantees`, `DropOffs`, `Hands`, `LogReplay`, `Drain`, `Delivery`, `BatchRuns`, `BatchChoice`, `ExpirySweep`:
  what holds in every reachable state and over every run.
- `Resends`, `Starvation`: which messages the services send again, and with that the exact condition under
  which a closed batch still gets a deliverer. The dispatch runs let a message appear at any time, which only
  makes what holds of all of them stronger; a claim that a run exists is about these narrower runs.
- `VendorRaces`: a vendor's decision as a check and a later write, with anything in between.
- `LateJoins`: what becomes of an order that joins a batch after its close.
- `StopLocking`, `ReadyLocking`: the two transactions that rely on locks, interleaved statement by statement
  under READ COMMITTED, and proved equal to the atomic steps in lock order.
- `Timelines`, `Throttler`, `Blocking`, `Locations`, `Sanitizer`, `Escalation`: the event log and its
  projections, the Redis rate limiter and how long it blocks, deliverer positions and the nearest-deliverer
  search, the logger's sanitizer, and the escalation of started jobs.

## Assumptions

- In the main model each committed transaction is one step. That a closed batch keeps its orders is a claim
  at that level: `closeBatch` takes no advisory lock, and `ReadyLocking.CommitIsAtomicIff` gives the exact
  condition under which a mark-ready still equals an atomic one when closes land between its statements.
- One recovery sweeper at a time, any number of assignment workers. `JobSteps.RecoverIsSafeIff` says exactly
  when an entry is safe to handle otherwise.
- A vendor's accept or reject writes without a condition some time after its check. In the dispatch runs each
  such write finds its order in no batch, at whatever delay; every "reachable state" below is meant so.
  `VendorRaces.MoveIsSafeIff` gives the exact condition; `VendorRaces.LateWriteHappens` and
  `VendorRaces.LateAcceptHappens` are runs that break it.
- Queue delivery is at least once, with duplicates and loss. Messages come from `closeBatch`,
  `afterJobCompleted`, `requeueStuckBatches` and the direct call in recovery.
- Row ids come from growing sequences, and one `createMany` takes consecutive ids. A batch's orders are
  listed in the order in which they joined. A transaction's several readings of the clock are one reading.
- Distances are any function; where two distances are compared along a route, the triangle inequality is a
  stated premise.
- A worker's snapshot may name any deliverer that was idle and present when it was taken; how one is chosen
  among them is proved in `Locations`. Presence - online and seen within the window - flips at any time.

## Where the code differs from what one might expect

- A batch that contains food can exceed three orders when its close comes late
  (`BatchRuns.LateCloseOverfills`), exactly when a later order picks a full one that is still open
  (`BatchRuns.FoodStaysSmallInRunIff`).
- A batch whose first order lacks vendor coordinates is never assigned (`Starvation.StuckForever`). It also
  stays among the oldest stuck ones for good, and as many of those as there are deliverers take every message
  that is sent again: a newer batch whose message was lost then starves (`Starvation.AssignableIff`,
  `Starvation.StarvationIsReachable`).
- A vendor's late write can reject an order that is already in a batch (`VendorRaces.LateWriteHappens`); a late
  accept lets the order leave a closed batch for another (`VendorRaces.LateAcceptReopens`). The event of either
  carries the event name where a status belongs (`Timelines.VendorEventsHaveNoStatus`).
- With a block duration of zero the rate limiter never blocks (`Throttler.LimitHoldsIff`).
- A close can overtake a mark-ready, which then joins a closed batch (`ReadyLocking.CloseOvertakesCommit`). If a
  worker has read the batch by then, the order gets no stop and, once the job is started, ends COMPLETED without
  having been delivered or READY for good (`LateJoins.JoinTiming`, `LateJoins.LeftBehindForever`).
- "[Circular]" in a log entry marks shared objects as well as cycles (`Sanitizer.MarkedIffShared`).

## Model

| member | source | states |
|---|---|---|
| Guarantees.OneToOne | src/deliverer/deliverer-assignment.service.ts:113-151 | In every reachable state, deliverers with an active job, jobs in use and batches on the road correspond one to one and agree on the deliverer |
| Guarantees.ClaimSucceedsIff | src/deliverer/deliverer-assignment.service.ts:132-142 | In every reachable state the two row claims win exactly when no job of the batch is in use or done and the available deliverer holds none; a loser changes nothing |
| Guarantees.NoAba | src/common/decorators/recovery/deliverer-recovery.service.ts:104-128 | For a job one sweeper saw ASSIGNED: at commit time it is still that deliverer's active job and the recovery commits, or it was started and the whole recovery rolls back |
| Guarantees.StopsMatchBatch | src/deliverer/deliverer-assignment.service.ts:153-162 | After any assign and recover cycles a job in use has exactly one stop per order of its batch, numbered 0 to n-1 in readyAt order, and totalOrders is n |
| Guarantees.StatusIsDetermined | src/deliverer/deliverer-job.service.ts:183-186 | In every reachable state the status of a batched order is a function of its batch, job and stop alone, so no unguarded update of these services overwrites COMPLETED (vendor writes: see VendorRaces) |
| Guarantees.WorkLeftIffStarted | src/deliverer/deliverer-job.service.ts:120-125 | A started job has an unfinished stop if and only if it is IN_PROGRESS |
| Guarantees.NothingIsUndone | src/deliverer/deliverer-assignment.service.ts:144-151 | However a run goes on, a delivered order stays delivered, a closed batch keeps its orders and stays closed, a started job keeps its deliverer |
| Guarantees.ClosesAtMostOnce | src/order/order.service.ts:344-355 | In any run at most one close, whatever its cause, takes a given batch out of PENDING |
| Dispatch.RunKeepsSysInv | src/deliverer/deliverer-assignment.service.ts:64-162 | Any sequence of steps keeps that invariant, and nothing it forbids to undo is undone |
| Dispatch.SnapshotSurvives | src/deliverer/deliverer-assignment.service.ts:66-69 | A worker's order list, read after the close, still lists exactly the batch's orders by readyAt after any later step |
| JobSteps.AssignKeepsInv | src/deliverer/deliverer-assignment.service.ts:113-174 | An assignment from an arbitrarily old snapshot keeps the invariant |
| JobSteps.StartKeepsInv | src/deliverer/deliverer-job.service.ts:33-65 | Starting a job keeps the invariant although the order update has no status guard |
| JobSteps.CompleteStopKeepsInv | src/deliverer/deliverer-job.service.ts:75-128 | Completing a stop keeps the invariant, with or without finishing the job |
| JobSteps.LastStopFinishes | src/deliverer/deliverer-job.service.ts:164-181 | A stop leaves none unfinished exactly when it was the only one left, and then finishJob cannot fail |
| JobSteps.RecoverKeepsInv | src/common/decorators/recovery/deliverer-recovery.service.ts:104-138 | Recovering an entry that still describes its job keeps the invariant |
| JobSteps.RecoverIsSafeIff | src/common/decorators/recovery/deliverer-recovery.service.ts:106-128 | The unguarded deliverer reset keeps the invariant if and only if the job is no longer ASSIGNED or is assigned to that deliverer |
| OrderSteps.MarkReadyEnters | src/order/order.service.ts:200-231 | A mark-ready that passes its guards commits and puts an unbatched order into an open or new batch, changing no other row |
| OrderSteps.MarkReadyKeepsInv | src/order/order.service.ts:177-231 | Marking an order ready keeps the invariant |
| OrderSteps.CloseKeepsInv | src/order/order.service.ts:344-355 | Closing a batch keeps the invariant |
| OrderSteps.CreateOrderKeepsInv | src/order/order.service.ts:130-166 | Placing an order keeps the invariant |
| OrderSteps.VendorDecideKeepsInv | src/vendor/vendor.service.ts:240-245 | A decision written to an order in no batch keeps the invariant, whatever the order's status has become since the check |
| OrderSteps.SameRowsKeepInv | src/deliverer/deliverer.service.ts:20-33 | Availability, the log and the queue can change at any time without touching the invariant |
| OrderSteps.LateVendorWriteIsSafeIff | src/vendor/vendor.service.ts:236-245 | A vendor write that arrives after its check is harmless if and only if the order is still in no batch |
| VendorRaces.TimelyWritesAreHarmless | src/vendor/vendor.service.ts:228-245 | With check and write as separate steps: every run in which each write finds its order in no batch, however late, stays within the reachable states, so every guarantee holds of it |
| VendorRaces.MoveIsSafeIff | src/vendor/vendor.service.ts:236-245 | In a reachable state a move keeps the invariant if and only if it is not a write to an order that has been batched since its check |
| VendorRaces.LateWriteHappens | src/vendor/vendor.service.ts:279-287 | Such a late write is reached: check, mark ready, write leaves a rejected order in an open batch |
| VendorRaces.LateAcceptReopens | src/order/order.service.ts:47-50 | A late write to an order of a closed batch lets mark-ready take it again if and only if it accepts, and then the order leaves the closed batch for another |
| VendorRaces.LateAcceptHappens | src/vendor/vendor.service.ts:228-245 | Such a run is reached: the order ends in batch 1 although batch 0 was closed with it |
| Drain.CloseLowers | src/order/order.service.ts:344-355 | A close lowers the work left by exactly one |
| Drain.AssignLowers | src/deliverer/deliverer-assignment.service.ts:132-162 | An assignment lowers the work left by exactly one |
| Drain.StartLowers | src/deliverer/deliverer-job.service.ts:35-54 | A start lowers the work left by exactly one: a started job has one unfinished stop per order |
| Drain.StopLowers | src/deliverer/deliverer-job.service.ts:75-128 | Every stop, the last one included, lowers the work left by exactly one |
| Drain.RecoverRaises | src/common/decorators/recovery/deliverer-recovery.service.ts:104-138 | A recovery raises the work left by exactly one |
| Drain.EnterRaises | src/order/order.service.ts:255-282 | A ready order raises the work left by one in an open batch and by four in a new one |
| Delivery.RunAccounts | src/common/decorators/recovery/deliverer-recovery.service.ts:104-138 | Over any run, work done plus work left is the work there was plus the gains |
| Delivery.WorkIsPossible | src/deliverer/deliverer-job.service.ts:199-228 | With a deliverer present, present idle ones available and every pickup known: while a batched order waits, some round does one unit of work and brings none, and sends no message that the services would not send |
| Delivery.EverythingCanBeDelivered | src/deliverer/deliverer-assignment.service.ts:89-102 | Under the same conditions, messages lost and workers gone, a run without new orders or recoveries, whose messages are all ones the services would send, delivers every batched order |
| Delivery.WorkRunsOut | src/deliverer/deliverer-assignment.service.ts:132-162 | Over any run the work done is at most what there was and what came, and equals it if and only if no batched order waits at the end |
| Delivery.BusyRoundsDeliver | src/deliverer/deliverer-job.service.ts:199-228 | Whoever schedules: from the last gain on, as many rounds that each do some available work as there is work left deliver every batched order |
| Resends.SendableIff | src/common/decorators/recovery/deliverer-recovery.service.ts:211-227 | A message for a batch may be sent again if and only if it has no deliverer and the strictly older batches without one are none, or fewer than the free deliverers, whatever the cutoff and the order among ties |
| Starvation.StuckForever | src/deliverer/deliverer-assignment.service.ts:81-87 | A closed batch whose first order has no vendor coordinates is never assigned in any run |
| Starvation.StarvedForever | src/common/decorators/recovery/deliverer-recovery.service.ts:216-227 | A closed batch with no message under way and at least as many older batches without a pickup point as deliverers stays so in every run of the services |
| Starvation.AssignableIff | src/deliverer/deliverer-job.service.ts:206-211 | From any state of the invariant: a closed batch without a deliverer is assigned in some run of the services if and only if its first order can be located and its message is under way, or fewer older batches that cannot be located stand before it than there are deliverers |
| Starvation.DeliverableIff | src/deliverer/deliverer-assignment.service.ts:64-102 | An order of a closed batch is delivered in some run of the services if and only if its batch has been given out or can still go in that sense |
| Starvation.StarvationIsReachable | src/common/decorators/recovery/deliverer-recovery.service.ts:211-227 | A run from the start ends with a batch without a pickup point, a newer one that has one, and an idle deliverer who is present; no run of the services ever assigns the newer one |
| Batching.EstimateDelay | src/order/order.service.ts:84-116 | The loop over the stops computes the detour at 30 km per hour, two minutes for every kilometre of the tour past the stops that have coordinates beyond the direct way; a missing end gives zero |
| Batching.DelayInKm | src/order/order.service.ts:94-115 | 30 times the delay in minutes is 60 times the kilometres of the detour, with the tour summed from the shop on over the raw coordinates |
| Batching.DelayPastOne | src/order/order.service.ts:104-115 | Past one stop x the delay is 2 (d(v,x) + d(x,c) - d(v,c)) minutes |
| Batching.CityThresholds | src/order/order.service.ts:34-38 | Metres, minutes and window of each city type, with MEDIUM for an unknown one |
| Batching.DelayGrows | src/order/order.service.ts:104-115 | With the triangle inequality, one more stop never shortens the detour |
| Batching.RefusalIsPermanent | src/order/order.service.ts:303-323 | A batch that refuses an order still refuses it whoever joins later |
| Batching.DelayIsNonNegative | src/order/order.service.ts:84-116 | With the triangle inequality the estimated delay is never negative |
| BatchRuns.OpenBatchesDiffer | src/order/order.service.ts:248-283 | In any run, of two open batches the younger one's founder is refused by the older one as it stands now |
| BatchRuns.ReadyBatches | src/order/order.service.ts:255-282 | Mark-ready appends the order to the batch it chose or founds one every open batch refused, and changes no other batch |
| BatchRuns.BatchesStaySmall | src/order/order.service.ts:303-323 | Even with closes late or lost, every batch has one to five orders, food among the first three, one vendor when multi-vendor is off, and each later member met the distance and detour thresholds when it joined |
| BatchRuns.JoinsOldest | src/order/order.service.ts:255-262 | An order joins the oldest open batch that takes it: every older one refused it, and a new batch means that all did |
| BatchRuns.FlagRaisedIff | src/order/order.service.ts:325-342 | Mark-ready raises the close flag if and only if the batch it used is full, or was joined past its window |
| BatchRuns.PromptClosingKeepsFoodSmall | src/order/order.service.ts:325-342 | If every flag is acted on before the next join, a batch with food never exceeds three orders |
| BatchRuns.FoodStaysSmallIff | src/order/order.service.ts:261-275 | A mark-ready leaves every batch with food at three orders or fewer if and only if the first listed batch that takes the order is not a full one with food |
| BatchRuns.FoodStaysSmallInRunIff | src/order/order.service.ts:233-237 | Over any run batches with food stay at three or fewer if and only if no mark-ready picks a full one that is still open |
| BatchRuns.LateCloseOverfills | src/order/order.service.ts:233-237 | A run that breaks it: four like orders, no close flag acted on, and a batch with food ends with four |
| BatchRuns.EveryCityOverfills | src/order/order.service.ts:34-38 | So it does under the rules of every city type, the fall-back included |
| BatchChoice.FoundsIff | src/order/order.service.ts:255-282 | Told from the rows: a mark-ready founds a batch if and only if every open one has another shop's order (multi-vendor off), or 3 orders already (5 for an order without food), or a first shop beyond maxVendorDist metres, or asks for more than maxDelay minutes; else it joins one that has room while every older one has none |
| BatchChoice.FlagIff | src/order/order.service.ts:325-342 | The close flag is raised if and only if a batch was joined that now has 3 orders with food or 5 without, or that opened windowMin minutes ago or earlier |
| BatchChoice.BatchFills | src/order/order.service.ts:310-311 | The limits are reached: a run of five like orders, or three with food, ends with all in one batch, and the mark of the last, and of no earlier one, raises the flag |
| DropOffs.StopsAreAtCustomers | src/deliverer/deliverer-assignment.service.ts:154-162 | In every reachable state each stop of a job in use has the coordinates of the customer of its own order, whatever was recovered and assigned again |
| Hands.AvailableExactlyWhenFree | src/deliverer/deliverer-assignment.service.ts:138-142 | In every run without profile edits a deliverer is available exactly while he has no active job |
| Hands.RecoveredIsIdle | src/common/decorators/recovery/deliverer-recovery.service.ts:104-128 | In every reachable state a recovery that goes through leaves its deliverer available and without a job, his batch waiting with a message, and everybody else untouched |
| Hands.RecoveredMayCarryAgain | src/common/decorators/recovery/deliverer-recovery.service.ts:146-151 | So the very next read and commit for the released batch may give it to him again, on the same job row |
| Hands.ReadsAreSound | src/deliverer/deliverer-assignment.service.ts:66-102 | A worker goes on only for a batch without a deliverer, whose first order has both vendor coordinates, and with a deliverer who is online, available and without a job |
| Hands.LastStopFrees | src/deliverer/deliverer-job.service.ts:178-181 | In every reachable state the last stop, and no earlier one, makes its deliverer available and jobless, and touches nobody else |
| Effects.OrderIsPlaced | src/order/order.service.ts:121-147 | Which profile gives which error; else a new order with the vendor's coordinates from the profile, the customer's from the request, and every other column empty |
| Effects.DecisionIsWritten | src/vendor/vendor.service.ts:240-245 | A decision writes its own status and no other column |
| Effects.OrderIsMarked | src/order/order.service.ts:186-228 | Exactly which rows answer with which error; else the status, type and time of that order, its batch and one event are what changes |
| Effects.BatchIsClosed | src/order/order.service.ts:344-366 | Exactly a PENDING batch changes its status, and one message is sent for it |
| Effects.AssignmentIsDecided | src/deliverer/deliverer-assignment.service.ts:132-142 | Committed exactly for a closed batch without a deliverer and an available deliverer without a job; else nothing is left behind |
| Effects.AssignmentIsWritten | src/deliverer/deliverer-assignment.service.ts:114-151 | The deliverer becomes unavailable and gets the batch's job row, which becomes ASSIGNED with the size of the list; no other job, batch or deliverer changes |
| Effects.OrdersAreHandedOver | src/deliverer/deliverer-assignment.service.ts:144-151 | Exactly the batch's orders get the job, the deliverer and their status |
| Effects.StopsAreMade | src/deliverer/deliverer-assignment.service.ts:153-162 | One stop per entry of the list, in its place, at that order's customer; of the old stops only the job's own go |
| Effects.JobIsStarted | src/deliverer/deliverer-job.service.ts:33-65 | Exactly which rows answer with which of three errors; else the job and its own orders are IN_PROGRESS |
| Effects.StopIsDecided | src/deliverer/deliverer-job.service.ts:84-125 | Exactly which rows answer with which of four errors; the job is reported completed exactly when no other stop is open |
| Effects.StopIsWritten | src/deliverer/deliverer-job.service.ts:92-186 | The stop and its order are COMPLETED; with the last stop the job, its batch and its orders are, and the deliverer is available |
| Effects.JobIsRecovered | src/common/decorators/recovery/deliverer-recovery.service.ts:104-138 | It goes through exactly for a job still ASSIGNED, and then what the assignment wrote to job, batch, deliverer and orders is taken back |
| Effects.ProfileIsWritten | src/deliverer/deliverer.service.ts:20-33 | The availability of that deliverer, and no active job, is written |
| Effects.DelivererIsAdded | prisma/schema.prisma:150 | A new deliverer is available and has no job |
| LogReplay.LogReplaysToState | src/deliverer/deliverer-job.service.ts:56-64 | A job's log is assignments, then at most one start, then at most one completion, ending at the row's status; an order's is the prefix of created, ready, completed that its status tells |
| LogReplay.FinishSweepIsIdle | src/deliverer/deliverer-job.service.ts:183-186 | After a last stop the final order update of finishJob changes no order |
| Store.Store.MarkReady | src/order/order.service.ts:177-231 | The statements commit exactly the atomic mark-ready, or the error and no change |
| Store.Store.AssignToBatch | src/order/order.service.ts:248-283 | The loop joins the first eligible open batch, or creates one |
| Store.Store.CloseBatch | src/order/order.service.ts:344-366 | Whoever flips PENDING sends one assignment message; otherwise nothing changes |
| Store.Store.CloseExpired | src/order/order.service.ts:370-388 | The loop closes exactly the expired batches and sends one message for each |
| Store.Store.CreateOrder | src/order/order.service.ts:119-166 | The vendor's row is checked for existence, activity and verification, each with its error; else the order row and its event |
| Store.Store.CheckDecision | src/vendor/vendor.service.ts:221-238 | The vendor, ownership and status checks and their errors; nothing is written |
| Store.Store.WriteDecision | src/vendor/vendor.service.ts:240-245 | The update writes the status and looks at nothing but the id |
| Store.Store.DecideOrder | src/vendor/vendor.service.ts:219-261 | Undisturbed, the whole call writes the decision and then its event exactly when the checks pass |
| Store.Store.UpdateProfile | src/deliverer/deliverer.service.ts:20-33 | The availability that is given, or else the possibly stale one that was read, is written whatever the active job is, which stays |
| Store.Store.UpsertJob | src/deliverer/deliverer-assignment.service.ts:114-130 | The job of the batch is rewritten when there is one, else created; no batch gets a second |
| Store.Store.ClaimBatch | src/deliverer/deliverer-assignment.service.ts:132-136 | The first claim succeeds exactly on a closed batch without a deliverer |
| Store.Store.ClaimDeliverer | src/deliverer/deliverer-assignment.service.ts:138-142 | The second claim succeeds exactly on an idle deliverer |
| Store.Store.CreateStops | src/deliverer/deliverer-assignment.service.ts:154-162 | The loop inserts one stop per order, with its index as sequence and its customer's coordinates |
| Store.Store.DeleteStops | src/deliverer/deliverer-assignment.service.ts:153 | Only the job's own stops are deleted |
| Store.Store.Assign | src/deliverer/deliverer-assignment.service.ts:113-174 | Statement by statement with rollback, the transaction commits exactly the atomic assignment |
| Store.Store.StartJob | src/deliverer/deliverer-job.service.ts:33-65 | Commits exactly the atomic start, or the right one of its three errors |
| Store.Store.CompleteStop | src/deliverer/deliverer-job.service.ts:75-128 | Commits exactly the atomic completion, reports the job completed exactly on the last stop, and rolls back on each of its errors |
| Store.Store.CountOpen | src/deliverer/deliverer-job.service.ts:120-122 | The count is the number of unfinished stops |
| Store.Store.FinishJob | src/deliverer/deliverer-job.service.ts:164-197 | The four updates and the event, or no change |
| Store.Store.Recover | src/common/decorators/recovery/deliverer-recovery.service.ts:104-138 | Four updates, undone together when the job row's guard fails |
| Store.Store.Sweep | src/common/decorators/recovery/deliverer-recovery.service.ts:79-86 | The loop handles every entry of a list and skips those that fail |
| Store.SweepIsARun | src/common/decorators/recovery/deliverer-recovery.service.ts:79-86 | A sweep with nothing in between is the run of its single steps |
| Store.Store.RequeueStuck | src/common/decorators/recovery/deliverer-recovery.service.ts:208-242 | One message for each of the oldest batches that have waited a minute without a deliverer, as many as there are free deliverers, none older left out, each one that Resends lets a run send |
| Store.Store.RequeueOldest | src/deliverer/deliverer-job.service.ts:206-224 | One message for the oldest batch without a deliverer, exactly when there is one |
| StopLocking.StepRefines | src/deliverer/deliverer-job.service.ts:79-128 | Every interleaved statement is invisible, a refusal without effect, or one atomic completion |
| StopLocking.ExactlyOneFinisher | src/deliverer/deliverer-job.service.ts:75-128 | However calls interleave, the store is that of atomic completions in lock order; exactly one call reports the job completed, the one committing the last stop; an IN_PROGRESS job keeps work |
| StopLocking.WithoutLockJobHangs | src/deliverer/deliverer-job.service.ts:79 | Without the row lock two calls can both commit and leave the job IN_PROGRESS with nothing left |
| ReadyLocking.CommitIsAtomic | src/order/order.service.ts:253-282 | A commit into an open or new batch is the atomic find-or-create on the store it commits to |
| ReadyLocking.CommitIsAtomicIff | src/order/order.service.ts:264-267 | The join has no status guard: a commit equals an atomic mark-ready if and only if the batch it joins is still open |
| ReadyLocking.ClaimFailsLikeMark | src/order/order.service.ts:200-211 | A claim that updates nothing fails with the error the atomic step has |
| ReadyLocking.InterleavingIsSerial | src/order/order.service.ts:200-231 | Any interleaving whose commits land gives the store of atomic steps in advisory-lock order, each with the true list of open batches and a fresh id of the store it is applied to; each order is batched once |
| ReadyLocking.InterleavingKeepsBatchesApart | src/order/order.service.ts:253-282 | So from a reachable store it ends in one, and of two open batches the younger one's founder was refused by the older one |
| ReadyLocking.WithoutLockBatchesTwice | src/order/order.service.ts:253 | Without the lock two calls each found a batch that one would have filled, and no such atomic steps give that store |
| ReadyLocking.RaceIsReachable | src/order/order.service.ts:253 | A reachable store and two calls with which that happens |
| ReadyLocking.CloseOvertakesCommit | src/order/order.service.ts:255-267 | A close between the read and the commit puts the order into a closed batch |
| ReadyLocking.OvertakingIsReachable | src/order/order.service.ts:255-267 | A reachable store and a call with which that happens |
| LateJoins.JoinTiming | src/deliverer/deliverer-assignment.service.ts:65-162 | An order whose join lands in a closed batch gets the job if and only if it lands before the assignment commits, and a stop if and only if it lands before the worker reads |
| LateJoins.LateJoinLeads | src/deliverer/deliverer-assignment.service.ts:144-162 | A join after the read leaves the order in a batch whose job was assigned without a stop for it, with the job or, after the commit, without |
| LateJoins.LeftBehindForever | src/deliverer/deliverer-job.service.ts:183-186 | Once that job is started no run gives the order a stop: with the job it is COMPLETED when the job is, without it stays READY for good |
| LateJoins.CompletedWithoutStop | src/deliverer/deliverer-job.service.ts:183-186 | And a run completes the job and marks the order COMPLETED although no stop was ever made for it |
| LateJoins.RecoveryHeals | src/common/decorators/recovery/deliverer-recovery.service.ts:104-147 | Only before the start a recovery undoes it: the next assignment gives the order its stop |
| LateJoins.LateJoinIsReachable | src/order/order.service.ts:255-267 | A reachable store, a worker that has read and a call about to join, with which that happens |
| ReadyLocking.RunWithoutClosesLands | src/order/order.service.ts:253-282 | Mark-readies alone always land, so the theorem covers all their interleavings |
| ReadyLocking.DoubleClickBatchesOnce | src/order/order.service.ts:201-211 | Of several calls for one order at most one commits |
| Timelines.StatusRoundTrip | src/common/timeline/order-timeline.projection.service.ts:22-25 | A payload yields a status if and only if its field is that status's name |
| Timelines.VendorEventsHaveNoStatus | src/vendor/vendor.service.ts:247-255 | The vendor's accepted and rejected events carry the event name, so their rows have no status |
| Timelines.RebuildIsExact | src/common/timeline/order-timeline.projection.service.ts:30-47 | Projecting the log in any order, with repetitions, from empty or on top of existing rows gives exactly those rows |
| Timelines.RebuiltRowsTell | src/common/timeline/order-timeline.projection.service.ts:30-48 | After a covering replay each event has the one row in its own table, with its subject, type, payload, time and wording, and a status exactly when its payload names one |
| Timelines.StatusNames | prisma/schema.prisma:29-38 | The names of the eight statuses |
| Timelines.EventLogService.Project | src/common/timeline/order-timeline.projection.service.ts:14-48 | One insert into the event's table, skipped when its row is there |
| Timelines.EventLogService.RecordEvent | src/common/events/event-log.service.ts:15-46 | Appends the event and projects it; if the process dies in between the tables miss only that row |
| Timelines.EventLogService.Rebuild | src/common/timeline/job-timeline.projection.service.ts:14-39 | Projecting a list that covers the log restores the complete tables |
| Throttler.AtMostLimitPerLifetime | src/common/throttler/redis-throttler.storage.ts:20-59 | Under any interleaving of commands with blocking on, one lifetime of the hits key lets at most `limit` calls through |
| Throttler.UnderTwiceLimitPerWindow | src/common/throttler/redis-throttler.storage.ts:33-59 | Any half-open window of ttlSeconds lets at most 2*limit - 1 calls through |
| Throttler.WindowBoundIsReached | src/common/throttler/redis-throttler.storage.ts:33-59 | That bound is exact: some run reaches it |
| Throttler.LimitHoldsIff | src/common/throttler/redis-throttler.storage.ts:38 | The limit holds in every run if and only if blockDuration is positive |
| Throttler.LostExpireIsStricter | src/common/redis/redis.service.ts:58-64 | After a lost EXPIRE only what was left of the limit ever gets through |
| Blocking.BlockLasts | src/common/throttler/redis-throttler.storage.ts:20-44 | Over any interleaving: once a call was blocked by its count, every other call that looks less than blockDuration later makes no INCR and can only be refused, whatever runs in between and after |
| Blocking.ToldTheRest | src/common/throttler/redis-throttler.storage.ts:23-31 | A refused call is told at least the rest of the block in seconds, rounded up, never more than a whole block, and exactly the rest when nobody was blocked since |
| Blocking.BlockEnds | src/common/throttler/redis-throttler.storage.ts:38-44 | Without another block, a call a second after the block is let count |
| Throttler.RedisThrottlerStorage.IncrWithExpire | src/common/redis/redis.service.ts:58-64 | INCR, then EXPIRE only after an answer of 1 |
| Throttler.RedisThrottlerStorage.GetTtl | src/common/redis/redis.service.ts:65-67 | -2 without a key, -1 without an expiry, else the seconds left |
| Throttler.RedisThrottlerStorage.Increment | src/common/throttler/redis-throttler.storage.ts:10-60 | One call is the machine's run of its commands; it is blocked exactly by a live block key or a hit over the limit, its record tells hits and remaining times in seconds, and the block it sets lasts for blockDuration |
| Locations.FindClosest | src/deliverer/deliverer-assignment.service.ts:44-62 | None exactly when nobody has a position; else the first at minimal distance among those who have one |
| Locations.ClosestIsUnique | src/deliverer/deliverer-assignment.service.ts:49-60 | At most one position of the list is the first of the nearest, so that description fixes the answer |
| Locations.CacheLastsHalfAMinute | src/deliverer/deliverer-location-service.ts:31-46 | A cached position is the current one for thirty seconds, then the row's if it is complete |
| Locations.DelivererLocationService.Get | src/deliverer/deliverer-location-service.ts:35-46 | Cache first, then the row's coordinates when both are set |
| Locations.DelivererLocationService.GetMany | src/deliverer/deliverer-location-service.ts:48-70 | For every id list, duplicates included, exactly the answers of the single get |
| Locations.DelivererLocationService.Update | src/deliverer/deliverer-location-service.ts:31-33 | The new position is current at once and nobody else's changes |
| Locations.DelivererLocationService.FlushToDb | src/deliverer/deliverer-location-service.ts:72-79 | Only that row changes, no position does, and it fails exactly for a live entry without a profile |
| Locations.DelivererLocationService.FlushAll | src/deliverer/deliverer-location-service.ts:81-91 | Every live cached position reaches its row whatever the order of keys |
| Locations.DelivererLocationService.UpdateProfile | src/deliverer/deliverer.service.ts:20-33 | A coordinate that is not given is written back as it was read; where the cache is live nobody moves |
| Locations.FlushOutlivesCache | src/deliverer/deliverer-location-service.ts:72-79 | After a flush every profile keeps its position even when the cache expires |
| Locations.DelivererLocationService.Choose | src/deliverer/deliverer-assignment.service.ts:104-111 | By the freshest positions, the first nearest candidate; the list head when nobody has a position |
| Sanitizer.CopyIsExact | src/common/logger/app-logger.service.ts:27-50 | On every finite graph: redacted keys marked at every depth, all else copied in order, and exactly the objects reachable past no redacted key or error expanded once each |
| Sanitizer.ReferencesAccount | src/common/logger/app-logger.service.ts:40 | Every reference followed either expands its object or leaves one circular marker |
| Sanitizer.MarkedIffShared | src/common/logger/app-logger.service.ts:40 | For any list of the objects reachable past no redacted key or error: the circular marker appears if and only if they hold more references than their number less one |
| Sanitizer.SharedIsMarked | src/common/logger/app-logger.service.ts:40 | An object shared without any cycle is marked circular |
| Sanitizer.SecretNames | src/common/logger/app-logger.service.ts:4-7 | The eight redacted names, in exactly that spelling |
| Sanitizer.EntriesAreCopied | src/common/logger/app-logger.service.ts:30-48 | Entry by entry of an object: a secret is replaced, a plain value kept, and of an error exactly name, message, non-empty code and stack |
| Sanitizer.AppLogger.Sanitize | src/common/logger/app-logger.service.ts:27-50 | The recursion over the shared, mutated seen set computes exactly the specified copy and terminates on cycles |
| Sanitizer.AppLogger.SanitizeItems | src/common/logger/app-logger.service.ts:43 | The map over an array |
| Sanitizer.AppLogger.SanitizeEntries | src/common/logger/app-logger.service.ts:45-49 | The loop over an object's entries, redacted keys not looked into |
| Sanitizer.AppLogger.SanitizeFresh | src/common/logger/app-logger.service.ts:27 | A call with the default seen set gives the copy that CopyIsExact speaks of |
| Escalation.SeenBetweenEscalations | src/common/decorators/recovery/deliverer-recovery.service.ts:156-184 | Between two ESCALATED events of a job its deliverer was seen, at or after the first, however stale the sweeper's lastSeenAt |
| Escalation.OneEscalationPerSilence | src/common/decorators/recovery/deliverer-recovery.service.ts:156-173 | So an interval holds two escalations of a job only if it holds a heartbeat of its deliverer |
| Escalation.SilenceIsEscalated | src/common/decorators/recovery/deliverer-recovery.service.ts:156-184 | A sweep that handles a stale entry without failing leaves an escalation newer than its last sign of life |
| Escalation.GraceIsTwoMinutes | src/common/decorators/recovery/deliverer-recovery.service.ts:54-64 | A deliverer with a started job is listed as stale if and only if he was last seen more than two minutes ago |
| Escalation.DelivererRecoveryService.FindNewer | src/common/decorators/recovery/deliverer-recovery.service.ts:158-170 | Found exactly when the job has an escalation after lastSeenAt |
| Escalation.DelivererRecoveryService.EscalateStartedJob | src/common/decorators/recovery/deliverer-recovery.service.ts:156-206 | Writes the job event and then one event for each order, in order, exactly when no newer escalation exists |
| ExpirySweep.SweepClosesExactlyExpired | src/order/order.service.ts:370-388 | Undisturbed, a sweep closes exactly the expired batches, with one message each, and leaves none expired |
| ExpirySweep.PendingAgeIsBounded | src/order/order.service.ts:370-388 | With every timer lost: after a sweep, and until a minute has passed since it began, no batch it did not fail to close is PENDING and older than WINDOW_MIN + 2 minutes |
| ExpirySweep.AgeBoundIsReached | src/order/order.service.ts:373-378 | That bound is exact: the strict cutoff leaves a batch waiting that long |

## Left out

- Controllers, guards, JWT, WebSocket gateways, notifications, reconnect replay, products, users and admin operations: input and output around the protocol.
- `AdminService.removeDeliverer`: foreign keys would clear the owners of a deliverer's jobs; the model has no deletion of deliverers.
- `completeJob`: it has no caller in the gateway, and it would finish a job with stops left.
- Prices, items, addresses, preparation times and fees: they never reach the protocol. In the dispatch runs orders are placed without the vendor checks that `Store.Store.CreateOrder` makes.
- Columns `assignedAt`, `startedAt`, `completedAt`, `deliveredAt`: written and never read by the protocol.
- Haversine, floating point, NaN: distances and coordinates are reals and the metric is a parameter.
- BullMQ retries, back-off and job ids: a multiset of messages, each handled zero or more times, covers them.
- RECOVERED and ESCALATED events: written outside the transaction they speak of, so no position in a job's log is claimed for them.
- A `delivererId` that is undefined at run time, which would drop the condition from a filter, is not modelled.
- Guarantees.OneToOne: rests on recovery sweeps that do not overlap; two overlapping sweeps are covered only by `JobSteps.RecoverIsSafeIff`.
- Delivery.EverythingCanBeDelivered: needs a deliverer present, present idle ones available and pickup coordinates on every batched order; without these `Starvation.DeliverableIff` says exactly which orders of closed batches can be delivered. It says that a run exists; `Delivery.BusyRoundsDeliver` is the statement about every busy run.
- Delivery.WorkIsPossible: under the same conditions.
- Starvation.AssignableIff: of a fleet to which nobody is added; the two queries of `requeueStuckBatches` are answered at one instant, deliverers come online and become available in the run that is claimed to exist, and a worker may pick any of those present.
- VendorRaces.LateAcceptReopens: read off the order's foreign key; the model's list of the old batch's orders means something only while the invariant holds.
- LateJoins.LeftBehindForever: of one order that joined late; vendor writes as in the dispatch runs.
- Guarantees.StatusIsDetermined: of runs in which every vendor write finds its order in no batch; `VendorRaces.LateWriteHappens` and `VendorRaces.LateAcceptHappens` are runs outside them.
- OrderSteps.VendorDecideKeepsInv: of writes that find their order in no batch, which `OrderSteps.LateVendorWriteIsSafeIff` shows to be exactly the harmless ones.
- Store.Store.UpdateProfile: the coordinates that the same update writes are in `Locations.DelivererLocationService.UpdateProfile`.
- StopLocking.ExactlyOneFinisher: the statements of `finishJob` are one statement there; they run under the row lock that the call already holds.
- Throttler.AtMostLimitPerLifetime: one key of one throttler; the client's clock reading and its SET of the block key are one step, and block keys of other throttlers never matter to it.
- Locations.DelivererLocationService.GetMany: compared with `get` at one instant; cache entries that expire between its reads are not modelled.
- Sanitizer.CopyIsExact: graphs of plain values, arrays, errors and objects with distinct keys; getters that throw, the `__proto__` key and `print`'s merging of metadata are not modelled.
- Escalation.SeenBetweenEscalations: one sweeper, and a started job keeps its deliverer, which `Guarantees.NothingIsUndone` proves.
- ExpirySweep.PendingAgeIsBounded: a batch whose close fails during a sweep is exempt until the next sweep begins.
