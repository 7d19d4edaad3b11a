/**
 Which closed batches can still get a deliverer. A batch whose first order has no pickup point is given up on
 silently and stays the oldest stuck one for good, so it also takes up a place in every list of batches whose
 messages are sent again.
 */
module Starvation {
  import opened Types
  import opened Batching
  import opened Transactions
  import opened Invariant
  import opened Evolution
  import opened Dispatch
  import opened Drain
  import opened Resends
  import opened Delivery

  /** Some answer to the order query starts with an order whose vendor has coordinates. */
  ghost predicate Locatable(s: State, b: Id)
    requires b in s.batches
  {
    exists route :: IsRoute(s.orders, s.batches[b].orders, route) && Located(s, route)
  }

  /** A closed, unassigned batch whose first order has no pickup point. */
  ghost predicate Stuck(s: State, b: Id) {
    Unassigned(s, b) && !Locatable(s, b)
  }

  // ---------------------------------------------------------------- no pickup point, no deliverer

  /** A closed batch keeps its orders, so it stays locatable or not. */
  lemma LocatableIsFrozen(s: State, s': State, b: Id)
    requires Inv(s) && Evolves(s, s') && Closed(s, b) && b in s'.batches
    ensures Locatable(s', b) <==> Locatable(s, b)
  {
    assert BatchEvolves(s, s', b) && BatchRef(s, b);
    forall o | o in s.batches[b].orders ensures o in s.orders && s.orders[o].batchId.Some? && OrderEvolves(s, s', o) {
    }
    hide Inv, Evolves, Locatable;
    if Locatable(s, b) { LocatableCarriesOver(s, s', b); }
    if Locatable(s', b) { LocatableCarriesOver(s', s, b); }
  }

  lemma LocatableCarriesOver(s: State, s': State, b: Id)
    requires b in s.batches && b in s'.batches && s'.batches[b].orders == s.batches[b].orders && Locatable(s, b)
    requires forall o :: o in s.batches[b].orders ==>
      && o in s.orders && o in s'.orders
      && s'.orders[o].readyAt == s.orders[o].readyAt && s'.orders[o].info == s.orders[o].info
    ensures Locatable(s', b)
  {
    var route :| IsRoute(s.orders, s.batches[b].orders, route) && Located(s, route);
    assert forall i :: 0 <= i < |route| ==> route[i] in route;
    assert IsRoute(s'.orders, s'.batches[b].orders, route) && Located(s', route);
  }

  lemma StopKeepsUnassigned(s: State, j: Id, k: Id, d: Id, b: Id)
    requires Inv(s)
    ensures Unassigned(CompleteStop(s, j, k, d).state, b) <==> Unassigned(s, b)
  {
    if CanCompleteStop(s, j, k, d) {
      assert JobLinked(s, j);
    }
  }

  lemma ReadyKeepsUnassigned(
    rules: Rules, s: State, o: Id, vendor: Id, hasFood: bool, now: int, open: seq<Id>, newBatch: Id, b: Id)
    requires Unassigned(s, b) && FreshBatchId(s, newBatch)
    ensures Unassigned(MarkReady(rules, s, o, vendor, hasFood, now, open, newBatch).state, b)
  {
  }

  lemma UnassignedStays(rules: Rules, s: State, step: Step, b: Id)
    requires Inv(s) && Unassigned(s, b)
    ensures Unassigned(Direct(rules, s, step), b)
  {
    hide Inv, MarkReady, CompleteStop, OpenListing, FreshBatchId;
    match step
    case Readied(o, vendor, hasFood, now, open, newBatch) =>
      if OpenListing(s, open) && FreshBatchId(s, newBatch) {
        ReadyKeepsUnassigned(rules, s, o, vendor, hasFood, now, open, newBatch, b);
      }
    case StopCompleted(j, k, d) => StopKeepsUnassigned(s, j, k, d, b);
    case _ =>
  }

  /** The step commits an assignment of batch `b`. */
  predicate Commits(sys: System, step: Step, b: Id) {
    step.AssignmentCommitted? && step.w in sys.workers && sys.workers[step.w].batchId == b
  }

  /** Only an assignment of the batch itself gives an unassigned batch a deliverer. */
  lemma UnassignedStaysInStep(rules: Rules, sys: System, step: Step, b: Id)
    requires SysInv(sys) && Unassigned(sys.db, b) && !Commits(sys, step, b)
    ensures Unassigned(Apply(rules, sys, step).db, b)
  {
    hide Inv, Direct, EntryHolds, SnapshotHolds, RebuildStops, AssignOrders, ReleaseOrders;
    match step
    case AssignmentCommitted(w, newJob, base) =>
    case SweepAdvanced =>
    case SnapshotTaken(_, _, _, _) =>
    case PresenceChanged(_, _) =>
    case SweepBegun(_) =>
    case _ => UnassignedStays(rules, sys.db, step, b);
  }

  /** No worker can have read a batch that cannot be located. */
  lemma StuckIsNotHeld(sys: System, w: Id, b: Id)
    requires SysInv(sys) && Stuck(sys.db, b) && w in sys.workers
    ensures sys.workers[w].batchId != b
  {
    hide Inv, IsRoute, Located;
    assert SnapshotHolds(sys.db, sys.workers[w]);
  }

  lemma StuckStays(rules: Rules, sys: System, step: Step, b: Id)
    requires SysInv(sys) && Stuck(sys.db, b)
    ensures Stuck(Apply(rules, sys, step).db, b)
  {
    var next := Apply(rules, sys, step);
    StepKeepsSysInv(rules, sys, step);
    if step.AssignmentCommitted? && step.w in sys.workers { StuckIsNotHeld(sys, step.w, b); }
    hide Apply, Locatable, Evolves;
    UnassignedStaysInStep(rules, sys, step, b);
    LocatableIsFrozen(sys.db, next.db, b);
  }

  /** assignDelivererToBatch returns early for such a batch, so no run ever assigns it. */
  lemma {:induction false} StuckForever(rules: Rules, sys: System, steps: seq<Step>, b: Id)
    requires SysInv(sys) && Stuck(sys.db, b)
    ensures Stuck(Run(rules, sys, steps).db, b)
    decreases |steps|
  {
    hide Apply, SysInv, Stuck;
    if steps != [] {
      StepKeepsSysInv(rules, sys, steps[0]);
      StuckStays(rules, sys, steps[0], b);
      StuckForever(rules, Apply(rules, sys, steps[0]), steps[1..], b);
    }
  }

  // ---------------------------------------------------------------- starvation

  /** The strictly older batches that will stay stuck. */
  ghost function Blockers(s: State, b: Id): set<Id> {
    set c | c in Older(s, b) && Stuck(s, c)
  }

  /** A message for the batch is under way, or a worker has read it. */
  ghost predicate Sent(sys: System, b: Id) {
    b in sys.db.queue || exists w :: w in sys.workers && sys.workers[w].batchId == b
  }

  /** There are at least as many blockers as deliverers, and no message is under way. */
  ghost predicate Starved(sys: System, b: Id) {
    && Unassigned(sys.db, b) && |Blockers(sys.db, b)| >= |sys.db.deliverers|
    && (sys.db.deliverers == map[] || !Sent(sys, b))
  }

  lemma SubsetCard(a: set<Id>, b: set<Id>)
    requires a <= b
    ensures |a| <= |b|
  {
    if a != b {
      assert b == a + (b - a);
    }
  }

  lemma FreeAreDeliverers(s: State)
    ensures |Free(s)| <= |s.deliverers|
  {
    SubsetCard(Free(s), s.deliverers.Keys);
    assert |s.deliverers.Keys| == |s.deliverers|;
  }

  lemma BlockersStay(rules: Rules, sys: System, step: Step, b: Id)
    requires SysInv(sys) && Unassigned(sys.db, b)
    ensures b in Apply(rules, sys, step).db.batches
    ensures Blockers(sys.db, b) <= Blockers(Apply(rules, sys, step).db, b)
    ensures |Blockers(sys.db, b)| <= |Blockers(Apply(rules, sys, step).db, b)|
  {
    var next := Apply(rules, sys, step);
    StepKeepsSysInv(rules, sys, step);
    hide Apply, SysInv, Locatable;
    assert BatchEvolves(sys.db, next.db, b);
    forall c | c in Blockers(sys.db, b) ensures c in Blockers(next.db, b) {
      StuckStays(rules, sys, step, c);
      assert BatchEvolves(sys.db, next.db, c);
    }
    SubsetCard(Blockers(sys.db, b), Blockers(next.db, b));
  }

  lemma FleetStays(rules: Rules, sys: System, step: Step)
    requires SysInv(sys) && Obeys(sys.db, step)
    ensures Apply(rules, sys, step).db.deliverers.Keys == sys.db.deliverers.Keys
    ensures |Apply(rules, sys, step).db.deliverers| == |sys.db.deliverers|
  {
    FleetStaysKeys(rules, sys, step);
    hide Apply;
    var m, m' := sys.db.deliverers, Apply(rules, sys, step).db.deliverers;
    assert |m| == |m.Keys| && |m'| == |m'.Keys|;
  }

  lemma FleetStaysKeys(rules: Rules, sys: System, step: Step)
    requires SysInv(sys) && Obeys(sys.db, step)
    ensures Apply(rules, sys, step).db.deliverers.Keys == sys.db.deliverers.Keys
  {
    hide Inv, Direct, RebuildStops, AssignOrders, ReleaseOrders, UpsertTarget, SnapshotHolds, EntryHolds, Sendable;
    match step
    case SweepAdvanced =>
    case AssignmentCommitted(_, _, _) =>
    case SnapshotTaken(_, _, _, _) =>
    case PresenceChanged(_, _) =>
    case SweepBegun(_) =>
    case _ => DirectKeepsFleet(rules, sys.db, step);
  }

  lemma DirectKeepsFleet(rules: Rules, s: State, step: Step)
    requires Inv(s) && !step.DelivererAdded?
    ensures Direct(rules, s, step).deliverers.Keys == s.deliverers.Keys
  {
    hide CompleteStop, MarkReady, Inv, OpenListing, FreshBatchId;
    match step
    case StopCompleted(j, k, d) => StopKeepsFleet(s, j, k, d);
    case Readied(o, vendor, hasFood, now, open, newBatch) =>
      QueueStaysInReady(rules, s, o, vendor, hasFood, now, open, newBatch);
    case _ =>
  }

  lemma StopKeepsFleet(s: State, j: Id, k: Id, d: Id)
    requires Inv(s)
    ensures CompleteStop(s, j, k, d).state.deliverers.Keys == s.deliverers.Keys
  {
    if CanCompleteStop(s, j, k, d) {
      assert JobLinked(s, j);
    }
  }

  /** Of all steps only a message sent again can put a closed batch without a deliverer into the queue. */
  lemma NotSentStays(rules: Rules, sys: System, step: Step, b: Id)
    requires SysInv(sys) && Unassigned(sys.db, b) && !Sent(sys, b) && step != Requeued(b)
    ensures !Sent(Apply(rules, sys, step), b)
  {
    hide SnapshotHolds, EntryHolds, RecoverEntry, Direct, Assign, IsRoute, Inv;
    match step
    case SweepAdvanced =>
      if sys.sweep != [] { RecoversOther(sys.db, sys.sweep[0], b); }
    case AssignmentCommitted(w, newJob, base) =>
      if w in sys.workers { QueueStaysInAssign(sys.db, sys.workers[w], newJob, base); }
    case SnapshotTaken(_, _, _, _) =>
    case PresenceChanged(_, _) =>
    case SweepBegun(_) =>
    case _ => NotQueuedStays(rules, sys.db, step, b);
  }

  lemma NotQueuedStays(rules: Rules, s: State, step: Step, b: Id)
    requires Unassigned(s, b) && b !in s.queue && step != Requeued(b)
    ensures b !in Direct(rules, s, step).queue
  {
    hide CompleteStop, MarkReady, OpenListing, FreshBatchId;
    match step
    case StopCompleted(j, k, d) => QueueStaysInStop(s, j, k, d);
    case Readied(o, vendor, hasFood, now, open, newBatch) =>
      QueueStaysInReady(rules, s, o, vendor, hasFood, now, open, newBatch);
    case _ =>
  }

  lemma QueueStaysInAssign(s: State, snap: Snapshot, newJob: Id, base: Id)
    ensures Assign(s, snap.batchId, snap.route, snap.delivererId, newJob, base).state.queue == s.queue
  {
  }

  lemma QueueStaysInStop(s: State, j: Id, k: Id, d: Id)
    ensures CompleteStop(s, j, k, d).state.queue == s.queue
  {
  }

  lemma QueueStaysInReady(
    rules: Rules, s: State, o: Id, vendor: Id, hasFood: bool, now: int, open: seq<Id>, newBatch: Id)
    ensures var s' := MarkReady(rules, s, o, vendor, hasFood, now, open, newBatch).state;
      s'.queue == s.queue && s'.deliverers == s.deliverers
  {
    if o in s.orders {
      QueueStaysInPlace(rules, ClaimReady(s, o, hasFood, now), o, open, newBatch, now);
      hide PlaceInBatch;
    }
  }

  lemma QueueStaysInPlace(rules: Rules, s: State, o: Id, open: seq<Id>, newBatch: Id, now: int)
    requires o in s.orders
    ensures var s' := PlaceInBatch(rules, s, o, open, newBatch, now).state;
      PlaceInBatch(rules, s, o, open, newBatch, now).outcome == Committed
      ==> s'.queue == s.queue && s'.deliverers == s.deliverers
  {
    hide FirstEligible, Infos, ShouldClose;
  }

  /** A recovery hands over the batch of an assigned job, which has a deliverer until then. */
  lemma RecoversOther(s: State, e: Entry, b: Id)
    requires Inv(s) && Unassigned(s, b) && b !in s.queue
    ensures b !in RecoverEntry(s, e).queue
  {
    if e.jobId in s.jobs {
      assert JobLinked(s, e.jobId);
    }
  }

  lemma StarvedIsNotSendable(s: State, b: Id)
    requires |Blockers(s, b)| >= |s.deliverers| && s.deliverers != map[]
    ensures !Sendable(s, b)
  {
    if Sendable(s, b) {
      SendableHasFewOlder(s, b, Blockers(s, b));
      FreeAreDeliverers(s);
    }
  }

  lemma StarvedStays(rules: Rules, sys: System, step: Step, b: Id)
    requires SysInv(sys) && Starved(sys, b) && Obeys(sys.db, step)
    ensures Starved(Apply(rules, sys, step), b)
  {
    BlockersStay(rules, sys, step, b);
    FleetStays(rules, sys, step);
    if sys.db.deliverers == map[] {
      NobodyCommits(sys, step, b);
    } else {
      StarvedIsNotSendable(sys.db, b);
      NotSentStays(rules, sys, step, b);
    }
    hide Apply, Blockers, SysInv, Unassigned, Sendable;
    UnassignedStaysInStep(rules, sys, step, b);
  }

  lemma NobodyCommits(sys: System, step: Step, b: Id)
    requires SysInv(sys) && sys.db.deliverers == map[]
    ensures !Commits(sys, step, b)
  {
    hide Inv, IsRoute, Located;
    assert forall w :: w in sys.workers ==> SnapshotHolds(sys.db, sys.workers[w]);
  }

  /** Every run of the services keeps passing a starved batch over. */
  lemma {:induction false} StarvedForever(rules: Rules, sys: System, steps: seq<Step>, b: Id)
    requires SysInv(sys) && Starved(sys, b) && Faithful(rules, sys, steps)
    ensures Starved(Run(rules, sys, steps), b)
    decreases |steps|
  {
    hide Apply, SysInv, Starved, Obeys;
    if steps != [] {
      StepKeepsSysInv(rules, sys, steps[0]);
      StarvedStays(rules, sys, steps[0], b);
      StarvedForever(rules, Apply(rules, sys, steps[0]), steps[1..], b);
    }
  }

  // ---------------------------------------------------------------- everybody free

  ghost predicate AllIdle(s: State) {
    forall d :: d in s.deliverers ==> Idle(s, d)
  }

  /** The same fleet, nothing taken back, no batch newly without a deliverer, and no more work left. */
  ghost predicate Narrows(sys: System, next: System) {
    && next.db.deliverers.Keys == sys.db.deliverers.Keys && Evolves(sys.db, next.db)
    && (forall c :: Unassigned(next.db, c) ==> Unassigned(sys.db, c))
    && Total(next.db) <= Total(sys.db)
  }

  /** Narrows without assigning anything or touching a message. */
  ghost predicate Settles(sys: System, next: System) {
    && Narrows(sys, next)
    && next.workers == sys.workers && next.db.queue == sys.db.queue
    && (forall c :: Unassigned(sys.db, c) ==> Unassigned(next.db, c))
  }

  ghost function Withdrawn(s: State): set<Id> {
    set d | d in s.deliverers && !s.deliverers[d].availability
  }

  lemma NarrowsTransitively(a: System, b: System, c: System)
    requires Narrows(a, b) && Narrows(b, c)
    ensures Narrows(a, c)
  {
    hide Evolves, Total;
    EvolvesTransitively(a.db, b.db, c.db);
  }

  /** A transaction that brings no work, sends nothing and neither assigns a batch nor releases one. */
  lemma SettlesByParts(rules: Rules, sys: System, step: Step, s': State)
    requires SysInv(sys) && Obeys(sys.db, step) && Apply(rules, sys, step) == sys.(db := s')
    requires Gain(rules, sys, step) == 0 && s'.queue == sys.db.queue
    requires forall c :: Unassigned(s', c) <==> Unassigned(sys.db, c)
    ensures Settles(sys, Apply(rules, sys, step))
    ensures Total(s') == Total(sys.db) - (if Works(sys, step) then 1 else 0)
  {
    hide Evolves, Total, SysInv, Apply, Unassigned, Gain, Works, Obeys;
    StepKeepsSysInv(rules, sys, step);
    StepAccounts(rules, sys, step);
    FleetStaysKeys(rules, sys, step);
  }

  lemma MoveKeepsBatches(s: State, step: Step)
    requires Inv(s) && Moves(s, step)
    ensures var s' := if step.JobStart? then StartJob(s, step.j, step.d).state
                      else CompleteStop(s, step.j, step.k, step.d).state;
      s'.queue == s.queue && forall c :: Unassigned(s', c) <==> Unassigned(s, c)
  {
    match step
    case JobStart(j, d) =>
    case StopCompleted(j, k, d) =>
      hide CompleteStop, Inv, Unassigned;
      QueueStaysInStop(s, j, k, d);
      forall c ensures Unassigned(CompleteStop(s, j, k, d).state, c) <==> Unassigned(s, c) {
        StopKeepsUnassigned(s, j, k, d, c);
      }
  }

  lemma MoveSettles(rules: Rules, sys: System, step: Step)
    requires SysInv(sys) && Moves(sys.db, step)
    ensures Settles(sys, Apply(rules, sys, step)) && Total(Apply(rules, sys, step).db) < Total(sys.db)
  {
    MoveKeepsBatches(sys.db, step);
    hide Evolves, Total, Inv, Unassigned, Settles, CompleteStop, StartJob, SnapshotHolds, EntryHolds, CanStart;
    hide CanCompleteStop;
    match step
    case JobStart(j, d) => SettlesByParts(rules, sys, step, StartJob(sys.db, j, d).state);
    case StopCompleted(j, k, d) => SettlesByParts(rules, sys, step, CompleteStop(sys.db, j, k, d).state);
  }

  lemma ReturnSettles(rules: Rules, sys: System, d: Id)
    requires SysInv(sys) && d in Withdrawn(sys.db)
    ensures var next := Apply(rules, sys, AvailabilitySet(d, true));
      Settles(sys, next) && |Withdrawn(next.db)| < |Withdrawn(sys.db)|
  {
    hide Evolves, Total, Inv, Settles, SnapshotHolds, EntryHolds;
    var s' := SetAvailability(sys.db, d, true);
    assert Withdrawn(s') == Withdrawn(sys.db) - {d};
    SettlesByParts(rules, sys, AvailabilitySet(d, true), s');
  }

  /** While somebody is busy or withdrawn, a job can move along or a deliverer come back. */
  lemma Eases(rules: Rules, sys: System) returns (step: Step)
    requires SysInv(sys) && !AllIdle(sys.db)
    ensures var next := Apply(rules, sys, step);
      && Obeys(sys.db, step) && Settles(sys, next)
      && (Total(next.db) < Total(sys.db) || |Withdrawn(next.db)| < |Withdrawn(sys.db)|)
  {
    var d :| d in sys.db.deliverers && !Idle(sys.db, d);
    if sys.db.deliverers[d].activeJobId.Some? {
      assert DelivererLinked(sys.db, d);
      hide Inv;
      step := JobCanMove(sys.db, sys.db.deliverers[d].activeJobId.value);
      MoveSettles(rules, sys, step);
    } else {
      step := AvailabilitySet(d, true);
      ReturnSettles(rules, sys, d);
    }
  }

  /** Every job can be finished and every deliverer come back, with no batch assigned in between. */
  lemma {:induction false} FreeAll(rules: Rules, sys: System) returns (steps: seq<Step>)
    requires SysInv(sys)
    ensures Faithful(rules, sys, steps) && SysInv(Run(rules, sys, steps))
    ensures Settles(sys, Run(rules, sys, steps)) && AllIdle(Run(rules, sys, steps).db)
    decreases Total(sys.db), |Withdrawn(sys.db)|
  {
    if AllIdle(sys.db) {
      steps := [];
      NothingSettles(sys);
    } else {
      hide SysInv, AllIdle, Total, Withdrawn, Apply, Obeys, Evolves;
      var step := Eases(rules, sys);
      var next := Apply(rules, sys, step);
      StepKeepsSysInv(rules, sys, step);
      var rest := FreeAll(rules, next);
      steps := [step] + rest;
      assert steps[1..] == rest;
      NarrowsTransitively(sys, next, Run(rules, next, rest));
    }
  }

  lemma NothingSettles(sys: System)
    ensures Settles(sys, sys)
  {
    Unchanged(sys.db);
  }

  lemma BlockersNarrow(sys: System, next: System, b: Id)
    requires Inv(sys.db) && Narrows(sys, next) && Unassigned(next.db, b)
    ensures Locatable(next.db, b) <==> Locatable(sys.db, b)
    ensures Blockers(next.db, b) <= Blockers(sys.db, b) && |Blockers(next.db, b)| <= |Blockers(sys.db, b)|
  {
    hide Inv, Locatable, Total;
    LocatableIsFrozen(sys.db, next.db, b);
    assert BatchEvolves(sys.db, next.db, b);
    forall c | c in Blockers(next.db, b) ensures c in Blockers(sys.db, b) {
      LocatableIsFrozen(sys.db, next.db, c);
      assert BatchEvolves(sys.db, next.db, c);
    }
    SubsetCard(Blockers(next.db, b), Blockers(sys.db, b));
  }

  // ---------------------------------------------------------------- one batch assigned

  /** Batch `c` has been assigned, and the messages under way still are. */
  ghost predicate Serves(sys: System, next: System, c: Id) {
    && Narrows(sys, next) && Total(next.db) < Total(sys.db)
    && (forall b :: Unassigned(next.db, b) <==> b != c && Unassigned(sys.db, b))
  }

  lemma AssignServes(s: State, b: Id, route: seq<Id>, d: Id, newJob: Id, base: Id)
    requires Unassigned(s, b) && Idle(s, d)
    ensures var s' := Assign(s, b, route, d, newJob, base).state;
      && s'.deliverers.Keys == s.deliverers.Keys
      && (forall c :: Unassigned(s', c) <==> c != b && Unassigned(s, c))
  {
    hide RebuildStops, AssignOrders, UpsertTarget;
  }

  /** A worker that has read the batch commits. */
  lemma CommitServes(rules: Rules, sys: System, w: Id) returns (step: Step)
    requires SysInv(sys) && w in sys.workers
    requires Unassigned(sys.db, sys.workers[w].batchId) && Idle(sys.db, sys.workers[w].delivererId)
    ensures Obeys(sys.db, step) && Serves(sys, Apply(rules, sys, step), sys.workers[w].batchId)
  {
    var newJob := FreshAbove(sys.db.jobs.Keys);
    var base := FreshAbove(sys.db.stops.Keys);
    step := AssignmentCommitted(w, newJob, base);
    CommitApplies(rules, sys, w, newJob, base);
    hide *;
    StepKeepsSysInv(rules, sys, step);
    StepAccounts(rules, sys, step);
    ServesByParts(sys, Apply(rules, sys, step), sys.workers[w].batchId);
  }

  lemma CommitApplies(rules: Rules, sys: System, w: Id, newJob: Id, base: Id)
    requires w in sys.workers && newJob !in sys.db.jobs && FreshStopIds(sys.db, base)
    requires Unassigned(sys.db, sys.workers[w].batchId) && Idle(sys.db, sys.workers[w].delivererId)
    ensures var step, b := AssignmentCommitted(w, newJob, base), sys.workers[w].batchId;
      && Obeys(sys.db, step) && Works(sys, step) && Gain(rules, sys, step) == 0
      && Apply(rules, sys, step).db.deliverers.Keys == sys.db.deliverers.Keys
      && (forall c :: Unassigned(Apply(rules, sys, step).db, c) <==> c != b && Unassigned(sys.db, c))
  {
    var snap := sys.workers[w];
    hide Assign, Unassigned, Idle;
    AssignServes(sys.db, snap.batchId, snap.route, snap.delivererId, newJob, base);
  }

  lemma ServesByParts(sys: System, next: System, b: Id)
    requires Evolves(sys.db, next.db) && Total(next.db) < Total(sys.db)
    requires next.db.deliverers.Keys == sys.db.deliverers.Keys
    requires forall c :: Unassigned(next.db, c) <==> c != b && Unassigned(sys.db, c)
    ensures Serves(sys, next, b)
  {
    hide Evolves, Total, Unassigned;
  }

  /** The deliverer comes online and a worker reads the batch: nothing but `workers` and `present` changes. */
  lemma TakesUp(rules: Rules, sys: System, c: Id, d: Id) returns (w: Id, steps: seq<Step>)
    requires Unassigned(sys.db, c) && Locatable(sys.db, c) && c in sys.db.queue && Idle(sys.db, d)
    ensures Faithful(rules, sys, steps)
    ensures var next := Run(rules, sys, steps);
      && next.db == sys.db && w in next.workers
      && next.workers[w].batchId == c && next.workers[w].delivererId == d
  {
    var route :| IsRoute(sys.db.orders, sys.db.batches[c].orders, route) && Located(sys.db, route);
    w := 0;
    var come, take := PresenceChanged(d, true), SnapshotTaken(w, c, route, d);
    var here := Apply(rules, sys, come);
    assert Apply(rules, here, take).workers == here.workers[w := Snapshot(c, route, d)];
    hide Apply, Unassigned, Idle, IsRoute, Located;
    FaithfulOne(rules, sys, come);
    FaithfulOne(rules, here, take);
    RunConcat(rules, sys, [come], [take]);
    FaithfulConcat(rules, sys, [come], [take]);
    steps := [come] + [take];
  }

  /** Two stretches of a run in a row. */
  lemma Together(rules: Rules, sys: System, first: seq<Step>, second: seq<Step>)
    requires Faithful(rules, sys, first) && Faithful(rules, Run(rules, sys, first), second)
    ensures Faithful(rules, sys, first + second)
    ensures Run(rules, sys, first + second) == Run(rules, Run(rules, sys, first), second)
  {
    hide *;
    FaithfulConcat(rules, sys, first, second);
    RunConcat(rules, sys, first, second);
  }

  /** A locatable batch whose message is in the queue goes to an idle deliverer. */
  lemma QueuedIsServed(rules: Rules, sys: System, c: Id, d: Id) returns (steps: seq<Step>)
    requires SysInv(sys) && Unassigned(sys.db, c) && Locatable(sys.db, c) && c in sys.db.queue && Idle(sys.db, d)
    ensures Faithful(rules, sys, steps) && SysInv(Run(rules, sys, steps)) && Serves(sys, Run(rules, sys, steps), c)
  {
    hide *;
    var w: Id, first: seq<Step> := TakesUp(rules, sys, c, d);
    var held := Run(rules, sys, first);
    RunKeepsSysInv(rules, sys, first);
    var commit := CommitServes(rules, held, w);
    FaithfulOne(rules, held, commit);
    Together(rules, sys, first, [commit]);
    steps := first + [commit];
    RunKeepsSysInv(rules, sys, steps);
    SameRowsServe(sys, held, Run(rules, sys, steps), c);
  }

  /** What counts is the store. */
  lemma SameRowsServe(sys: System, held: System, next: System, c: Id)
    requires held.db == sys.db && Serves(held, next, c)
    ensures Serves(sys, next, c)
  {
    hide Evolves, Total, Unassigned;
  }

  /** A locatable batch whose message may be sent goes to an idle deliverer. */
  lemma SendableIsServed(rules: Rules, sys: System, c: Id, d: Id) returns (steps: seq<Step>)
    requires SysInv(sys) && Unassigned(sys.db, c) && Locatable(sys.db, c) && Sendable(sys.db, c) && Idle(sys.db, d)
    ensures Faithful(rules, sys, steps) && SysInv(Run(rules, sys, steps)) && Serves(sys, Run(rules, sys, steps), c)
  {
    var sent := Apply(rules, sys, Requeued(c));
    SentAgain(rules, sys, c, d);
    hide *;
    FaithfulOne(rules, sys, Requeued(c));
    StepKeepsSysInv(rules, sys, Requeued(c));
    var rest := QueuedIsServed(rules, sent, c, d);
    Together(rules, sys, [Requeued(c)], rest);
    steps := [Requeued(c)] + rest;
    ServedAfterSending(sys, sent, Run(rules, sys, steps), c);
  }

  lemma SentAgain(rules: Rules, sys: System, c: Id, d: Id)
    requires Unassigned(sys.db, c) && Locatable(sys.db, c) && Sendable(sys.db, c) && Idle(sys.db, d)
    ensures var sent := Apply(rules, sys, Requeued(c));
      && sent == sys.(db := sys.db.(queue := sys.db.queue + multiset{c}))
      && Obeys(sys.db, Requeued(c)) && Unassigned(sent.db, c) && Locatable(sent.db, c) && Idle(sent.db, d)
      && c in sent.db.queue
  {
    hide IsRoute, Sendable;
    var route :| IsRoute(sys.db.orders, sys.db.batches[c].orders, route) && Located(sys.db, route);
    var sent := Apply(rules, sys, Requeued(c));
    assert IsRoute(sent.db.orders, sent.db.batches[c].orders, route) && Located(sent.db, route);
  }

  lemma ServedAfterSending(sys: System, sent: System, next: System, c: Id)
    requires Inv(sys.db) && sent == sys.(db := sys.db.(queue := sent.db.queue)) && Serves(sent, next, c)
    ensures Serves(sys, next, c)
  {
    JobsUnique(sys.db);
    SameTablesSameTotal(sys.db, sent.db);
    SameRowsEvolve(sys.db, sent.db);
    hide Total, Evolves, Inv;
    EvolvesTransitively(sys.db, sent.db, next.db);
  }

  // ---------------------------------------------------------------- the exact condition

  /**
   What the fate of a closed batch without a deliverer depends on: its first order has a pickup point, and
   its message is under way, or there are fewer older batches without a pickup point than deliverers.
   */
  ghost predicate CanStillGo(sys: System, b: Id)
    requires b in sys.db.batches
  {
    && Locatable(sys.db, b)
    && (|Blockers(sys.db, b)| < |sys.db.deliverers| || (Sent(sys, b) && sys.db.deliverers != map[]))
  }

  lemma FleetIsCounted(s: State, s': State)
    requires s'.deliverers.Keys == s.deliverers.Keys
    ensures |s'.deliverers| == |s.deliverers| && (s'.deliverers == map[] <==> s.deliverers == map[])
  {
    var m, m' := s.deliverers, s'.deliverers;
    assert |m| == |m.Keys| && |m'| == |m'.Keys|;
    assert m == map[] <==> m.Keys == {};
    assert m' == map[] <==> m'.Keys == {};
  }

  lemma SettledCanStillGo(sys: System, next: System, b: Id)
    requires Inv(sys.db) && Settles(sys, next) && Unassigned(sys.db, b) && CanStillGo(sys, b)
    ensures Unassigned(next.db, b) && CanStillGo(next, b)
  {
    hide Inv, Evolves, Total, Locatable, Blockers;
    BlockersNarrow(sys, next, b);
    FleetIsCounted(sys.db, next.db);
  }

  lemma NarrowedCanStillGo(sys: System, next: System, b: Id)
    requires Inv(sys.db) && Narrows(sys, next) && Unassigned(sys.db, b) && Unassigned(next.db, b)
    requires Locatable(sys.db, b) && |Blockers(sys.db, b)| < |sys.db.deliverers|
    ensures CanStillGo(next, b)
  {
    hide Inv, Evolves, Total, Locatable, Blockers;
    BlockersNarrow(sys, next, b);
    FleetIsCounted(sys.db, next.db);
  }

  lemma AllAreFree(s: State)
    requires AllIdle(s)
    ensures |Free(s)| == |s.deliverers|
  {
    assert Free(s) == s.deliverers.Keys;
    assert |s.deliverers.Keys| == |s.deliverers|;
  }

  /** The batch itself, or the oldest batch before it that can go: only blockers are older than that one. */
  lemma NextToGo(s: State, b: Id) returns (c: Id)
    requires AllIdle(s) && Unassigned(s, b) && Locatable(s, b) && |Blockers(s, b)| < |s.deliverers|
    ensures Unassigned(s, c) && Locatable(s, c) && Sendable(s, c)
  {
    hide Locatable, AllIdle;
    c := Oldest(s, (Older(s, b) - Blockers(s, b)) + {b});
    assert Older(s, c) <= Blockers(s, b);
    SubsetCard(Older(s, c), Blockers(s, b));
    AllAreFree(s);
    FewOlderAreSendable(s, c);
  }

  lemma {:induction false} Goes(rules: Rules, sys: System, b: Id) returns (steps: seq<Step>)
    requires SysInv(sys) && Unassigned(sys.db, b) && CanStillGo(sys, b)
    ensures Faithful(rules, sys, steps) && !Unassigned(Run(rules, sys, steps).db, b)
    decreases Total(sys.db), 1
  {
    var first := FreeAll(rules, sys);
    var free := Run(rules, sys, first);
    SettledCanStillGo(sys, free, b);
    hide Inv, Total, Faithful, Run, CanStillGo, Unassigned, AllIdle, Evolves, SnapshotHolds, EntryHolds;
    var rest := GoesWhenIdle(rules, free, b);
    Together(rules, sys, first, rest);
    steps := first + rest;
  }

  lemma {:induction false} GoesWhenIdle(rules: Rules, sys: System, b: Id) returns (steps: seq<Step>)
    requires SysInv(sys) && Unassigned(sys.db, b) && CanStillGo(sys, b) && AllIdle(sys.db)
    ensures Faithful(rules, sys, steps) && !Unassigned(Run(rules, sys, steps).db, b)
    decreases Total(sys.db), 0
  {
    hide Inv, Total, Faithful, Run, Unassigned, AllIdle, Blockers, Locatable, Narrows, SnapshotHolds, EntryHolds;
    if Sent(sys, b) && sys.db.deliverers != map[] {
      steps := SentIsServed(rules, sys, b);
    } else {
      var c := NextToGo(sys.db, b);
      var d := SomebodyIdle(sys.db);
      var first := SendableIsServed(rules, sys, c, d);
      if c == b {
        steps := first;
      } else {
        var next := Run(rules, sys, first);
        NarrowedCanStillGo(sys, next, b);
        var rest := Goes(rules, next, b);
        Together(rules, sys, first, rest);
        steps := first + rest;
      }
    }
  }

  lemma SomebodyIdle(s: State) returns (d: Id)
    requires AllIdle(s) && s.deliverers != map[]
    ensures Idle(s, d)
  {
    d :| d in s.deliverers;
  }

  /** A message under way is enough. */
  lemma SentIsServed(rules: Rules, sys: System, b: Id) returns (steps: seq<Step>)
    requires SysInv(sys) && Unassigned(sys.db, b) && Locatable(sys.db, b) && AllIdle(sys.db)
    requires Sent(sys, b) && sys.db.deliverers != map[]
    ensures Faithful(rules, sys, steps) && !Unassigned(Run(rules, sys, steps).db, b)
  {
    if b in sys.db.queue {
      hide Inv, Total, Faithful, Run, Unassigned, AllIdle, Locatable, Narrows;
      var d := SomebodyIdle(sys.db);
      steps := QueuedIsServed(rules, sys, b, d);
    } else {
      var w :| w in sys.workers && sys.workers[w].batchId == b;
      assert SnapshotHolds(sys.db, sys.workers[w]);
      hide Inv, Total, Faithful, Run, Unassigned, Locatable, Narrows, IsRoute, Located, Obeys, Apply;
      var commit := CommitServes(rules, sys, w);
      FaithfulOne(rules, sys, commit);
      steps := [commit];
    }
  }

  /**
   Whatever the workers hold and the queue has lost: a closed batch without a deliverer is assigned in some run
   of the services exactly when its first order can be located and, unless its message is under way, fewer
   older batches that cannot be located stand before it than there are deliverers.
   */
  lemma AssignableIff(rules: Rules, sys: System, b: Id)
    requires SysInv(sys) && Unassigned(sys.db, b)
    ensures (exists steps :: Faithful(rules, sys, steps) && !Unassigned(Run(rules, sys, steps).db, b))
      <==> CanStillGo(sys, b)
  {
    hide Locatable, SysInv, Faithful, Blockers, Sent, Run;
    if CanStillGo(sys, b) {
      var steps := Goes(rules, sys, b);
    } else {
      forall steps | Faithful(rules, sys, steps) ensures Unassigned(Run(rules, sys, steps).db, b) {
        NeverGoes(rules, sys, steps, b);
      }
    }
  }

  lemma NeverGoes(rules: Rules, sys: System, steps: seq<Step>, b: Id)
    requires SysInv(sys) && Unassigned(sys.db, b) && !CanStillGo(sys, b) && Faithful(rules, sys, steps)
    ensures Unassigned(Run(rules, sys, steps).db, b)
  {
    hide Locatable, SysInv, Faithful, Blockers, Sent, Run;
    if !Locatable(sys.db, b) {
      StuckForever(rules, sys, steps, b);
    } else {
      StarvedForever(rules, sys, steps, b);
    }
  }

  // ---------------------------------------------------------------- delivery

  predicate Delivered(s: State, o: Id) {
    o in s.orders && s.orders[o].status == OrderStatus.Completed
  }

  /** Order `o` is in the closed batch `b`. */
  predicate InClosed(s: State, o: Id, b: Id) {
    o in s.orders && s.orders[o].batchId == Some(b) && Closed(s, b)
  }

  lemma StaysInClosed(rules: Rules, sys: System, steps: seq<Step>, o: Id, b: Id)
    requires SysInv(sys) && InClosed(sys.db, o, b)
    ensures SysInv(Run(rules, sys, steps)) && InClosed(Run(rules, sys, steps).db, o, b)
  {
    hide SysInv, Run;
    RunKeepsSysInv(rules, sys, steps);
    var s, s' := sys.db, Run(rules, sys, steps).db;
    assert OrderEvolves(s, s', o) && BatchEvolves(s, s', b);
  }

  /** When everybody is idle, the jobs that were given out are done. */
  lemma IdleMeansDelivered(s: State, o: Id, b: Id)
    requires Inv(s) && InClosed(s, o, b) && AllIdle(s) && !Unassigned(s, b)
    ensures Delivered(s, o)
  {
    assert BatchLinked(s, b) && OrderPhase(s, o);
    var j := JobFor(s.jobs, b);
    assert JobLinked(s, j) && OwnedOrder(s.orders[o], j, s.jobs[j]);
  }

  lemma UnassignedIsUndelivered(s: State, o: Id, b: Id)
    requires Inv(s) && InClosed(s, o, b) && Unassigned(s, b)
    ensures !Delivered(s, o)
  {
    assert OrderPhase(s, o);
    if HasJob(s.jobs, b) {
      var j := JobFor(s.jobs, b);
      assert JobLinked(s, j) && OwnedOrder(s.orders[o], j, s.jobs[j]);
    }
  }

  lemma GivenOutIsDelivered(rules: Rules, sys: System, o: Id, b: Id) returns (steps: seq<Step>)
    requires SysInv(sys) && InClosed(sys.db, o, b) && !Unassigned(sys.db, b)
    ensures Faithful(rules, sys, steps) && Delivered(Run(rules, sys, steps).db, o)
  {
    steps := FreeAll(rules, sys);
    hide Inv, Run, Unassigned, AllIdle, Narrows, Faithful;
    StaysInClosed(rules, sys, steps, o, b);
    IdleMeansDelivered(Run(rules, sys, steps).db, o, b);
  }

  lemma WaitingIsDelivered(rules: Rules, sys: System, o: Id, b: Id) returns (steps: seq<Step>)
    requires SysInv(sys) && InClosed(sys.db, o, b) && Unassigned(sys.db, b) && CanStillGo(sys, b)
    ensures Faithful(rules, sys, steps) && Delivered(Run(rules, sys, steps).db, o)
  {
    hide *;
    var first := Goes(rules, sys, b);
    StaysInClosed(rules, sys, first, o, b);
    var rest := GivenOutIsDelivered(rules, Run(rules, sys, first), o, b);
    Together(rules, sys, first, rest);
    steps := first + rest;
  }

  /**
   An order of a closed batch is delivered in some run of the services exactly when its batch has been given to
   a deliverer or can still go.
   */
  lemma DeliverableIff(rules: Rules, sys: System, o: Id, b: Id)
    requires SysInv(sys) && InClosed(sys.db, o, b)
    ensures (exists steps :: Faithful(rules, sys, steps) && Delivered(Run(rules, sys, steps).db, o))
      <==> !Unassigned(sys.db, b) || CanStillGo(sys, b)
  {
    hide SysInv, Faithful, Unassigned, Delivered, Run, Locatable, Blockers, Sent;
    if !Unassigned(sys.db, b) {
      var steps := GivenOutIsDelivered(rules, sys, o, b);
    } else if CanStillGo(sys, b) {
      var steps := WaitingIsDelivered(rules, sys, o, b);
    } else {
      forall steps | Faithful(rules, sys, steps) ensures !Delivered(Run(rules, sys, steps).db, o) {
        NeverDelivered(rules, sys, steps, o, b);
      }
    }
  }

  lemma NeverDelivered(rules: Rules, sys: System, steps: seq<Step>, o: Id, b: Id)
    requires SysInv(sys) && InClosed(sys.db, o, b) && Unassigned(sys.db, b) && !CanStillGo(sys, b)
    requires Faithful(rules, sys, steps)
    ensures !Delivered(Run(rules, sys, steps).db, o)
  {
    NeverGoes(rules, sys, steps, b);
    StaysInClosed(rules, sys, steps, o, b);
    hide Inv, Run, Unassigned, InClosed, Delivered, Faithful;
    UnassignedIsUndelivered(Run(rules, sys, steps).db, o, b);
  }

  // ---------------------------------------------------------------- a starving batch is reached

  /** An order is placed, marked ready alone, and its batch closed. */
  function Dispatched(o: Id, info: OrderInfo, at: int): seq<Step> {
    [Placed(o, info), Readied(o, info.vendorId, false, at, [], o), BatchClosed(o)]
  }

  /** The message of batch 1 is lost while nobody is there to take it; then the one deliverer comes online. */
  const NOBODY_IN_TIME: seq<Step> := [DelivererAdded(7), MessageLost(1), PresenceChanged(7, true)]

  function Starve(bad: OrderInfo, good: OrderInfo): seq<Step> {
    Dispatched(0, bad, 0) + (Dispatched(1, good, 1) + NOBODY_IN_TIME)
  }

  /** What a dispatched order leaves behind: one more closed batch, its message and nothing else that matters here. */
  ghost predicate Dispatches(sys: System, next: System, o: Id, info: OrderInfo, at: int) {
    var s, s' := sys.db, next.db;
    && s'.batches == s.batches[o := Batch(JobStatus.InProgress, None, at, [o])]
    && s'.queue == s.queue + multiset{o} && s'.deliverers == s.deliverers && s'.jobs == s.jobs
    && next.workers == sys.workers && next.present == sys.present && next.sweep == sys.sweep
    && o in s'.orders && s'.orders[o].info.vendor == info.vendor
    && (forall p :: p in s.orders ==> p in s'.orders && s'.orders[p] == s.orders[p])
    && (forall p :: p in s'.orders ==> p == o || p in s.orders)
  }

  lemma OrderDispatched(rules: Rules, sys: System, o: Id, info: OrderInfo, at: int)
    requires o !in sys.db.orders && OpenListing(sys.db, []) && FreshBatchId(sys.db, o)
    ensures Dispatches(sys, Run(rules, sys, Dispatched(o, info, at)), o, info, at)
    ensures OpenListing(Run(rules, sys, Dispatched(o, info, at)).db, [])
    ensures FreshBatchId(Run(rules, sys, Dispatched(o, info, at)).db, o + 1)
  {
    hide *;
    FoundsAlone(rules, sys.db, o, info, at);
    DispatchedSteps(rules, sys, o, info, at);
    var ready := MarkReady(rules, CreateOrder(sys.db, o, info), o, info.vendorId, false, at, [], o).state;
    ClosedAlone(sys, ready, o, info, at);
  }

  /** Order `o` founded its own batch, the only open one. */
  ghost predicate FoundedAlone(s: State, s': State, o: Id, info: OrderInfo, at: int) {
    && s'.batches == s.batches[o := Batch(JobStatus.Pending, None, at, [o])]
    && s'.queue == s.queue && s'.deliverers == s.deliverers && s'.jobs == s.jobs
    && o in s'.orders && s'.orders[o].info.vendor == info.vendor
    && (forall p :: p in s.orders ==> p in s'.orders && s'.orders[p] == s.orders[p])
    && (forall p :: p in s'.orders ==> p == o || p in s.orders)
    && (forall b :: !CanClose(s, b))
  }

  lemma ClosedAlone(sys: System, ready: State, o: Id, info: OrderInfo, at: int)
    requires FoundedAlone(sys.db, ready, o, info, at) && FreshBatchId(sys.db, o)
    ensures var next := sys.(db := CloseBatch(ready, o));
      Dispatches(sys, next, o, info, at) && OpenListing(next.db, []) && FreshBatchId(next.db, o + 1)
  {
    var closed := CloseBatch(ready, o);
    assert forall b :: CanClose(closed, b) ==> CanClose(sys.db, b);
    hide OpenListing;
    NoneOpen(closed);
  }

  lemma DispatchedSteps(rules: Rules, sys: System, o: Id, info: OrderInfo, at: int)
    requires o !in sys.db.orders && OpenListing(sys.db, []) && FreshBatchId(sys.db, o)
    ensures var ready := MarkReady(rules, CreateOrder(sys.db, o, info), o, info.vendorId, false, at, [], o).state;
      Run(rules, sys, Dispatched(o, info, at)) == sys.(db := CloseBatch(ready, o))
  {
    var steps := Dispatched(o, info, at);
    hide MarkReady, CloseBatch, Run;
    RunThree(rules, sys, steps[0], steps[1], steps[2]);
    var placed := CreateOrder(sys.db, o, info);
    assert OpenListing(placed, []) && FreshBatchId(placed, o);
    var ready := MarkReady(rules, placed, o, info.vendorId, false, at, [], o).state;
    assert Apply(rules, Apply(rules, sys, steps[0]), steps[1]) == sys.(db := ready);
  }

  lemma NoneOpen(s: State)
    requires forall b :: !CanClose(s, b)
    ensures OpenListing(s, [])
  {
    assert forall b :: b in s.batches && s.batches[b].status == JobStatus.Pending ==> CanClose(s, b);
  }

  lemma FoundsAlone(rules: Rules, s: State, o: Id, info: OrderInfo, at: int)
    requires o !in s.orders && OpenListing(s, [])
    ensures FoundedAlone(s, MarkReady(rules, CreateOrder(s, o, info), o, info.vendorId, false, at, [], o).state,
                         o, info, at)
  {
  }

  /** The listings of a batch of one order. */
  lemma LocatableAlone(s: State, b: Id, o: Id)
    requires b in s.batches && s.batches[b].orders == [o] && o in s.orders
    ensures Locatable(s, b) <==> HasPoint(s.orders[o].info.vendor)
  {
    if HasPoint(s.orders[o].info.vendor) {
      assert IsRoute(s.orders, [o], [o]) && Located(s, [o]);
    }
    forall route | IsRoute(s.orders, [o], route) ensures Located(s, route) ==> HasPoint(s.orders[o].info.vendor) {
      if route != [] { assert route[0] in route; }
    }
  }

  lemma BatchOneStarves(sys: System)
    requires sys.db.batches.Keys == {0, 1} && Stuck(sys.db, 0) && Unassigned(sys.db, 1)
    requires sys.db.batches[0].createdAt < sys.db.batches[1].createdAt
    requires sys.db.deliverers.Keys == {7} && 1 !in sys.db.queue && sys.workers == map[]
    ensures Starved(sys, 1)
  {
    hide Locatable;
    assert Blockers(sys.db, 1) == {0};
    assert |sys.db.deliverers| == |sys.db.deliverers.Keys| == 1;
  }

  /**
   A run ends with a batch that cannot be located and a newer one that can, whose message is lost, and with an
   idle deliverer who is present: and no run of the services ever assigns the newer one.
   */
  lemma StarvationIsReachable(rules: Rules, bad: OrderInfo, good: OrderInfo)
    requires !HasPoint(bad.vendor) && HasPoint(good.vendor)
    ensures var sys := Run(rules, INITIAL, Starve(bad, good));
      && Stuck(sys.db, 0) && Unassigned(sys.db, 1) && Locatable(sys.db, 1) && Listed(sys, 7)
      && forall steps :: Faithful(rules, sys, steps) ==> Unassigned(Run(rules, sys, steps).db, 1)
  {
    var sys := Run(rules, INITIAL, Starve(bad, good));
    EndOfStarve(rules, bad, good);
    InitialHolds();
    RunKeepsSysInv(rules, INITIAL, Starve(bad, good));
    hide *;
    forall steps | Faithful(rules, sys, steps) ensures Unassigned(Run(rules, sys, steps).db, 1) {
      StaysUnassigned(rules, sys, steps, 1);
    }
  }

  lemma StaysUnassigned(rules: Rules, sys: System, steps: seq<Step>, b: Id)
    requires SysInv(sys) && Starved(sys, b) && Faithful(rules, sys, steps)
    ensures Unassigned(Run(rules, sys, steps).db, b)
  {
    StarvedForever(rules, sys, steps, b);
  }

  lemma EndOfStarve(rules: Rules, bad: OrderInfo, good: OrderInfo)
    requires !HasPoint(bad.vendor) && HasPoint(good.vendor)
    ensures var sys := Run(rules, INITIAL, Starve(bad, good));
      && Stuck(sys.db, 0) && Unassigned(sys.db, 1) && Locatable(sys.db, 1) && Listed(sys, 7) && Starved(sys, 1)
  {
    var one := Run(rules, INITIAL, Dispatched(0, bad, 0));
    OrderDispatched(rules, INITIAL, 0, bad, 0);
    hide Run, Apply, Starved, Stuck, Locatable;
    var two := Run(rules, one, Dispatched(1, good, 1));
    OrderDispatched(rules, one, 1, good, 1);
    RunConcat(rules, one, Dispatched(1, good, 1), NOBODY_IN_TIME);
    RunConcat(rules, INITIAL, Dispatched(0, bad, 0), Dispatched(1, good, 1) + NOBODY_IN_TIME);
    NobodyInTime(rules, two);
    TwoDispatched(one, two, bad, good);
  }

  lemma NobodyInTime(rules: Rules, sys: System)
    requires 7 !in sys.db.deliverers
    ensures Run(rules, sys, NOBODY_IN_TIME) == AfterNobody(sys)
  {
    RunThree(rules, sys, NOBODY_IN_TIME[0], NOBODY_IN_TIME[1], NOBODY_IN_TIME[2]);
  }

  function AfterNobody(sys: System): System {
    sys.(db := sys.db.(deliverers := sys.db.deliverers[7 := Deliverer(true, None)],
                       queue := sys.db.queue - multiset{1}),
         present := sys.present + {7})
  }

  lemma TwoDispatched(one: System, two: System, bad: OrderInfo, good: OrderInfo)
    requires Dispatches(INITIAL, one, 0, bad, 0) && Dispatches(one, two, 1, good, 1)
    requires !HasPoint(bad.vendor) && HasPoint(good.vendor)
    ensures var end := AfterNobody(two);
      && Stuck(end.db, 0) && Unassigned(end.db, 1) && Locatable(end.db, 1) && Listed(end, 7) && Starved(end, 1)
  {
    var end := AfterNobody(two);
    LocatableAlone(end.db, 0, 0);
    LocatableAlone(end.db, 1, 1);
    hide Locatable, Starved;
    BatchOneStarves(end);
  }
}
