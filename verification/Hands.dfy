/** Who has free hands: taking a job makes a deliverer unavailable, losing or finishing it makes him available again. */
module Hands {
  import opened Types
  import opened Batching
  import opened Transactions
  import opened Invariant
  import opened Evolution
  import opened Dispatch
  import opened Guarantees

  // ---------------------------------------------------------------- while nobody touches his profile

  /** A deliverer is available exactly while he has no job. */
  ghost predicate AvailableIffFree(s: State) {
    forall d :: d in s.deliverers ==> (s.deliverers[d].availability <==> s.deliverers[d].activeJobId.None?)
  }

  lemma AssignKeepsHands(s: State, snap: Snapshot, newJob: Id, base: Id)
    requires AvailableIffFree(s)
    ensures AvailableIffFree(Assign(s, snap.batchId, snap.route, snap.delivererId, newJob, base).state)
  {
    hide RebuildStops, AssignOrders, UpsertTarget;
  }

  lemma RecoverKeepsHands(s: State, e: Entry)
    requires AvailableIffFree(s)
    ensures AvailableIffFree(RecoverEntry(s, e))
  {
    hide ReleaseOrders;
  }

  lemma StopKeepsHands(s: State, j: Id, k: Id, d: Id)
    requires AvailableIffFree(s)
    ensures AvailableIffFree(CompleteStop(s, j, k, d).state)
  {
    hide Unfinished, SetOrdersOfJob;
  }

  lemma ReadyKeepsHands(
    rules: Rules, s: State, o: Id, vendor: Id, hasFood: bool, now: int, open: seq<Id>, newBatch: Id)
    ensures MarkReady(rules, s, o, vendor, hasFood, now, open, newBatch).state.deliverers == s.deliverers
  {
    hide FirstEligible, Infos, ShouldClose;
  }

  lemma DirectKeepsHands(rules: Rules, s: State, step: Step)
    requires AvailableIffFree(s) && !step.AvailabilitySet?
    ensures AvailableIffFree(Direct(rules, s, step))
  {
    hide CompleteStop, MarkReady, OpenListing, FreshBatchId;
    match step
    case StopCompleted(j, k, d) => StopKeepsHands(s, j, k, d);
    case Readied(o, vendor, hasFood, now, open, newBatch) =>
      ReadyKeepsHands(rules, s, o, vendor, hasFood, now, open, newBatch);
    case _ =>
  }

  lemma StepKeepsHands(rules: Rules, sys: System, step: Step)
    requires AvailableIffFree(sys.db) && !step.AvailabilitySet?
    ensures AvailableIffFree(Apply(rules, sys, step).db)
  {
    hide Direct, RecoverEntry, Assign, AvailableIffFree, IsRoute;
    match step
    case AssignmentCommitted(w, newJob, base) =>
      if w in sys.workers { AssignKeepsHands(sys.db, sys.workers[w], newJob, base); }
    case SweepAdvanced => if sys.sweep != [] { RecoverKeepsHands(sys.db, sys.sweep[0]); }
    case SnapshotTaken(_, _, _, _) =>
    case PresenceChanged(_, _) =>
    case SweepBegun(_) =>
    case _ => DirectKeepsHands(rules, sys.db, step);
  }

  lemma {:induction false} RunKeepsHands(rules: Rules, sys: System, steps: seq<Step>)
    requires AvailableIffFree(sys.db) && forall step :: step in steps ==> !step.AvailabilitySet?
    ensures AvailableIffFree(Run(rules, sys, steps).db)
    decreases |steps|
  {
    hide Apply, AvailableIffFree;
    if steps != [] {
      assert steps[0] in steps;
      StepKeepsHands(rules, sys, steps[0]);
      RunKeepsHands(rules, Apply(rules, sys, steps[0]), steps[1..]);
    }
  }

  /**
   In every run in which no profile is edited, a deliverer is available exactly while he has no active job:
   through assignments, starts, last stops and recoveries in any order.
   */
  lemma AvailableExactlyWhenFree(rules: Rules, steps: seq<Step>, d: Id)
    requires forall step :: step in steps ==> !step.AvailabilitySet?
    requires d in Run(rules, INITIAL, steps).db.deliverers
    ensures var row := Run(rules, INITIAL, steps).db.deliverers[d];
      row.availability == true <==> row.activeJobId == None
  {
    RunKeepsHands(rules, INITIAL, steps);
  }

  // ---------------------------------------------------------------- whatever the profiles said before

  /** The recovery of the entry that the sweeper is at goes through. */
  predicate AboutToRecover(sys: System) {
    sys.sweep != [] && sys.sweep[0].seen == JobStatus.Assigned
    && Recover(sys.db, sys.sweep[0].delivererId, sys.sweep[0].jobId).outcome == Committed
  }

  /**
   The recovered deliverer has free hands at once, his batch waits again and is handed to assignment, and no
   other deliverer is touched.
   */
  lemma RecoveredIsIdle(rules: Rules, sys: System)
    requires Reachable(rules, sys) && AboutToRecover(sys)
    ensures var e, next := sys.sweep[0], Apply(rules, sys, SweepAdvanced);
      && e.jobId in sys.db.jobs && e.delivererId in next.db.deliverers
      && next.db.deliverers[e.delivererId].availability == true
      && next.db.deliverers[e.delivererId].activeJobId == None
      && (e.delivererId in sys.present ==> Listed(next, e.delivererId))
      && Unassigned(next.db, sys.db.jobs[e.jobId].batchId)
      && next.db.queue == sys.db.queue + multiset{sys.db.jobs[e.jobId].batchId}
      && (forall d :: d in sys.db.deliverers && d != e.delivererId ==>
            d in next.db.deliverers && next.db.deliverers[d] == sys.db.deliverers[d])
  {
    ReachableHolds(rules, sys);
    hide Reachable, ReleaseOrders;
  }

  /** So the very next commit for that batch may be his. */
  lemma RecoveredMayCarryAgain(rules: Rules, sys: System, w: Id, route: seq<Id>, newJob: Id, base: Id)
    requires Reachable(rules, sys) && AboutToRecover(sys) && sys.sweep[0].delivererId in sys.present
    requires var s' := Apply(rules, sys, SweepAdvanced).db;
      && sys.sweep[0].jobId in s'.jobs && s'.jobs[sys.sweep[0].jobId].batchId in s'.batches
      && IsRoute(s'.orders, s'.batches[s'.jobs[sys.sweep[0].jobId].batchId].orders, route) && Located(s', route)
      && newJob !in s'.jobs && FreshStopIds(s', base)
    ensures var d, j := sys.sweep[0].delivererId, sys.sweep[0].jobId;
            var b := sys.db.jobs[j].batchId;
            var steps := [SweepAdvanced, SnapshotTaken(w, b, route, d), AssignmentCommitted(w, newJob, base)];
            var s' := Run(rules, sys, steps).db;
      && b in s'.batches && s'.batches[b].delivererId == Some(d)
      && d in s'.deliverers && s'.deliverers[d].activeJobId == Some(j) && s'.deliverers[d].availability == false
      && j in s'.jobs && s'.jobs[j].status == JobStatus.Assigned && s'.jobs[j].delivererId == Some(d)
  {
    var d, j := sys.sweep[0].delivererId, sys.sweep[0].jobId;
    var b := sys.db.jobs[j].batchId;
    RecoveredIsIdle(rules, sys);
    KeepsItsJobRow(rules, sys);
    var next := Apply(rules, sys, SweepAdvanced);
    RunThree(rules, sys, SweepAdvanced, SnapshotTaken(w, b, route, d), AssignmentCommitted(w, newJob, base));
    hide Apply, Reachable, Run, AboutToRecover, IsRoute;
    TakesAndCommits(rules, next, w, b, route, d, newJob, base);
    ClaimedRows(next.db, b, route, d, newJob, base, j);
  }

  /** The recovered job keeps its row and its batch. */
  lemma KeepsItsJobRow(rules: Rules, sys: System)
    requires Reachable(rules, sys) && AboutToRecover(sys)
    ensures var s', j := Apply(rules, sys, SweepAdvanced).db, sys.sweep[0].jobId;
      j in sys.db.jobs && j in s'.jobs && s'.jobs[j].batchId == sys.db.jobs[j].batchId && UniqueBatch(s'.jobs)
  {
    ReachableHolds(rules, sys);
    StepKeepsSysInv(rules, sys, SweepAdvanced);
    InvParts(Apply(rules, sys, SweepAdvanced).db);
    hide Reachable, ReleaseOrders, Inv, Links, Statuses, Stops;
  }

  lemma TakesAndCommits(
    rules: Rules, sys: System, w: Id, b: Id, route: seq<Id>, d: Id, newJob: Id, base: Id)
    requires Unassigned(sys.db, b) && b in sys.db.queue && Listed(sys, d)
    requires IsRoute(sys.db.orders, sys.db.batches[b].orders, route) && Located(sys.db, route)
    requires newJob !in sys.db.jobs && FreshStopIds(sys.db, base)
    ensures Apply(rules, Apply(rules, sys, SnapshotTaken(w, b, route, d)), AssignmentCommitted(w, newJob, base)).db
      == Assign(sys.db, b, route, d, newJob, base).state
  {
    hide Assign, IsRoute;
  }

  lemma ClaimedRows(s: State, b: Id, route: seq<Id>, d: Id, newJob: Id, base: Id, j: Id)
    requires Unassigned(s, b) && Idle(s, d) && UniqueBatch(s.jobs) && j in s.jobs && s.jobs[j].batchId == b
    ensures var s' := Assign(s, b, route, d, newJob, base).state;
      && b in s'.batches && s'.batches[b].delivererId == Some(d)
      && d in s'.deliverers && s'.deliverers[d].activeJobId == Some(j) && s'.deliverers[d].availability == false
      && j in s'.jobs && s'.jobs[j].status == JobStatus.Assigned && s'.jobs[j].delivererId == Some(d)
  {
    assert HasJob(s.jobs, b);
    hide RebuildStops, AssignOrders;
  }

  /** What a completed stop does to the rows of the deliverers. */
  lemma StopFrees(s: State, j: Id, k: Id, d: Id)
    requires CompleteStop(s, j, k, d).outcome == Committed && d in s.deliverers
    ensures var r := CompleteStop(s, j, k, d);
      && j in s.jobs && s.jobs[j].status == JobStatus.InProgress && s.jobs[j].delivererId == Some(d)
      && j in r.state.jobs && d in r.state.deliverers
      && (r.jobCompleted <==> r.state.jobs[j].status == JobStatus.Completed)
      && (r.jobCompleted ==>
            r.state.deliverers[d].availability == true && r.state.deliverers[d].activeJobId == None)
      && (!r.jobCompleted ==> r.state.deliverers == s.deliverers)
      && (forall c :: c in s.deliverers && c != d ==>
            c in r.state.deliverers && r.state.deliverers[c] == s.deliverers[c])
  {
    hide SetOrdersOfJob, Unfinished;
  }

  lemma BusyWithIt(s: State, j: Id, d: Id)
    requires Inv(s) && j in s.jobs && s.jobs[j].status == JobStatus.InProgress && s.jobs[j].delivererId == Some(d)
    ensures d in s.deliverers && s.deliverers[d].activeJobId == Some(j)
  {
    assert JobLinked(s, j);
  }

  /** The last stop frees its deliverer, and only him; an earlier one frees nobody. */
  lemma LastStopFrees(rules: Rules, sys: System, j: Id, k: Id, d: Id)
    requires Reachable(rules, sys) && CompleteStop(sys.db, j, k, d).outcome == Committed
    ensures var r := CompleteStop(sys.db, j, k, d);
      && j in r.state.jobs && d in sys.db.deliverers && d in r.state.deliverers
      && (r.jobCompleted <==> r.state.jobs[j].status == JobStatus.Completed)
      && (r.jobCompleted ==>
            && r.state.deliverers[d].availability == true && r.state.deliverers[d].activeJobId == None
            && (d in sys.present ==> Listed(Apply(rules, sys, StopCompleted(j, k, d)), d)))
      && (!r.jobCompleted ==>
            r.state.deliverers == sys.db.deliverers && sys.db.deliverers[d].activeJobId == Some(j))
      && (forall c :: c in sys.db.deliverers && c != d ==>
            c in r.state.deliverers && r.state.deliverers[c] == sys.db.deliverers[c])
  {
    var r := CompleteStop(sys.db, j, k, d);
    ReachableIsInv(rules, sys);
    hide *;
    CanBeCompleted(sys.db, j, k, d);
    BusyWithIt(sys.db, j, d);
    StopFrees(sys.db, j, k, d);
    StopApplied(rules, sys, j, k, d);
    ListedNow(sys.(db := r.state), d);
  }

  lemma ReachableIsInv(rules: Rules, sys: System)
    requires Reachable(rules, sys)
    ensures Inv(sys.db)
  {
    ReachableHolds(rules, sys);
  }

  lemma StopApplied(rules: Rules, sys: System, j: Id, k: Id, d: Id)
    ensures Apply(rules, sys, StopCompleted(j, k, d)) == sys.(db := CompleteStop(sys.db, j, k, d).state)
  {
    hide CompleteStop;
  }

  lemma ListedNow(sys: System, d: Id)
    ensures d in sys.present && d in sys.db.deliverers && sys.db.deliverers[d] == Deliverer(true, None) ==>
      Listed(sys, d)
  {
  }

  lemma CanBeCompleted(s: State, j: Id, k: Id, d: Id)
    requires CompleteStop(s, j, k, d).outcome == Committed
    ensures j in s.jobs && s.jobs[j].status == JobStatus.InProgress && s.jobs[j].delivererId == Some(d)
  {
    hide Unfinished;
  }

  // ---------------------------------------------------------------- what a worker may have read

  /**
   A worker's list comes about in one way: for a batch with a message and without a deliverer, from an order
   whose shop has both coordinates on, and for a deliverer who is online, available and without a job.
   */
  lemma ReadsAreSound(rules: Rules, sys: System, step: Step, w: Id)
    requires var next := Apply(rules, sys, step);
      w in next.workers && (w !in sys.workers || next.workers[w] != sys.workers[w])
    ensures var s, snap := sys.db, Apply(rules, sys, step).workers[w];
      && snap.delivererId in sys.present && snap.delivererId in s.deliverers
      && s.deliverers[snap.delivererId].availability == true && s.deliverers[snap.delivererId].activeJobId == None
      && snap.batchId in s.queue && snap.batchId in s.batches && s.batches[snap.batchId].delivererId == None
      && |snap.route| == |s.batches[snap.batchId].orders| && snap.route != [] && snap.route[0] in s.orders
      && s.orders[snap.route[0]].info.vendor.lat.Some? && s.orders[snap.route[0]].info.vendor.lng.Some?
  {
    hide Direct, RecoverEntry, Assign;
  }
}
