/** Where the stops are: whatever was recovered and assigned again, a courier is sent to the customer of each order. */
module DropOffs {
  import opened Types
  import opened Batching
  import opened Transactions
  import opened Invariant
  import opened OrderSteps
  import opened Evolution
  import opened Dispatch
  import opened Guarantees

  predicate InUse(s: State, k: Id) {
    k in s.stops && s.stops[k].jobId in s.jobs && s.jobs[s.stops[k].jobId].status != JobStatus.Pending
  }

  /** The stop has the coordinates of the customer of its order, as the order's row has them. */
  predicate AtCustomer(s: State, k: Id)
    requires k in s.stops
  {
    s.stops[k].orderId in s.orders && s.stops[k].at == s.orders[s.stops[k].orderId].info.customer
  }

  ghost predicate AllAtCustomers(s: State) {
    forall k :: InUse(s, k) ==> AtCustomer(s, k)
  }

  /** Every stop in use was in use before, for the same order and in the same place. */
  ghost predicate NoNewStop(s: State, s': State) {
    forall k :: InUse(s', k) ==>
      InUse(s, k) && s'.stops[k].orderId == s.stops[k].orderId && s'.stops[k].at == s.stops[k].at
  }

  /** The order of a stop in use is in a batch, so its row keeps the customer. */
  lemma CustomerStays(s: State, s': State, k: Id)
    requires Inv(s) && Evolves(s, s') && InUse(s, k)
    ensures s.stops[k].orderId in s.orders && s.stops[k].orderId in s'.orders
    ensures s'.orders[s.stops[k].orderId].info == s.orders[s.stops[k].orderId].info
  {
    StopMember(s, k);
    assert OrderEvolves(s, s', s.stops[k].orderId);
  }

  lemma PlacesStay(s: State, s': State)
    requires Inv(s) && Evolves(s, s') && NoNewStop(s, s') && AllAtCustomers(s)
    ensures AllAtCustomers(s')
  {
    hide Inv, Evolves;
    forall k | InUse(s', k) ensures AtCustomer(s', k) {
      CustomerStays(s, s', k);
      assert AtCustomer(s, k);
    }
  }

  lemma StopIsNoNewStop(s: State, j: Id, k: Id, d: Id)
    ensures NoNewStop(s, CompleteStop(s, j, k, d).state)
  {
    hide Unfinished;
  }

  lemma ReadyIsNoNewStop(
    rules: Rules, s: State, o: Id, vendor: Id, hasFood: bool, now: int, open: seq<Id>, newBatch: Id)
    ensures NoNewStop(s, MarkReady(rules, s, o, vendor, hasFood, now, open, newBatch).state)
  {
    hide FirstEligible, Infos, ShouldClose;
  }

  lemma DirectIsNoNewStop(rules: Rules, s: State, step: Step)
    ensures NoNewStop(s, Direct(rules, s, step))
  {
    hide CompleteStop, MarkReady, OpenListing, FreshBatchId;
    match step
    case StopCompleted(j, k, d) => StopIsNoNewStop(s, j, k, d);
    case Readied(o, vendor, hasFood, now, open, newBatch) =>
      ReadyIsNoNewStop(rules, s, o, vendor, hasFood, now, open, newBatch);
    case _ =>
  }

  lemma RecoverIsNoNewStop(s: State, e: Entry)
    ensures NoNewStop(s, RecoverEntry(s, e))
  {
  }

  /** The stops of an assignment are at the customers, and the other jobs' stops are left alone. */
  lemma AssignIsAtCustomers(s: State, snap: Snapshot, newJob: Id, base: Id)
    requires Inv(s) && SnapshotHolds(s, snap) && newJob !in s.jobs && AllAtCustomers(s)
    ensures AllAtCustomers(Assign(s, snap.batchId, snap.route, snap.delivererId, newJob, base).state)
  {
    assert BatchRef(s, snap.batchId);
    assert forall i :: 0 <= i < |snap.route| ==> snap.route[i] in snap.route;
    hide Inv, AllAtCustomers, Assign, AssignTo, IsRoute;
    var d, j := snap.delivererId, UpsertTarget(s.jobs, snap.batchId, newJob);
    if Unassigned(s, snap.batchId) && Idle(s, d) {
      NewStopsAreAtCustomers(s, snap.batchId, snap.route, d, j, base);
    }
    AssignedState(s, snap.batchId, snap.route, d, newJob, base);
  }

  lemma AssignedState(s: State, b: Id, route: seq<Id>, d: Id, newJob: Id, base: Id)
    ensures Assign(s, b, route, d, newJob, base).state
      == if Unassigned(s, b) && Idle(s, d)
         then AssignTo(s, b, route, d, UpsertTarget(s.jobs, b, newJob), base) else s
  {
  }

  lemma NewStopsAreAtCustomers(s: State, b: Id, route: seq<Id>, d: Id, j: Id, base: Id)
    requires b in s.batches && AllAtCustomers(s) && forall i :: 0 <= i < |route| ==> route[i] in s.orders
    ensures AllAtCustomers(AssignTo(s, b, route, d, j, base))
  {
    var s' := AssignTo(s, b, route, d, j, base);
    forall k | InUse(s', k) ensures AtCustomer(s', k) {
      if InUse(s, k) { assert AtCustomer(s, k); }
    }
  }

  lemma StepKeepsPlaces(rules: Rules, sys: System, step: Step)
    requires SysInv(sys) && AllAtCustomers(sys.db)
    ensures AllAtCustomers(Apply(rules, sys, step).db)
  {
    hide Inv, Evolves, Direct, RecoverEntry, Assign, AllAtCustomers, NoNewStop, SnapshotHolds, EntryHolds, IsRoute;
    var s, s' := sys.db, Apply(rules, sys, step).db;
    StepKeepsSysInv(rules, sys, step);
    match step
    case SnapshotTaken(_, _, _, _) =>
    case PresenceChanged(_, _) =>
    case SweepBegun(_) =>
    case AssignmentCommitted(w, newJob, base) =>
      if w in sys.workers && newJob !in s.jobs { AssignIsAtCustomers(s, sys.workers[w], newJob, base); }
    case SweepAdvanced =>
      if sys.sweep != [] && sys.sweep[0].seen == JobStatus.Assigned {
        RecoverIsNoNewStop(s, sys.sweep[0]);
        PlacesStay(s, s');
      }
    case _ =>
      DirectIsNoNewStop(rules, s, step);
      PlacesStay(s, s');
  }

  lemma {:induction false} RunKeepsPlaces(rules: Rules, sys: System, steps: seq<Step>)
    requires SysInv(sys) && AllAtCustomers(sys.db)
    ensures AllAtCustomers(Run(rules, sys, steps).db)
    decreases |steps|
  {
    hide SysInv, AllAtCustomers, Apply;
    if steps != [] {
      StepKeepsSysInv(rules, sys, steps[0]);
      StepKeepsPlaces(rules, sys, steps[0]);
      RunKeepsPlaces(rules, Apply(rules, sys, steps[0]), steps[1..]);
    }
  }

  /**
   In every reachable state a stop of a job in use has the coordinates of the customer of its own order: however
   old the list it was made from, and however often the batch was recovered and assigned again.
   */
  lemma StopsAreAtCustomers(rules: Rules, sys: System, k: Id)
    requires Reachable(rules, sys)
    requires k in sys.db.stops && sys.db.stops[k].jobId in sys.db.jobs
    requires sys.db.jobs[sys.db.stops[k].jobId].status != JobStatus.Pending
    ensures sys.db.stops[k].orderId in sys.db.orders
    ensures sys.db.stops[k].at == sys.db.orders[sys.db.stops[k].orderId].info.customer
  {
    var steps :| sys == Run(rules, INITIAL, steps);
    InitialHolds();
    RunKeepsPlaces(rules, INITIAL, steps);
    assert InUse(sys.db, k);
  }
}
