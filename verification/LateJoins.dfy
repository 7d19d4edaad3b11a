/**
 What becomes of an order whose mark-ready commits into a batch that has been closed under its feet: a matter
 of when the join lands, measured against the worker's read of the batch and its commit.
 */
module LateJoins {
  import opened Types
  import opened Batching
  import opened Transactions
  import opened Invariant
  import opened Evolution
  import opened OrderSteps
  import opened BatchRuns
  import opened Dispatch
  import R = ReadyLocking
  import G = Guarantees
  import D = Delivery

  /** The commit of a call that chose batch `b` when it was still open, on the store as it is by then. */
  function Join(s: State, c: R.Call, b: Id): State {
    R.View(s, R.PlaceWrites(c, Some(b), 0))
  }

  lemma JoinWrites(s: State, c: R.Call, b: Id)
    requires c.o in s.orders && b in s.batches
    ensures var row := s.orders[c.o];
      Join(s, c, b) == s.(
        batches := s.batches[b := s.batches[b].(orders := s.batches[b].orders + [c.o])],
        orders := s.orders[c.o := row.(
          status := ReadyForDelivery, info := row.info.(orderType := if c.hasFood then Food else Grocery),
          readyAt := Some(c.now), batchId := Some(b))],
        log := s.log + [OrderEvent(c.o, OrderReady)])
  {
    R.ViewThree(s, R.ClaimOf(c), R.JoinWrite(c.o, b), R.EventWrite(c.o));
  }

  // ---------------------------------------------------------------- when the join lands

  /** The order has a stop of job `j`. */
  ghost predicate HasStop(s: State, o: Id, j: Id) {
    exists k :: k in s.stops && s.stops[k].jobId == j && s.stops[k].orderId == o
  }

  /**
   An order is claimed for a closed batch that waits for a deliverer. It gets the job exactly when the join
   lands before the assignment commits, and a stop exactly when it lands before the worker reads.
   */
  lemma JoinTiming(
    s: State, c: R.Call, b: Id, before: seq<Id>, after: seq<Id>, d: Id, newJob: Id, base: Id)
    requires Inv(s) && R.CanClaim(s, c) && Unassigned(s, b) && Idle(s, d) && FreshStopIds(s, base)
    requires IsRoute(s.orders, s.batches[b].orders, before)
    requires b in Join(s, c, b).batches && IsRoute(Join(s, c, b).orders, Join(s, c, b).batches[b].orders, after)
    ensures var j, o := UpsertTarget(s.jobs, b, newJob), c.o;
            var first := Assign(Join(s, c, b), b, after, d, newJob, base);
            var between := Assign(Join(s, c, b), b, before, d, newJob, base);
            var last := Join(Assign(s, b, before, d, newJob, base).state, c, b);
      && first.outcome == Committed && o in first.state.orders
      && first.state.orders[o].jobId == Some(j) && HasStop(first.state, o, j)
      && between.outcome == Committed && o in between.state.orders
      && between.state.orders[o].jobId == Some(j) && !HasStop(between.state, o, j)
      && o in last.orders && last.orders[o].batchId == Some(b)
      && last.orders[o].jobId.None? && !HasStop(last, o, j)
  {
    hide HasJob;
    var j, o := UpsertTarget(s.jobs, b, newJob), c.o;
    JoinWrites(s, c, b);
    ClaimedIsUnbatched(s, c);
    StopsOfAssignment(Join(s, c, b), b, after, d, newJob, base, o);
    StopsOfAssignment(Join(s, c, b), b, before, d, newJob, base, o);
    StopsOfAssignment(s, b, before, d, newJob, base, o);
    JoinWrites(Assign(s, b, before, d, newJob, base).state, c, b);
    hide Inv, IsRoute, RebuildStops, R.CanClaim;
  }

  /** A readyable order is in no batch. */
  lemma ClaimedIsUnbatched(s: State, c: R.Call)
    requires Inv(s) && R.CanClaim(s, c)
    ensures s.orders[c.o].batchId.None? && s.orders[c.o].jobId.None?
    ensures forall b :: b in s.batches ==> c.o !in s.batches[b].orders
  {
    assert OrderPhase(s, c.o);
    forall b | b in s.batches ensures c.o !in s.batches[b].orders {
      assert BatchRef(s, b);
    }
  }

  /** An assignment gives exactly the orders of the worker's list a stop. */
  lemma StopsOfAssignment(s: State, b: Id, route: seq<Id>, d: Id, newJob: Id, base: Id, o: Id)
    requires Unassigned(s, b) && Idle(s, d) && FreshStopIds(s, base)
    ensures HasStop(Assign(s, b, route, d, newJob, base).state, o, UpsertTarget(s.jobs, b, newJob)) <==> o in route
  {
    var j := UpsertTarget(s.jobs, b, newJob);
    var stops := RebuildStops(s, j, route, base);
    if o in route {
      var i: nat :| i < |route| && route[i] == o;
      assert base + i in stops && stops[base + i].jobId == j && stops[base + i].orderId == o;
    }
  }

  /** A recovery before the start undoes the harm: the next worker reads the order with the batch. */
  lemma RecoveryHeals(s: State, d: Id, j: Id, o: Id, route: seq<Id>, d': Id, newJob: Id, base: Id)
    requires UniqueBatch(s.jobs) && Recover(s, d, j).outcome == Committed && FreshStopIds(s, base)
    requires o in s.batches[s.jobs[j].batchId].orders && o in s.orders && s.orders[o].batchId == Some(s.jobs[j].batchId)
    requires var t := Recover(s, d, j).state;
      Idle(t, d') && IsRoute(t.orders, t.batches[s.jobs[j].batchId].orders, route)
    ensures var t, b := Recover(s, d, j).state, s.jobs[j].batchId;
            var again := Assign(t, b, route, d', newJob, base);
      && again.outcome == Committed && o in again.state.orders
      && again.state.orders[o].jobId == Some(j) && HasStop(again.state, o, j)
  {
    var t, b := Recover(s, d, j).state, s.jobs[j].batchId;
    assert j in t.jobs && t.jobs[j].batchId == b && HasJob(t.jobs, b);
    hide RebuildStops;
    StopsOfAssignment(t, b, route, d', newJob, base, o);
  }

  // ---------------------------------------------------------------- once the job is started

  /** Of all lists of orders only that of batch `b` has `o`, and no stop of a job in use serves it. */
  ghost predicate Apart(s: State, o: Id, b: Id) {
    && UniqueBatch(s.jobs)
    && (forall k :: k in s.stops && s.stops[k].orderId == o ==>
          s.stops[k].jobId in s.jobs && s.jobs[s.stops[k].jobId].status == JobStatus.Pending)
    && (forall c :: c in s.batches && o in s.batches[c].orders ==> c == b)
  }

  /** The order has the job and shares its fate, or has none and is still READY. */
  predicate Stranded(row: Order, j: Id, job: Job) {
    if row.jobId.None? then row.status == ReadyForDelivery
    else
      && row.jobId == Some(j) && !PreReady(row.status)
      && (job.status == JobStatus.Completed ==> row.status == OrderStatus.Completed)
  }

  /** Order `o` is in batch `b`, whose job `j` was started without a stop for it. */
  ghost predicate LeftBehind(s: State, o: Id, b: Id, j: Id) {
    && Apart(s, o, b)
    && b in s.batches && s.batches[b].status != JobStatus.Pending && s.batches[b].delivererId.Some?
    && j in s.jobs && s.jobs[j].batchId == b && Started(s.jobs[j])
    && o in s.orders && s.orders[o].batchId == Some(b) && Stranded(s.orders[o], j, s.jobs[j])
  }

  /** No worker that has read another batch has the order on its list. */
  ghost predicate UnreadElsewhere(sys: System, o: Id, b: Id) {
    forall w :: w in sys.workers && o in sys.workers[w].route ==> sys.workers[w].batchId == b
  }

  /** What a step must leave alone. */
  ghost predicate Keeps(s: State, s': State, o: Id, b: Id, j: Id) {
    LeftBehind(s, o, b, j) ==> LeftBehind(s', o, b, j) && s'.orders[o].jobId == s.orders[o].jobId
  }

  lemma AssignKeepsLeft(s: State, snap: Snapshot, newJob: Id, base: Id, o: Id, b: Id, j: Id)
    requires newJob !in s.jobs && FreshStopIds(s, base) && (o in snap.route ==> snap.batchId == b)
    ensures Keeps(s, Assign(s, snap.batchId, snap.route, snap.delivererId, newJob, base).state, o, b, j)
  {
  }

  lemma RecoverKeepsLeft(s: State, e: Entry, o: Id, b: Id, j: Id)
    ensures Keeps(s, RecoverEntry(s, e), o, b, j)
  {
  }

  lemma StartKeepsLeft(s: State, i: Id, d: Id, o: Id, b: Id, j: Id)
    ensures Keeps(s, StartJob(s, i, d).state, o, b, j)
  {
  }

  lemma StopKeepsLeft(s: State, i: Id, k: Id, d: Id, o: Id, b: Id, j: Id)
    ensures Keeps(s, CompleteStop(s, i, k, d).state, o, b, j)
  {
    hide LeftBehind, Unfinished, StopDone, FinishJob;
    if CanCompleteStop(s, i, k, d) {
      DoneKeepsLeft(s, k, o, b, j);
      if CanFinish(StopDone(s, k), i, d) { FinishKeepsLeft(StopDone(s, k), i, d, o, b, j); }
    }
  }

  lemma DoneKeepsLeft(s: State, k: Id, o: Id, b: Id, j: Id)
    requires k in s.stops && (s.stops[k].jobId in s.jobs ==> s.jobs[s.stops[k].jobId].status != JobStatus.Pending)
    ensures Keeps(s, StopDone(s, k), o, b, j)
  {
  }

  lemma FinishKeepsLeft(s: State, i: Id, d: Id, o: Id, b: Id, j: Id)
    requires CanFinish(s, i, d)
    ensures Keeps(s, FinishJob(s, i, d), o, b, j)
  {
  }

  lemma ReadyKeepsLeft(
    rules: Rules, s: State, p: Id, vendor: Id, hasFood: bool, now: int, open: seq<Id>, newBatch: Id,
    o: Id, b: Id, j: Id)
    requires OpenListing(s, open) && FreshBatchId(s, newBatch)
    ensures Keeps(s, MarkReady(rules, s, p, vendor, hasFood, now, open, newBatch).state, o, b, j)
  {
    if LeftBehind(s, o, b, j) && p in s.orders && Readyable(s.orders[p].status) {
      var claimed := ClaimReady(s, p, hasFood, now);
      assert Apart(claimed, o, b) && LeftBehind(claimed, o, b, j);
      PlaceKeepsLeft(rules, claimed, p, open, newBatch, now, o, b, j);
      hide PlaceInBatch, OpenListing, FreshBatchId;
    }
  }

  lemma PlaceKeepsLeft(
    rules: Rules, s: State, p: Id, open: seq<Id>, newBatch: Id, now: int, o: Id, b: Id, j: Id)
    requires p in s.orders && p != o && OpenListing(s, open) && FreshBatchId(s, newBatch)
    ensures PlaceInBatch(rules, s, p, open, newBatch, now).outcome == Committed ==>
      Keeps(s, PlaceInBatch(rules, s, p, open, newBatch, now).state, o, b, j)
  {
    FirstEligibleIsListed(rules, s, s.orders[p].info, open);
    if FirstEligible(rules, s, s.orders[p].info, open).Some? {
      var c := FirstEligible(rules, s, s.orders[p].info, open).value;
      JoinKeepsLeft(s, p, c, o, b, j);
    } else {
      OpenKeepsLeft(s, p, newBatch, now, o, b, j);
    }
    hide OpenListing, FreshBatchId, JoinBatch, OpenBatch, LeftBehind, FirstEligible, Infos;
  }

  lemma JoinKeepsLeft(s: State, p: Id, c: Id, o: Id, b: Id, j: Id)
    requires p in s.orders && p != o && CanClose(s, c)
    ensures Keeps(s, JoinBatch(s, p, c), o, b, j)
  {
  }

  lemma OpenKeepsLeft(s: State, p: Id, n: Id, now: int, o: Id, b: Id, j: Id)
    requires p in s.orders && p != o && n !in s.batches
    ensures Keeps(s, OpenBatch(s, p, n, now), o, b, j)
  {
  }

  lemma DirectKeepsLeft(rules: Rules, s: State, step: Step, o: Id, b: Id, j: Id)
    ensures Keeps(s, Direct(rules, s, step), o, b, j)
  {
    if KeepsRows(step) {
      DirectSameRows(rules, s, step);
      hide Direct, LeftBehind;
      SameRowsKeepLeft(s, Direct(rules, s, step), o, b, j);
    } else {
      RowStepKeepsLeft(rules, s, step, o, b, j);
    }
  }

  lemma SameRowsKeepLeft(s: State, s': State, o: Id, b: Id, j: Id)
    requires SameRows(s, s')
    ensures Keeps(s, s', o, b, j)
  {
  }

  lemma RowStepKeepsLeft(rules: Rules, s: State, step: Step, o: Id, b: Id, j: Id)
    requires !KeepsRows(step)
    ensures Keeps(s, Direct(rules, s, step), o, b, j)
  {
    hide MarkReady, StartJob, CompleteStop, OpenListing, FreshBatchId, CreateOrder, VendorDecide, CloseBatch;
    hide LeftBehind;
    match step
    case Readied(p, vendor, hasFood, now, open, newBatch) =>
      if OpenListing(s, open) && FreshBatchId(s, newBatch) {
        ReadyKeepsLeft(rules, s, p, vendor, hasFood, now, open, newBatch, o, b, j);
      }
    case JobStart(i, d) => StartKeepsLeft(s, i, d, o, b, j);
    case StopCompleted(i, k, d) => StopKeepsLeft(s, i, k, d, o, b, j);
    case Placed(p, info) => PlaceOrderKeepsLeft(s, p, info, o, b, j);
    case Decided(p, accept) => DecideKeepsLeft(s, p, accept, o, b, j);
    case BatchClosed(c) => CloseKeepsLeft(s, c, o, b, j);
  }

  lemma PlaceOrderKeepsLeft(s: State, p: Id, info: OrderInfo, o: Id, b: Id, j: Id)
    ensures Keeps(s, CreateOrder(s, p, info), o, b, j)
  {
  }

  lemma DecideKeepsLeft(s: State, p: Id, accept: bool, o: Id, b: Id, j: Id)
    ensures Keeps(s, VendorDecide(s, p, accept), o, b, j)
  {
  }

  lemma CloseKeepsLeft(s: State, c: Id, o: Id, b: Id, j: Id)
    ensures Keeps(s, CloseBatch(s, c), o, b, j)
  {
  }

  lemma StepKeepsLeft(rules: Rules, sys: System, step: Step, o: Id, b: Id, j: Id)
    requires LeftBehind(sys.db, o, b, j) && UnreadElsewhere(sys, o, b)
    ensures var next := Apply(rules, sys, step);
      && LeftBehind(next.db, o, b, j) && UnreadElsewhere(next, o, b)
      && next.db.orders[o].jobId == sys.db.orders[o].jobId
  {
    hide LeftBehind, IsRoute;
    hide Direct, RecoverEntry, Assign, SweepListing;
    match step
    case SnapshotTaken(w, c, route, d) =>
      if CanSnapshot(sys.db, c, route) && Listed(sys, d) { ReadsElsewhere(sys.db, c, route, o, b, j); }
    case AssignmentCommitted(w, newJob, base) =>
      if w in sys.workers && newJob !in sys.db.jobs && FreshStopIds(sys.db, base) {
        AssignKeepsLeft(sys.db, sys.workers[w], newJob, base, o, b, j);
      }
    case SweepAdvanced => if sys.sweep != [] { RecoverKeepsLeft(sys.db, sys.sweep[0], o, b, j); }
    case PresenceChanged(_, _) =>
    case SweepBegun(_) =>
    case _ => DirectKeepsLeft(rules, sys.db, step, o, b, j);
  }

  lemma ReadsElsewhere(s: State, c: Id, route: seq<Id>, o: Id, b: Id, j: Id)
    requires LeftBehind(s, o, b, j) && CanSnapshot(s, c, route)
    ensures o !in route
  {
  }

  /**
   Once the job has been started no run gives such an order a stop: with the job it ends COMPLETED although
   nobody was ever sent to it, without the job it is READY for good.
   */
  lemma {:induction false} LeftBehindForever(rules: Rules, sys: System, steps: seq<Step>, o: Id, b: Id, j: Id)
    requires LeftBehind(sys.db, o, b, j) && UnreadElsewhere(sys, o, b)
    ensures var s, s' := sys.db, Run(rules, sys, steps).db;
      && LeftBehind(s', o, b, j) && !HasStop(s', o, j)
      && (s.orders[o].jobId.Some? && s'.jobs[j].status == JobStatus.Completed ==>
            s'.orders[o].status == OrderStatus.Completed)
      && (s.orders[o].jobId.None? ==> s'.orders[o].status == ReadyForDelivery)
    decreases |steps|
  {
    hide Apply, UnreadElsewhere;
    if steps != [] {
      StepKeepsLeft(rules, sys, steps[0], o, b, j);
      LeftBehindForever(rules, Apply(rules, sys, steps[0]), steps[1..], o, b, j);
    }
  }

  // ---------------------------------------------------------------- how that state comes about

  /** Order `o` is in batch `b`, whose job `j` was assigned without a stop for it. */
  ghost predicate AssignedWithout(s: State, o: Id, b: Id, j: Id) {
    && Apart(s, o, b)
    && b in s.batches && s.batches[b].status != JobStatus.Pending && s.batches[b].delivererId.Some?
    && j in s.jobs && s.jobs[j].batchId == b && s.jobs[j].status == JobStatus.Assigned
    && o in s.orders && s.orders[o].batchId == Some(b) && Stranded(s.orders[o], j, s.jobs[j])
  }

  lemma ApartBeforeJoin(s: State, c: R.Call, b: Id)
    requires Inv(s) && R.CanClaim(s, c)
    ensures Apart(s, c.o, b)
  {
    ClaimedIsUnbatched(s, c);
    forall k | k in s.stops && s.stops[k].orderId == c.o
      ensures s.stops[k].jobId in s.jobs && s.jobs[s.stops[k].jobId].status == JobStatus.Pending
    {
      if s.jobs[s.stops[k].jobId].status != JobStatus.Pending { StopMember(s, k); }
    }
  }

  /** A join between the worker's read and its commit, or after the commit, leads there. */
  lemma LateJoinLeads(s: State, c: R.Call, b: Id, before: seq<Id>, d: Id, newJob: Id, base: Id)
    requires Inv(s) && R.CanClaim(s, c) && Unassigned(s, b) && Idle(s, d)
    requires newJob !in s.jobs && FreshStopIds(s, base) && IsRoute(s.orders, s.batches[b].orders, before)
    ensures var j := UpsertTarget(s.jobs, b, newJob);
      && AssignedWithout(Assign(Join(s, c, b), b, before, d, newJob, base).state, c.o, b, j)
      && AssignedWithout(Join(Assign(s, b, before, d, newJob, base).state, c, b), c.o, b, j)
  {
    ClaimedIsUnbatched(s, c);
    assert c.o !in before;
    ApartBeforeJoin(s, c, b);
    JoinWrites(s, c, b);
    hide Inv, IsRoute, Apart, Assign, AssignedWithout, Join;
    JoinStaysApart(s, c, b);
    AssignLeads(Join(s, c, b), b, before, d, newJob, base, c.o);
    var t := Assign(s, b, before, d, newJob, base).state;
    AssignStaysApart(s, b, before, d, newJob, base, c.o);
    JoinStaysApart(t, c, b);
    JoinLeads(t, c, b, UpsertTarget(s.jobs, b, newJob));
  }

  lemma JoinStaysApart(s: State, c: R.Call, b: Id)
    requires c.o in s.orders && b in s.batches && Apart(s, c.o, b)
    ensures Apart(Join(s, c, b), c.o, b)
  {
    JoinWrites(s, c, b);
  }

  lemma AssignStaysApart(s: State, b: Id, route: seq<Id>, d: Id, newJob: Id, base: Id, o: Id)
    requires Apart(s, o, b) && Unassigned(s, b) && Idle(s, d) && newJob !in s.jobs && o !in route && o in s.orders
    ensures var t, j := Assign(s, b, route, d, newJob, base).state, UpsertTarget(s.jobs, b, newJob);
      && Apart(t, o, b)
      && b in t.batches && t.batches[b].status == JobStatus.InProgress && t.batches[b].delivererId == Some(d)
      && j in t.jobs && t.jobs[j].batchId == b && t.jobs[j].status == JobStatus.Assigned
      && o in t.orders && t.orders[o] ==
        if s.orders[o].batchId != Some(b) then s.orders[o]
        else s.orders[o].(delivererId := Some(d), jobId := Some(j), status := WaitingForDeliverer)
  {
  }

  lemma AssignLeads(s: State, b: Id, route: seq<Id>, d: Id, newJob: Id, base: Id, o: Id)
    requires Apart(s, o, b) && Unassigned(s, b) && Idle(s, d) && newJob !in s.jobs && o !in route
    requires o in s.orders && s.orders[o].batchId == Some(b)
    ensures AssignedWithout(Assign(s, b, route, d, newJob, base).state, o, b, UpsertTarget(s.jobs, b, newJob))
  {
    hide Apart, Assign;
    AssignStaysApart(s, b, route, d, newJob, base, o);
  }

  lemma JoinLeads(t: State, c: R.Call, b: Id, j: Id)
    requires c.o in t.orders && t.orders[c.o].jobId.None? && Apart(Join(t, c, b), c.o, b)
    requires b in t.batches && t.batches[b].status != JobStatus.Pending && t.batches[b].delivererId.Some?
    requires j in t.jobs && t.jobs[j].batchId == b && t.jobs[j].status == JobStatus.Assigned
    ensures AssignedWithout(Join(t, c, b), c.o, b, j)
  {
    JoinWrites(t, c, b);
    hide Apart, Join;
  }

  /** From there the start makes it final. */
  lemma StartLeavesBehind(s: State, o: Id, b: Id, j: Id, d: Id)
    requires AssignedWithout(s, o, b, j) && CanStart(s, j, d)
    ensures LeftBehind(StartJob(s, j, d).state, o, b, j)
    ensures StartJob(s, j, d).state.orders[o].jobId == s.orders[o].jobId
  {
  }

  /** Whatever the order got, the job goes on: its stops are completed and it finishes. */
  lemma {:induction false} JobFinishesWithout(rules: Rules, sys: System, o: Id, b: Id, j: Id, d: Id)
    returns (steps: seq<Step>)
    requires LeftBehind(sys.db, o, b, j) && UnreadElsewhere(sys, o, b) && d in sys.db.deliverers
    requires sys.db.jobs[j].status == JobStatus.InProgress && sys.db.jobs[j].delivererId == Some(d)
    requires Unfinished(sys.db, j) != {}
    ensures var s' := Run(rules, sys, steps).db;
      && j in s'.jobs && s'.jobs[j].batchId == b && s'.jobs[j].status == JobStatus.Completed
      && o in s'.orders && !HasStop(s', o, j)
      && (sys.db.orders[o].jobId.Some? ==> s'.orders[o].status == OrderStatus.Completed)
      && (sys.db.orders[o].jobId.None? ==> s'.orders[o].status == ReadyForDelivery)
    decreases |Unfinished(sys.db, j)|
  {
    var k :| k in Unfinished(sys.db, j);
    var step := StopCompleted(j, k, d);
    var next := Apply(rules, sys, step);
    StepKeepsLeft(rules, sys, step, o, b, j);
    OneStopLess(sys.db, j, k, d);
    if next.db.jobs[j].status == JobStatus.Completed {
      steps := [step];
      assert Run(rules, sys, steps) == Run(rules, next, []) by { assert steps[1..] == []; }
      LeftBehindForever(rules, sys, steps, o, b, j);
    } else {
      hide Apply, LeftBehind, Unfinished;
      var rest := JobFinishesWithout(rules, next, o, b, j, d);
      steps := [step] + rest;
      assert steps[1..] == rest;
    }
  }

  lemma OneStopLess(s: State, j: Id, k: Id, d: Id)
    requires CanCompleteStop(s, j, k, d) && s.jobs[j].batchId in s.batches && d in s.deliverers
    ensures var s' := CompleteStop(s, j, k, d).state;
      && j in s'.jobs
      && (s'.jobs[j].status == JobStatus.Completed
          || (s'.jobs[j] == s.jobs[j] && d in s'.deliverers
              && Unfinished(s', j) != {} && |Unfinished(s', j)| < |Unfinished(s, j)|))
  {
    var done := StopDone(s, k);
    assert Unfinished(done, j) == Unfinished(s, j) - {k};
  }

  // ---------------------------------------------------------------- a run that ends that way

  /** The batch has been read by worker 0, who is about to commit, and call `c` is about to join it. */
  ghost predicate AboutToMiss(sys: System, c: R.Call, b: Id) {
    && SysInv(sys) && 0 in sys.workers && sys.workers[0].batchId == b
    && Unassigned(sys.db, b) && Idle(sys.db, sys.workers[0].delivererId) && R.CanClaim(sys.db, c)
  }

  /** The call is in nobody's list yet. */
  lemma NobodyListsIt(sys: System, c: R.Call)
    requires SysInv(sys) && R.CanClaim(sys.db, c)
    ensures forall w :: w in sys.workers ==> c.o !in sys.workers[w].route
  {
    ClaimedIsUnbatched(sys.db, c);
    hide Inv, Located;
    forall w | w in sys.workers ensures c.o !in sys.workers[w].route {
      assert SnapshotHolds(sys.db, sys.workers[w]);
    }
  }

  /** Assigned without the order, and ready to be started. */
  ghost predicate Departing(sys: System, o: Id, b: Id, j: Id, d: Id) {
    && AssignedWithout(sys.db, o, b, j) && UnreadElsewhere(sys, o, b) && sys.db.orders[o].jobId == Some(j)
    && CanStart(sys.db, j, d) && d in sys.db.deliverers && Unfinished(sys.db, j) != {}
  }

  /** The commit after the join. */
  lemma CommitsWithout(rules: Rules, sys: System, c: R.Call, b: Id) returns (j: Id, d: Id, commit: Step)
    requires AboutToMiss(sys, c, b)
    ensures Departing(Apply(rules, sys.(db := Join(sys.db, c, b)), commit), c.o, b, j, d)
  {
    var newJob := D.FreshAbove(sys.db.jobs.Keys);
    var base := D.FreshAbove(sys.db.stops.Keys);
    j, d := UpsertTarget(sys.db.jobs, b, newJob), sys.workers[0].delivererId;
    commit := AssignmentCommitted(0, newJob, base);
    var joined := sys.(db := Join(sys.db, c, b));
    NobodyListsIt(sys, c);
    JoinedIsReady(sys, c, b, newJob, base);
    var after := Assign(joined.db, b, sys.workers[0].route, d, newJob, base).state;
    assert sys.workers[0].batchId == b;
    hide *;
    AssignedCanStart(joined.db, b, sys.workers[0].route, d, newJob, base, c.o);
    CommitApplied(rules, joined, newJob, base);
    DepartsByParts(joined.(db := after, workers := sys.workers - {0}), c.o, b, j, d);
  }

  lemma CommitApplied(rules: Rules, sys: System, newJob: Id, base: Id)
    requires 0 in sys.workers && newJob !in sys.db.jobs && FreshStopIds(sys.db, base)
    ensures var snap := sys.workers[0];
      Apply(rules, sys, AssignmentCommitted(0, newJob, base))
      == sys.(db := Assign(sys.db, snap.batchId, snap.route, snap.delivererId, newJob, base).state,
              workers := sys.workers - {0})
  {
  }

  lemma DepartsByParts(sys: System, o: Id, b: Id, j: Id, d: Id)
    requires AssignedWithout(sys.db, o, b, j) && CanStart(sys.db, j, d) && d in sys.db.deliverers
    requires Unfinished(sys.db, j) != {} && o in sys.db.orders && sys.db.orders[o].jobId == Some(j)
    requires forall w :: w in sys.workers ==> o !in sys.workers[w].route
    ensures Departing(sys, o, b, j, d)
  {
    hide AssignedWithout, CanStart, Unfinished;
  }

  lemma JoinedIsReady(sys: System, c: R.Call, b: Id, newJob: Id, base: Id)
    requires AboutToMiss(sys, c, b) && newJob !in sys.db.jobs && FreshStopIds(sys.db, base)
    ensures var s, d, route := Join(sys.db, c, b), sys.workers[0].delivererId, sys.workers[0].route;
      && Unassigned(s, b) && Idle(s, d) && route != [] && newJob !in s.jobs && FreshStopIds(s, base)
      && s.jobs == sys.db.jobs && c.o in s.orders && s.orders[c.o].batchId == Some(b)
      && AssignedWithout(Assign(s, b, route, d, newJob, base).state, c.o, b, UpsertTarget(s.jobs, b, newJob))
  {
    assert SnapshotHolds(sys.db, sys.workers[0]);
    JoinWrites(sys.db, c, b);
    hide Inv, IsRoute, AssignedWithout, SnapshotHolds, EntryHolds, Join, Assign, UpsertTarget;
    LateJoinLeads(sys.db, c, b, sys.workers[0].route, sys.workers[0].delivererId, newJob, base);
  }

  lemma AssignedCanStart(s: State, b: Id, route: seq<Id>, d: Id, newJob: Id, base: Id, o: Id)
    requires Unassigned(s, b) && Idle(s, d) && route != [] && FreshStopIds(s, base)
    requires o in s.orders && s.orders[o].batchId == Some(b)
    ensures var t, j := Assign(s, b, route, d, newJob, base).state, UpsertTarget(s.jobs, b, newJob);
      && CanStart(t, j, d) && d in t.deliverers && Unfinished(t, j) != {}
      && o in t.orders && t.orders[o].jobId == Some(j)
  {
    var t, j := Assign(s, b, route, d, newJob, base).state, UpsertTarget(s.jobs, b, newJob);
    hide HasJob, UpsertTarget;
    assert t.stops[base] == NewStop(s.orders, j, route, base, base);
    assert base in Unfinished(t, j);
  }

  /** The start. */
  lemma StartsWithout(rules: Rules, sys: System, o: Id, b: Id, j: Id, d: Id)
    requires Departing(sys, o, b, j, d)
    ensures var next := Apply(rules, sys, JobStart(j, d));
      && LeftBehind(next.db, o, b, j) && UnreadElsewhere(next, o, b) && d in next.db.deliverers
      && next.db.jobs[j].status == JobStatus.InProgress && next.db.jobs[j].delivererId == Some(d)
      && Unfinished(next.db, j) != {} && next.db.orders[o].jobId == Some(j)
  {
    StartLeavesBehind(sys.db, o, b, j, d);
    hide LeftBehind, AssignedWithout;
    assert Unfinished(StartJob(sys.db, j, d).state, j) == Unfinished(sys.db, j);
  }

  /**
   So with the join between read and commit a run marks the order COMPLETED, with the job, although no stop
   was ever made for it.
   */
  lemma CompletedWithoutStop(rules: Rules, sys: System, c: R.Call, b: Id) returns (j: Id, steps: seq<Step>)
    requires AboutToMiss(sys, c, b)
    ensures var s' := Run(rules, sys.(db := Join(sys.db, c, b)), steps).db;
      && j in s'.jobs && s'.jobs[j].batchId == b && s'.jobs[j].status == JobStatus.Completed
      && c.o in s'.orders && s'.orders[c.o].status == OrderStatus.Completed && !HasStop(s', c.o, j)
  {
    hide *;
    var d: Id, commit: Step;
    j, d, commit := CommitsWithout(rules, sys, c, b);
    var held := Apply(rules, sys.(db := Join(sys.db, c, b)), commit);
    StartsWithout(rules, held, c.o, b, j, d);
    var started := Apply(rules, held, JobStart(j, d));
    var rest := JobFinishesWithout(rules, started, c.o, b, j, d);
    steps := [commit, JobStart(j, d)] + rest;
    TwoFirst(rules, sys.(db := Join(sys.db, c, b)), commit, JobStart(j, d), rest);
  }

  lemma TwoFirst(rules: Rules, sys: System, first: Step, second: Step, rest: seq<Step>)
    ensures Run(rules, sys, [first, second] + rest) == Run(rules, Apply(rules, Apply(rules, sys, first), second), rest)
  {
    hide Apply;
    var all := [first, second] + rest;
    assert all[1..] == [second] + rest && all[1..][1..] == rest;
    assert Run(rules, Apply(rules, sys, first), all[1..])
        == Run(rules, Apply(rules, Apply(rules, sys, first), second), rest);
  }

  /** The only order of the batch is its only listing. */
  lemma FirstIsLocated(sys: System, info: OrderInfo)
    requires InOneBatch(sys, info, 1) && HasPoint(info.vendor)
    ensures 0 in sys.db.batches
    ensures var route := sys.db.batches[0].orders; IsRoute(sys.db.orders, route, route) && Located(sys.db, route)
  {
    var route := sys.db.batches[0].orders;
    assert BatchRef(sys.db, 0) && |route| == 1 && route[0] in route;
    assert Members(sys.db, 0)[0] == LikeOrders(info, 1)[0];
  }

  /** The batch is closed, a deliverer is hired and comes online, and worker 0 reads the batch. */
  lemma ReadsTheBatch(rules: Rules, from: System, b: Id, d: Id)
    requires CanClose(from.db, b) && d !in from.db.deliverers && from.db.batches[b].delivererId.None?
    requires var route := from.db.batches[b].orders; IsRoute(from.db.orders, route, route) && Located(from.db, route)
    ensures var hired := Apply(rules, Apply(rules, from, BatchClosed(b)), DelivererAdded(d));
            var here := Apply(rules, hired, PresenceChanged(d, true));
            var sys := Apply(rules, here, SnapshotTaken(0, b, from.db.batches[b].orders, d));
      && 0 in sys.workers && sys.workers[0].batchId == b && sys.workers[0].delivererId == d
      && Unassigned(sys.db, b) && Idle(sys.db, d) && sys.db.orders == from.db.orders
  {
    hide IsRoute;
    var s := from.db;
    var closed := s.(batches := s.batches[b := s.batches[b].(status := JobStatus.InProgress)],
                     queue := s.queue + multiset{b});
    assert Apply(rules, from, BatchClosed(b)).db == closed;
    var hired := Apply(rules, Apply(rules, from, BatchClosed(b)), DelivererAdded(d));
    assert hired.db == closed.(deliverers := s.deliverers[d := Deliverer(true, None)]);
  }

  /** Such a moment is reached: the store of `ReadyLocking.OvertakingIsReachable` after the close and a read. */
  lemma LateJoinIsReachable(rules: Rules, info: OrderInfo) returns (sys: System)
    requires HasPoint(info.vendor)
    ensures G.Reachable(rules, sys) && AboutToMiss(sys, R.FreshCall(info, 1), 0)
  {
    var from := FirstFounded(rules, info);
    var d := D.FreshAbove(from.db.deliverers.Keys);
    FirstIsLocated(from, info);
    assert Awaiting(from.db, info, 1) && BatchLinked(from.db, 0);
    var route := from.db.batches[0].orders;
    hide Apply, G.Reachable, SysInv, Run, IsRoute, Located;
    var closed := Then(rules, from, BatchClosed(0));
    var hired := Then(rules, closed, DelivererAdded(d));
    var here := Then(rules, hired, PresenceChanged(d, true));
    sys := Then(rules, here, SnapshotTaken(0, 0, route, d));
    G.ReachableHolds(rules, sys);
    ReadsTheBatch(rules, from, 0, d);
  }

  lemma Then(rules: Rules, sys: System, step: Step) returns (next: System)
    requires G.Reachable(rules, sys)
    ensures next == Apply(rules, sys, step) && G.Reachable(rules, next)
  {
    hide *;
    G.StepStaysReachable(rules, sys, step);
    next := Apply(rules, sys, step);
  }
}
