/** What holds in every state that any run reaches, read off the invariant. */
module Guarantees {
  import opened Types
  import opened Batching
  import opened Transactions
  import opened Invariant
  import opened Evolution
  import opened Dispatch

  ghost predicate Reachable(rules: Rules, sys: System) {
    exists steps :: sys == Run(rules, INITIAL, steps)
  }

  lemma ReachableHolds(rules: Rules, sys: System)
    requires Reachable(rules, sys)
    ensures SysInv(sys)
  {
    var steps :| sys == Run(rules, INITIAL, steps);
    InitialHolds();
    RunKeepsSysInv(rules, INITIAL, steps);
  }

  lemma StepStaysReachable(rules: Rules, sys: System, step: Step)
    requires Reachable(rules, sys)
    ensures Reachable(rules, Apply(rules, sys, step))
  {
    hide Apply;
    var steps :| sys == Run(rules, INITIAL, steps);
    RunConcat(rules, INITIAL, steps, [step]);
    assert [step][1..] == [];
    assert Run(rules, sys, [step]) == Run(rules, Apply(rules, sys, step), []);
  }

  /** Batch `b` is on the road with deliverer `d`. */
  predicate CarriedBy(s: State, b: Id, d: Id) {
    b in s.batches && s.batches[b].status == JobStatus.InProgress && s.batches[b].delivererId == Some(d)
  }

  /** Job `j` is in the hands of deliverer `d`. */
  predicate HeldBy(s: State, j: Id, d: Id) {
    j in s.jobs && Active(s.jobs[j]) && s.jobs[j].delivererId == Some(d)
  }

  /**
   Deliverers with an active job, jobs in use and batches on the road correspond one to one and agree
   on the deliverer, whatever interleaving of stale commits, starts, stops and recoveries led there.
   */
  lemma OneToOne(rules: Rules, sys: System)
    requires Reachable(rules, sys)
    ensures var s := sys.db;
      && (forall d: Id, j: Id :: d in s.deliverers ==> (s.deliverers[d].activeJobId == Some(j) <==> HeldBy(s, j, d)))
      && (forall j: Id, d: Id :: HeldBy(s, j, d) ==> d in s.deliverers && CarriedBy(s, s.jobs[j].batchId, d))
      && (forall b: Id, d: Id :: CarriedBy(s, b, d) ==> exists j: Id :: HeldBy(s, j, d) && s.jobs[j].batchId == b)
      && (forall i: Id, j: Id, d: Id :: HeldBy(s, i, d) && HeldBy(s, j, d) ==> i == j)
  {
    ReachableHolds(rules, sys);
    var s := sys.db;
    forall d: Id, j: Id | d in s.deliverers && s.deliverers[d].activeJobId == Some(j) ensures HeldBy(s, j, d) {
      assert DelivererLinked(s, d);
    }
    forall j: Id, d: Id | HeldBy(s, j, d)
      ensures d in s.deliverers && s.deliverers[d].activeJobId == Some(j) && CarriedBy(s, s.jobs[j].batchId, d)
    {
      assert JobLinked(s, j);
    }
    forall b: Id, d: Id | CarriedBy(s, b, d) ensures exists j: Id :: HeldBy(s, j, d) && s.jobs[j].batchId == b {
      assert BatchLinked(s, b);
      var j := JobFor(s.jobs, b);
      assert JobLinked(s, j);
      assert HeldBy(s, j, d);
    }
  }

  /** A batch that is closed and has no job in anybody's hands, and none that was ever finished. */
  ghost predicate WaitsForDeliverer(s: State, b: Id) {
    Closed(s, b) && forall j :: j in s.jobs && s.jobs[j].batchId == b ==> s.jobs[j].status == JobStatus.Pending
  }

  ghost predicate HasFreeHands(s: State, d: Id) {
    d in s.deliverers && s.deliverers[d].availability && forall j :: !HeldBy(s, j, d)
  }

  /**
   The two claims read the batch row and the deliverer row only, and yet decide about jobs: a commit
   wins exactly when no job of the batch is in use or done and the deliverer holds none. A loser leaves
   the store as it was.
   */
  lemma ClaimSucceedsIff(rules: Rules, sys: System, b: Id, route: seq<Id>, d: Id, newJob: Id, base: Id)
    requires Reachable(rules, sys)
    ensures var s, r := sys.db, Assign(sys.db, b, route, d, newJob, base);
      && (r.outcome == Committed <==> WaitsForDeliverer(s, b) && HasFreeHands(s, d))
      && (r.outcome != Committed ==> r.state == s)
  {
    ReachableHolds(rules, sys);
    var s := sys.db;
    BatchClaimIff(s, b);
    DelivererClaimIff(s, d);
  }

  lemma BatchClaimIff(s: State, b: Id)
    requires Refs(s) && Links(s)
    ensures Unassigned(s, b) <==> WaitsForDeliverer(s, b)
  {
    if b in s.batches {
      assert BatchLinked(s, b);
      forall j | j in s.jobs && s.jobs[j].batchId == b ensures JobLinked(s, j) {
      }
      if HasJob(s.jobs, b) {
        assert s.jobs[JobFor(s.jobs, b)].batchId == b;
      }
    }
  }

  lemma DelivererClaimIff(s: State, d: Id)
    requires Refs(s) && Links(s)
    ensures Idle(s, d) <==> HasFreeHands(s, d)
  {
    if d in s.deliverers {
      assert DelivererLinked(s, d);
      assert s.deliverers[d].activeJobId.Some? ==> HeldBy(s, s.deliverers[d].activeJobId.value, d);
      forall j: Id | HeldBy(s, j, d) ensures s.deliverers[d].activeJobId == Some(j) {
        assert JobLinked(s, j);
      }
    }
  }

  /**
   No ABA with one sweeper: at commit time a job seen ASSIGNED is still its deliverer's active job, or
   has been started and the whole recovery rolls back.
   */
  lemma NoAba(rules: Rules, sys: System, e: Entry)
    requires Reachable(rules, sys) && e in sys.sweep && e.seen == JobStatus.Assigned
    ensures var s := sys.db;
            var r := Recover(s, e.delivererId, e.jobId);
            e.jobId in s.jobs && e.delivererId in s.deliverers
            && (if Started(s.jobs[e.jobId])
                then r.state == s && r.outcome != Committed
                else s.jobs[e.jobId].status == JobStatus.Assigned
                     && s.deliverers[e.delivererId].activeJobId == Some(e.jobId) && r.outcome == Committed)
  {
    ReachableHolds(rules, sys);
    assert EntryHolds(sys.db, e);
    assert JobLinked(sys.db, e.jobId);
  }

  // ---------------------------------------------------------------- stops

  predicate StopOf(s: State, j: Id, k: Id) {
    k in s.stops && s.stops[k].jobId == j
  }

  ghost predicate Serves(s: State, j: Id, i: nat, o: Id) {
    exists k: Id :: StopOf(s, j, k) && s.stops[k].orderId == o && s.stops[k].sequence == i
  }

  ghost predicate EachStopServes(s: State, j: Id, route: seq<Id>) {
    forall k: Id :: StopOf(s, j, k) ==>
      s.stops[k].sequence < |route| && s.stops[k].orderId == route[s.stops[k].sequence]
  }

  ghost predicate EachEntryServed(s: State, j: Id, route: seq<Id>) {
    forall i: nat :: i < |route| ==> Serves(s, j, i, route[i])
  }

  ghost predicate OneStopPerIndex(s: State, j: Id) {
    forall k: Id, l: Id ::
      StopOf(s, j, k) && StopOf(s, j, l) && s.stops[k].sequence == s.stops[l].sequence ==> k == l
  }

  /** Stop `i` of the job serves `route[i]`, there is one stop per entry, and nothing else. */
  ghost predicate Itinerary(s: State, j: Id, route: seq<Id>) {
    EachStopServes(s, j, route) && EachEntryServed(s, j, route) && OneStopPerIndex(s, j)
  }

  /**
   After any number of assign and recover cycles, a job in use or completed has exactly one stop per
   order of its batch, numbered 0 to n-1 by `readyAt`, and `totalOrders` is n.
   */
  lemma StopsMatchBatch(rules: Rules, sys: System, j: Id) returns (route: seq<Id>)
    requires Reachable(rules, sys)
    requires j in sys.db.jobs && sys.db.jobs[j].status != JobStatus.Pending
    ensures sys.db.jobs[j].batchId in sys.db.batches
    ensures IsRoute(sys.db.orders, sys.db.batches[sys.db.jobs[j].batchId].orders, route)
    ensures Itinerary(sys.db, j, route)
    ensures sys.db.jobs[j].totalOrders == |route|
  {
    ReachableHolds(rules, sys);
    var base: Id, r: seq<Id> :| Routed(sys.db, j, base, r);
    route := r;
    RoutedIsItinerary(sys.db, j, base, route);
  }

  lemma RoutedIsItinerary(s: State, j: Id, base: Id, route: seq<Id>)
    requires StopsFollow(s.stops, j, base, route)
    ensures Itinerary(s, j, route)
  {
    StopsInRoute(s, j, base, route);
    RouteIsServed(s, j, base, route);
    SequencesDiffer(s, j, base, route);
  }

  lemma StopsInRoute(s: State, j: Id, base: Id, route: seq<Id>)
    requires StopsFollow(s.stops, j, base, route)
    ensures EachStopServes(s, j, route)
  {
    forall k: Id | StopOf(s, j, k)
      ensures s.stops[k].sequence < |route| && s.stops[k].orderId == route[s.stops[k].sequence]
    {
      assert s.stops[k].sequence == k - base;
    }
  }

  lemma RouteIsServed(s: State, j: Id, base: Id, route: seq<Id>)
    requires StopsFollow(s.stops, j, base, route)
    ensures EachEntryServed(s, j, route)
  {
    forall i: nat | i < |route| ensures Serves(s, j, i, route[i]) {
      var k: Id := base + i;
      assert StopOf(s, j, k) && s.stops[k].orderId == route[k - base] && s.stops[k].sequence == k - base;
    }
  }

  lemma SequencesDiffer(s: State, j: Id, base: Id, route: seq<Id>)
    requires StopsFollow(s.stops, j, base, route)
    ensures OneStopPerIndex(s, j)
  {
  }

  // ---------------------------------------------------------------- statuses

  ghost predicate Dropped(s: State, j: Id, o: Id) {
    exists k: Id :: StopOf(s, j, k) && s.stops[k].orderId == o && s.stops[k].status == JobStatus.Completed
  }

  /** The status a batched order must have, computed from its job and stop alone. */
  ghost function ExpectedStatus(s: State, o: Id, b: Id): OrderStatus {
    if !HasJob(s.jobs, b) then ReadyForDelivery
    else
      var j := JobFor(s.jobs, b);
      match s.jobs[j].status
      case Pending => WaitingForDeliverer
      case Assigned => WaitingForDeliverer
      case InProgress => if Dropped(s, j, o) then OrderStatus.Completed else OrderStatus.InProgress
      case Completed => OrderStatus.Completed
  }

  lemma StatusIsDetermined(rules: Rules, sys: System, o: Id)
    requires Reachable(rules, sys) && o in sys.db.orders
    ensures var row := sys.db.orders[o];
            if row.batchId.None? then PreReady(row.status)
            else row.status == ExpectedStatus(sys.db, o, row.batchId.value)
  {
    ReachableHolds(rules, sys);
    var s := sys.db;
    assert OrderPhase(s, o);
    if s.orders[o].batchId.Some? && HasJob(s.jobs, s.orders[o].batchId.value) {
      var j := JobFor(s.jobs, s.orders[o].batchId.value);
      assert OwnedOrder(s.orders[o], j, s.jobs[j]);
      if s.jobs[j].status == JobStatus.InProgress {
        DroppedIffDelivered(s, j, o);
      }
    }
  }

  lemma DroppedIffDelivered(s: State, j: Id, o: Id)
    requires Inv(s) && j in s.jobs && s.jobs[j].status == JobStatus.InProgress
    requires o in s.orders && s.orders[o].batchId == Some(s.jobs[j].batchId)
    ensures Dropped(s, j, o) <==> s.orders[o].status == OrderStatus.Completed
  {
    var k := MemberHasStop(s, j, o);
    assert StopPhase(s, k) && StopOf(s, j, k);
    forall l: Id | StopOf(s, j, l) && s.stops[l].orderId == o && s.stops[l].status == JobStatus.Completed
      ensures s.orders[o].status == OrderStatus.Completed
    {
      assert StopPhase(s, l);
    }
  }

  /** A started job has work left; a completed job has none. */
  lemma WorkLeftIffStarted(rules: Rules, sys: System, j: Id)
    requires Reachable(rules, sys) && j in sys.db.jobs && Started(sys.db.jobs[j])
    ensures Unfinished(sys.db, j) != {} <==> sys.db.jobs[j].status == JobStatus.InProgress
  {
    ReachableHolds(rules, sys);
    if sys.db.jobs[j].status == JobStatus.Completed {
      forall k | k in sys.db.stops ensures k !in Unfinished(sys.db, j) {
        assert StopPhase(sys.db, k);
      }
    }
  }

  // ---------------------------------------------------------------- what later steps never undo

  /**
   However a run goes on: a delivered order stays delivered, a closed batch keeps its orders and never
   opens again, and a started job keeps its deliverer.
   */
  lemma NothingIsUndone(rules: Rules, sys: System, steps: seq<Step>)
    requires Reachable(rules, sys)
    ensures var s, t := sys.db, Run(rules, sys, steps).db;
      && (forall o :: o in s.orders && s.orders[o].status == OrderStatus.Completed ==>
            o in t.orders && t.orders[o].status == OrderStatus.Completed)
      && (forall b :: Closed(s, b) ==> Closed(t, b) && t.batches[b].orders == s.batches[b].orders)
      && (forall j :: j in s.jobs && Started(s.jobs[j]) ==>
            j in t.jobs && Started(t.jobs[j]) && t.jobs[j].delivererId == s.jobs[j].delivererId)
  {
    ReachableHolds(rules, sys);
    RunKeepsSysInv(rules, sys, steps);
    hide *;
    EvolvedRowsStay(sys.db, Run(rules, sys, steps).db);
  }

  lemma EvolvedRowsStay(s: State, t: State)
    requires Evolves(s, t)
    ensures (forall o :: o in s.orders && s.orders[o].status == OrderStatus.Completed ==>
               o in t.orders && t.orders[o].status == OrderStatus.Completed)
    ensures (forall b :: Closed(s, b) ==> Closed(t, b) && t.batches[b].orders == s.batches[b].orders)
    ensures (forall j :: j in s.jobs && Started(s.jobs[j]) ==>
               j in t.jobs && Started(t.jobs[j]) && t.jobs[j].delivererId == s.jobs[j].delivererId)
  {
    forall o | o in s.orders ensures OrderEvolves(s, t, o) {
    }
    forall b | b in s.batches ensures BatchEvolves(s, t, b) {
    }
    forall j | j in s.jobs ensures JobEvolves(s, t, j) {
    }
  }

  /** How often a close (by size, timer or sweep) takes batch `b` out of PENDING during a run. */
  ghost function Closings(rules: Rules, sys: System, steps: seq<Step>, b: Id): nat
    decreases |steps|
  {
    if steps == [] then 0
    else
      (if steps[0] == BatchClosed(b) && CanClose(sys.db, b) then 1 else 0)
      + Closings(rules, Apply(rules, sys, steps[0]), steps[1..], b)
  }

  lemma {:induction false} ClosesAtMostOnce(rules: Rules, sys: System, steps: seq<Step>, b: Id)
    requires SysInv(sys)
    ensures Closings(rules, sys, steps, b) <= 1
    ensures Closed(sys.db, b) ==> Closings(rules, sys, steps, b) == 0
    decreases |steps|
  {
    if steps != [] {
      var next := Apply(rules, sys, steps[0]);
      StepKeepsSysInv(rules, sys, steps[0]);
      ClosesAtMostOnce(rules, next, steps[1..], b);
      if b in sys.db.batches { assert BatchEvolves(sys.db, next.db, b); }
    }
  }
}
