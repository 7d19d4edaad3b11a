/** Whole runs of the accounting, and the fact that no order is ever stranded. */
module Delivery {
  import opened Types
  import opened Batching
  import opened Transactions
  import opened Invariant
  import opened JobSteps
  import opened OrderSteps
  import opened Evolution
  import opened Dispatch
  import opened Drain
  import opened Resends

  /** The step does one piece of work: a close, an assignment, a start or a stop. */
  ghost predicate Works(sys: System, step: Step) {
    var s := sys.db;
    match step
    case BatchClosed(b) => CanClose(s, b)
    case AssignmentCommitted(w, newJob, base) =>
      && w in sys.workers && newJob !in s.jobs && FreshStopIds(s, base)
      && Unassigned(s, sys.workers[w].batchId) && Idle(s, sys.workers[w].delivererId)
    case JobStart(j, d) => CanStart(s, j, d)
    case StopCompleted(j, k, d) => CanCompleteStop(s, j, k, d)
    case _ => false
  }

  /** New work: four for an order that opens a batch, one for an order that joins or a recovery. */
  ghost function Gain(rules: Rules, sys: System, step: Step): nat {
    var s := sys.db;
    match step
    case Readied(o, vendor, hasFood, now, open, newBatch) =>
      if OpenListing(s, open) && FreshBatchId(s, newBatch) then
        var r := MarkReady(rules, s, o, vendor, hasFood, now, open, newBatch);
        if r.outcome != Committed then 0 else if r.created then 4 else 1
      else 0
    case SweepAdvanced =>
      if sys.sweep != [] && sys.sweep[0].seen == JobStatus.Assigned
         && CanRecover(s, sys.sweep[0].delivererId, sys.sweep[0].jobId)
      then 1 else 0
    case _ => 0
  }

  lemma SameTablesSameTotal(s: State, s': State)
    requires UniqueBatch(s.jobs) && s'.batches == s.batches && s'.jobs == s.jobs && s'.stops == s.stops
    ensures Total(s') == Total(s)
  {
    SameUnfinished(s, s');
    forall c | c in s.batches ensures Rank(s', c) == Rank(s, c) {
      RankStays(s, s', c);
    }
    NoRankMoves(s, s');
  }

  lemma ReadyAccounts(
    rules: Rules, s: State, o: Id, vendor: Id, hasFood: bool, now: int, open: seq<Id>, newBatch: Id)
    requires Inv(s) && OpenListing(s, open) && FreshBatchId(s, newBatch)
    ensures var r := MarkReady(rules, s, o, vendor, hasFood, now, open, newBatch);
            Total(r.state) == Total(s) + (if r.outcome != Committed then 0 else if r.created then 4 else 1)
  {
    hide Refs, Links, Statuses, Stops;
    var r := MarkReady(rules, s, o, vendor, hasFood, now, open, newBatch);
    if o in s.orders && s.orders[o].info.vendorId == vendor && Readyable(s.orders[o].status) {
      MarkReadyEnters(rules, s, o, vendor, hasFood, now, open, newBatch);
      MarkReadyKeepsInv(rules, s, o, vendor, hasFood, now, open, newBatch);
      EnterRaises(s, r.state, o, r.batchId.value);
      CreatedIffNew(rules, s, o, vendor, hasFood, now, open, newBatch);
    }
  }

  lemma CreatedIffNew(
    rules: Rules, s: State, o: Id, vendor: Id, hasFood: bool, now: int, open: seq<Id>, newBatch: Id)
    requires FreshBatchId(s, newBatch)
    requires MarkReady(rules, s, o, vendor, hasFood, now, open, newBatch).outcome == Committed
    ensures var r := MarkReady(rules, s, o, vendor, hasFood, now, open, newBatch);
            r.batchId.Some? && (r.created <==> r.batchId.value !in s.batches)
  {
  }

  /** Every step changes the work left by exactly what it gains or does. */
  lemma StepAccounts(rules: Rules, sys: System, step: Step)
    requires SysInv(sys)
    ensures Total(Apply(rules, sys, step).db)
            == Total(sys.db) + Gain(rules, sys, step) - (if Works(sys, step) then 1 else 0)
  {
    hide Inv, Total, MarkReady, CompleteStop, EntryHolds, OpenListing, FreshBatchId, CreateOrder, VendorDecide;
    var s, s' := sys.db, Apply(rules, sys, step).db;
    match step
    case Readied(o, vendor, hasFood, now, open, newBatch) =>
      if OpenListing(s, open) && FreshBatchId(s, newBatch) {
        ReadyAccounts(rules, s, o, vendor, hasFood, now, open, newBatch);
      }
    case BatchClosed(b) => if CanClose(s, b) { CloseLowers(s, b); }
    case AssignmentCommitted(w, newJob, base) =>
      if Works(sys, step) {
        var snap := sys.workers[w];
        assert SnapshotHolds(s, snap);
        AssignLowers(s, snap.batchId, snap.route, snap.delivererId, newJob, base);
      }
    case JobStart(j, d) => if CanStart(s, j, d) { StartLowers(s, j, d); }
    case StopCompleted(j, k, d) =>
      if CanCompleteStop(s, j, k, d) { StopLowers(s, j, k, d); } else { RefusedStop(s, j, k, d); }
    case SweepAdvanced =>
      if sys.sweep != [] && sys.sweep[0].seen == JobStatus.Assigned {
        assert sys.sweep[0] in sys.sweep;
        if CanRecover(s, sys.sweep[0].delivererId, sys.sweep[0].jobId) { RecoverRaises(s, sys.sweep[0]); }
      }
    case SnapshotTaken(_, _, _, _) =>
    case PresenceChanged(_, _) =>
    case SweepBegun(_) =>
    case _ =>
      JobsUnique(s);
      OthersKeepTables(rules, s, step);
      SameTablesSameTotal(s, s');
  }

  lemma OthersKeepTables(rules: Rules, s: State, step: Step)
    requires !step.Readied? && !step.BatchClosed? && !step.JobStart? && !step.StopCompleted?
    ensures var s' := Direct(rules, s, step); s'.batches == s.batches && s'.jobs == s.jobs && s'.stops == s.stops
  {
    hide Direct;
    if KeepsRows(step) {
      DirectSameRows(rules, s, step);
    } else {
      OrderWritesKeepTables(rules, s, step);
    }
  }

  lemma OrderWritesKeepTables(rules: Rules, s: State, step: Step)
    requires step.Placed? || step.Decided?
    ensures var s' := Direct(rules, s, step); s'.batches == s.batches && s'.jobs == s.jobs && s'.stops == s.stops
  {
  }

  lemma JobsUnique(s: State)
    requires Inv(s)
    ensures UniqueBatch(s.jobs)
  {
  }

  lemma RefusedStop(s: State, j: Id, k: Id, d: Id)
    requires !CanCompleteStop(s, j, k, d)
    ensures CompleteStop(s, j, k, d).state == s
  {
  }

  ghost function Work(rules: Rules, sys: System, steps: seq<Step>): nat
    decreases |steps|
  {
    if steps == [] then 0
    else (if Works(sys, steps[0]) then 1 else 0) + Work(rules, Apply(rules, sys, steps[0]), steps[1..])
  }

  ghost function Gains(rules: Rules, sys: System, steps: seq<Step>): nat
    decreases |steps|
  {
    if steps == [] then 0
    else Gain(rules, sys, steps[0]) + Gains(rules, Apply(rules, sys, steps[0]), steps[1..])
  }

  /** Conservation over any run: the work done plus the work left is the work there was plus the gains. */
  lemma {:induction false} RunAccounts(rules: Rules, sys: System, steps: seq<Step>)
    requires SysInv(sys)
    ensures Total(Run(rules, sys, steps).db) + Work(rules, sys, steps) == Total(sys.db) + Gains(rules, sys, steps)
    decreases |steps|
  {
    hide SysInv, Total, Apply, Works, Gain;
    if steps != [] {
      StepKeepsSysInv(rules, sys, steps[0]);
      StepAccounts(rules, sys, steps[0]);
      RunAccounts(rules, Apply(rules, sys, steps[0]), steps[1..]);
    }
  }

  // ---------------------------------------------------------------- sorting by readyAt

  function Insert(orders: map<Id, Order>, o: Id, xs: seq<Id>): seq<Id> {
    if xs == [] || ReadyTime(orders, o) <= ReadyTime(orders, xs[0]) then [o] + xs
    else [xs[0]] + Insert(orders, o, xs[1..])
  }

  function SortByReady(orders: map<Id, Order>, xs: seq<Id>): seq<Id> {
    if xs == [] then [] else Insert(orders, xs[0], SortByReady(orders, xs[1..]))
  }

  lemma {:induction false} InsertRoutes(orders: map<Id, Order>, o: Id, members: seq<Id>, route: seq<Id>)
    requires IsRoute(orders, members, route) && o !in members
    ensures IsRoute(orders, [o] + members, Insert(orders, o, route))
    decreases |route|
  {
    if route != [] && ReadyTime(orders, o) > ReadyTime(orders, route[0]) {
      var first, rest := route[0], route[1..];
      assert forall p :: p in route <==> p == first || p in rest;
      assert IsRoute(orders, rest, rest);
      InsertRoutes(orders, o, rest, rest);
      var more := Insert(orders, o, rest);
      assert forall p :: p in rest ==> ReadyTime(orders, first) <= ReadyTime(orders, p);
      hide ReadyTime, Insert;
      HeadThenRoute(orders, [o] + members, first, more);
    } else {
      assert forall i :: 0 <= i < |route| ==> route[i] in route;
    }
  }

  /** A route stays one with an earlier order in front. */
  lemma HeadThenRoute(orders: map<Id, Order>, members: seq<Id>, first: Id, more: seq<Id>)
    requires NoDuplicates(more) && first !in more && |members| == |more| + 1
    requires forall p :: p in members <==> p == first || p in more
    requires forall p :: p in more ==> ReadyTime(orders, first) <= ReadyTime(orders, p)
    requires forall i, j :: 0 <= i < j < |more| ==> ReadyTime(orders, more[i]) <= ReadyTime(orders, more[j])
    ensures IsRoute(orders, members, [first] + more)
  {
    hide ReadyTime;
    assert forall i :: 0 <= i < |more| ==> more[i] in more;
  }

  lemma {:induction false} SortRoutes(orders: map<Id, Order>, members: seq<Id>)
    requires NoDuplicates(members)
    ensures IsRoute(orders, members, SortByReady(orders, members))
    decreases |members|
  {
    if members != [] {
      SortRoutes(orders, members[1..]);
      InsertRoutes(orders, members[0], members[1..], SortByReady(orders, members[1..]));
      assert [members[0]] + members[1..] == members;
    }
  }

  // ---------------------------------------------------------------- nothing is stranded

  /** A batched order that has not been delivered. */
  predicate Waiting(s: State, o: Id) {
    o in s.orders && s.orders[o].batchId.Some? && s.orders[o].status != OrderStatus.Completed
  }

  /** Some deliverer is present, idle ones present are available, and batched orders have a pickup point. */
  ghost predicate Workable(s: State, present: set<Id>) {
    && (exists d :: d in s.deliverers && d in present)
    && (forall d :: d in s.deliverers && d in present && s.deliverers[d].activeJobId.None? ==>
          s.deliverers[d].availability)
    && (forall o :: o in s.orders && s.orders[o].batchId.Some? ==> HasPoint(s.orders[o].info.vendor))
  }

  lemma {:induction false} FreshAbove(ids: set<Id>) returns (n: Id)
    ensures forall k :: k in ids ==> k < n
    decreases |ids|
  {
    if ids == {} {
      n := 0;
    } else {
      var k :| k in ids;
      var m := FreshAbove(ids - {k});
      n := if m <= k then k + 1 else m;
      assert forall l :: l in ids ==> l == k || l in ids - {k};
    }
  }

  lemma WorkableStays(s: State, s': State, present: set<Id>)
    requires Workable(s, present) && s'.deliverers.Keys == s.deliverers.Keys && s'.orders.Keys == s.orders.Keys
    requires forall d :: d in s.deliverers ==>
               || s'.deliverers[d] == s.deliverers[d]
               || s'.deliverers[d].activeJobId.Some? || s'.deliverers[d].availability
    requires forall o :: o in s.orders ==>
        s'.orders[o].batchId == s.orders[o].batchId && s'.orders[o].info == s.orders[o].info
    ensures Workable(s', present)
  {
  }

  /** One round: a few faithful steps that do one piece of work and bring no new work. */
  ghost predicate Round(rules: Rules, sys: System, steps: seq<Step>) {
    && Faithful(rules, sys, steps) && Work(rules, sys, steps) == 1 && Gains(rules, sys, steps) == 0
    && Workable(Run(rules, sys, steps).db, sys.present) && Run(rules, sys, steps).present == sys.present
  }

  lemma OneStepRound(rules: Rules, sys: System, step: Step)
    requires Works(sys, step) && Gain(rules, sys, step) == 0 && Obeys(sys.db, step)
    requires Workable(Apply(rules, sys, step).db, sys.present) && Apply(rules, sys, step).present == sys.present
    ensures Round(rules, sys, [step])
  {
    var next := Apply(rules, sys, step);
    FaithfulOne(rules, sys, step);
    assert [step][1..] == [];
    assert Run(rules, next, []) == next && Work(rules, next, []) == 0 && Gains(rules, next, []) == 0;
  }

  lemma CloseRound(rules: Rules, sys: System, b: Id)
    requires Workable(sys.db, sys.present) && CanClose(sys.db, b)
    ensures Round(rules, sys, [BatchClosed(b)])
  {
    WorkableStays(sys.db, CloseBatch(sys.db, b), sys.present);
    OneStepRound(rules, sys, BatchClosed(b));
  }

  /** The step starts a job or completes a stop. */
  predicate Moves(s: State, step: Step) {
    match step
    case JobStart(j, d) => CanStart(s, j, d)
    case StopCompleted(j, k, d) => CanCompleteStop(s, j, k, d)
    case _ => false
  }

  /** A job in use can always be moved along: started, or one of its stops completed. */
  lemma JobCanMove(s: State, j: Id) returns (step: Step)
    requires Inv(s) && j in s.jobs && Active(s.jobs[j])
    ensures Moves(s, step)
  {
    assert JobLinked(s, j);
    var d := s.jobs[j].delivererId.value;
    if s.jobs[j].status == JobStatus.Assigned {
      step := JobStart(j, d);
    } else {
      var k :| k in Unfinished(s, j);
      step := StopCompleted(j, k, d);
    }
  }

  lemma JobRound(rules: Rules, sys: System, j: Id) returns (steps: seq<Step>)
    requires SysInv(sys) && Workable(sys.db, sys.present) && j in sys.db.jobs && Active(sys.db.jobs[j])
    ensures Round(rules, sys, steps)
  {
    var step := JobCanMove(sys.db, j);
    hide Inv;
    steps := [step];
    match step
    case JobStart(i, d) => StartRound(rules, sys, i, d);
    case StopCompleted(i, k, d) => StopRound(rules, sys, i, k, d);
  }

  lemma StartRound(rules: Rules, sys: System, j: Id, d: Id)
    requires Workable(sys.db, sys.present) && CanStart(sys.db, j, d)
    ensures Round(rules, sys, [JobStart(j, d)])
  {
    WorkableStays(sys.db, StartJob(sys.db, j, d).state, sys.present);
    hide Workable;
    OneStepRound(rules, sys, JobStart(j, d));
  }

  lemma StopRound(rules: Rules, sys: System, j: Id, k: Id, d: Id)
    requires Workable(sys.db, sys.present) && CanCompleteStop(sys.db, j, k, d)
    ensures Round(rules, sys, [StopCompleted(j, k, d)])
  {
    hide Workable, CompleteStop;
    StopWorkable(sys.db, sys.present, j, k, d);
    OneStepRound(rules, sys, StopCompleted(j, k, d));
  }

  lemma StopWorkable(s: State, present: set<Id>, j: Id, k: Id, d: Id)
    requires Workable(s, present) && CanCompleteStop(s, j, k, d)
    ensures Workable(CompleteStop(s, j, k, d).state, present)
  {
    WorkableStays(s, CompleteStop(s, j, k, d).state, present);
  }

  /** The oldest batch without a deliverer can go: its message is the one that is sent again. */
  lemma AssignRound(rules: Rules, sys: System, b: Id, d: Id) returns (steps: seq<Step>)
    requires SysInv(sys) && Workable(sys.db, sys.present) && Unassigned(sys.db, b) && Listed(sys, d)
    requires Older(sys.db, b) == {}
    ensures Round(rules, sys, steps)
  {
    var route := RouteOf(sys.db, sys.present, b);
    hide *;
    FewOlderAreSendable(sys.db, b);
    var take := SnapshotTaken(0, b, route, d);
    var queued := Apply(rules, sys, Requeued(b));
    var ready := Apply(rules, queued, take);
    ReadyToCommit(rules, sys, b, route, d);
    QueueIsNoMatter(sys, ready);
    var commit := CommitRound(rules, ready, 0);
    IdleStep(rules, queued, take);
    IdleStep(rules, sys, Requeued(b));
    RoundAfter(rules, queued, take, [commit]);
    RoundAfter(rules, sys, Requeued(b), [take] + [commit]);
    steps := [Requeued(b)] + ([take] + [commit]);
  }

  /** A message or a read is no work. */
  lemma IdleStep(rules: Rules, sys: System, step: Step)
    requires if step.Requeued? then Sendable(sys.db, step.b) else step.SnapshotTaken?
    ensures Obeys(sys.db, step) && !Works(sys, step) && Gain(rules, sys, step) == 0
    ensures Apply(rules, sys, step).present == sys.present
  {
  }

  lemma CommitRound(rules: Rules, sys: System, w: Id) returns (commit: Step)
    requires Workable(sys.db, sys.present) && w in sys.workers
    requires Unassigned(sys.db, sys.workers[w].batchId) && Idle(sys.db, sys.workers[w].delivererId)
    ensures Round(rules, sys, [commit])
  {
    var snap := sys.workers[w];
    var newJob := FreshAbove(sys.db.jobs.Keys);
    var base := FreshAbove(sys.db.stops.Keys);
    commit := AssignmentCommitted(w, newJob, base);
    hide Workable, Round, Assign;
    AssignWorkable(sys.db, sys.present, snap.batchId, snap.route, snap.delivererId, newJob, base);
    OneStepRound(rules, sys, commit);
  }

  /** Under `Workable` every listing of a batch starts with a pickup point. */
  lemma RouteOf(s: State, present: set<Id>, b: Id) returns (route: seq<Id>)
    requires Inv(s) && Workable(s, present) && Unassigned(s, b)
    ensures IsRoute(s.orders, s.batches[b].orders, route) && Located(s, route)
  {
    assert BatchRef(s, b);
    route := SortByReady(s.orders, s.batches[b].orders);
    SortRoutes(s.orders, s.batches[b].orders);
    assert route[0] in route;
  }

  lemma QueueIsNoMatter(sys: System, ready: System)
    requires Workable(sys.db, sys.present) && ready.db == sys.db.(queue := ready.db.queue)
    ensures Workable(ready.db, sys.present)
  {
  }

  /** A step that neither works nor brings work, in front of a round. */
  lemma RoundAfter(rules: Rules, sys: System, step: Step, rest: seq<Step>)
    requires Obeys(sys.db, step) && !Works(sys, step) && Gain(rules, sys, step) == 0
    requires Apply(rules, sys, step).present == sys.present && Round(rules, Apply(rules, sys, step), rest)
    ensures Round(rules, sys, [step] + rest)
  {
    hide Apply, Workable, Obeys, Works, Gain;
    assert ([step] + rest)[1..] == rest;
    RunUnfolds(rules, sys, [step] + rest);
  }

  /** Whatever has happened to its messages, a waiting batch can be requeued and read again. */
  lemma ReadyToCommit(rules: Rules, sys: System, b: Id, route: seq<Id>, d: Id)
    requires Unassigned(sys.db, b) && Listed(sys, d)
    requires IsRoute(sys.db.orders, sys.db.batches[b].orders, route) && Located(sys.db, route)
    ensures var s, ready := sys.db, Apply(rules, Apply(rules, sys, Requeued(b)), SnapshotTaken(0, b, route, d));
      && ready == sys.(db := s.(queue := s.queue + multiset{b}), workers := sys.workers[0 := Snapshot(b, route, d)])
      && Unassigned(ready.db, b) && Idle(ready.db, d)
  {
    hide IsRoute;
    assert Apply(rules, sys, Requeued(b)) == sys.(db := sys.db.(queue := sys.db.queue + multiset{b}));
  }

  lemma RunUnfolds(rules: Rules, sys: System, steps: seq<Step>)
    requires steps != []
    ensures var next := Apply(rules, sys, steps[0]);
      && (Faithful(rules, sys, steps) <==> Obeys(sys.db, steps[0]) && Faithful(rules, next, steps[1..]))
      && Run(rules, sys, steps) == Run(rules, next, steps[1..])
      && Work(rules, sys, steps) == (if Works(sys, steps[0]) then 1 else 0) + Work(rules, next, steps[1..])
      && Gains(rules, sys, steps) == Gain(rules, sys, steps[0]) + Gains(rules, next, steps[1..])
  {
  }

  lemma AssignWorkable(s: State, present: set<Id>, b: Id, route: seq<Id>, d: Id, newJob: Id, base: Id)
    requires Workable(s, present)
    ensures Workable(Assign(s, b, route, d, newJob, base).state, present)
  {
    if Unassigned(s, b) && Idle(s, d) {
      WorkableStays(s, AssignTo(s, b, route, d, UpsertTarget(s.jobs, b, newJob), base), present);
    }
  }

  lemma OldestUnassigned(s: State, b: Id) returns (oldest: Id)
    requires Unassigned(s, b)
    ensures Unassigned(s, oldest) && Older(s, oldest) == {}
  {
    var ids := set c | c in s.batches && Unassigned(s, c);
    assert b in ids;
    oldest := Oldest(s, ids);
  }

  /** While a batched order waits, some piece of work can be done. */
  lemma WorkIsPossible(rules: Rules, sys: System, o: Id) returns (steps: seq<Step>)
    requires SysInv(sys) && Workable(sys.db, sys.present) && Waiting(sys.db, o)
    ensures Round(rules, sys, steps)
  {
    var s := sys.db;
    var b := s.orders[o].batchId.value;
    assert OrderRef(s, o) && BatchLinked(s, b) && OrderPhase(s, o);
    if s.batches[b].status == JobStatus.Pending {
      CloseRound(rules, sys, b);
      steps := [BatchClosed(b)];
    } else if Unassigned(s, b) {
      var d :| d in s.deliverers && d in sys.present;
      if s.deliverers[d].activeJobId.None? {
        var oldest := OldestUnassigned(s, b);
        steps := AssignRound(rules, sys, oldest, d);
      } else {
        assert DelivererLinked(s, d);
        steps := JobRound(rules, sys, s.deliverers[d].activeJobId.value);
      }
    } else {
      var j := JobFor(s.jobs, b);
      assert JobLinked(s, j) && OwnedOrder(s.orders[o], j, s.jobs[j]);
      steps := JobRound(rules, sys, j);
    }
  }

  lemma {:induction false} GainsSplit(rules: Rules, sys: System, first: seq<Step>, second: seq<Step>)
    ensures Gains(rules, sys, first + second)
            == Gains(rules, sys, first) + Gains(rules, Run(rules, sys, first), second)
    decreases |first|
  {
    hide Apply, Gain;
    if first == [] {
      assert first + second == second;
    } else {
      assert (first + second)[1..] == first[1..] + second;
      GainsSplit(rules, Apply(rules, sys, first[0]), first[1..], second);
    }
  }

  /**
   From every state that satisfies the invariant, with whatever messages lost and workers gone, the
   run can go on, without new orders or recoveries and with no message sent that the services would
   not send, until every batched order is delivered.
   */
  lemma {:induction false} EverythingCanBeDelivered(rules: Rules, sys: System) returns (steps: seq<Step>)
    requires SysInv(sys) && Workable(sys.db, sys.present)
    ensures Faithful(rules, sys, steps) && Gains(rules, sys, steps) == 0
    ensures SysInv(Run(rules, sys, steps)) && Evolves(sys.db, Run(rules, sys, steps).db)
    ensures Run(rules, sys, steps).present == sys.present
    ensures forall o :: !Waiting(Run(rules, sys, steps).db, o)
    decreases Total(sys.db)
  {
    hide SysInv, Workable, Total, Waiting, Evolves, Apply, Works, Gain;
    if exists o :: Waiting(sys.db, o) {
      var o :| Waiting(sys.db, o);
      var first := WorkIsPossible(rules, sys, o);
      var next := Run(rules, sys, first);
      RunKeepsSysInv(rules, sys, first);
      RunAccounts(rules, sys, first);
      var second := EverythingCanBeDelivered(rules, next);
      steps := first + second;
      RunConcat(rules, sys, first, second);
      FaithfulConcat(rules, sys, first, second);
      GainsSplit(rules, sys, first, second);
    } else {
      steps := [];
      assert Run(rules, sys, steps) == sys;
    }
    RunKeepsSysInv(rules, sys, steps);
  }

  /**
   Over any run the work done is at most what there was and what came, and it is all of that exactly when
   no batched order waits at the end.
   */
  lemma WorkRunsOut(rules: Rules, sys: System, steps: seq<Step>)
    requires SysInv(sys)
    ensures Work(rules, sys, steps) <= Total(sys.db) + Gains(rules, sys, steps)
    ensures Work(rules, sys, steps) == Total(sys.db) + Gains(rules, sys, steps)
      <==> forall o :: !Waiting(Run(rules, sys, steps).db, o)
  {
    RunAccounts(rules, sys, steps);
    RunKeepsSysInv(rules, sys, steps);
    hide Inv, Total, Waiting;
    NothingLeftIff(Run(rules, sys, steps).db);
  }

  /** There is work left exactly while a batched order waits. */
  lemma NothingLeftIff(s: State)
    requires Inv(s)
    ensures Total(s) == 0 <==> forall o :: !Waiting(s, o)
  {
    hide Inv;
    if Total(s) == 0 {
      forall o ensures !Waiting(s, o) {
        if Waiting(s, o) { WaitingCosts(s, o); }
      }
    } else if forall o :: !Waiting(s, o) {
      forall b | b in s.batches ensures Rank(s, b) == 0 {
        DeliveredBatchIsDone(s, b);
      }
      ZeroSum(Ranks(s));
    }
  }

  lemma {:induction false} ZeroSum(m: map<Id, nat>)
    requires forall k :: k in m ==> m[k] == 0
    ensures Sum(m) == 0
    decreases |m|
  {
    if m != map[] {
      var k :| k in m && Sum(m) == m[k] + Sum(m - {k});
      ZeroSum(m - {k});
    }
  }

  /** A batch none of whose orders waits has been completed. */
  lemma DeliveredBatchIsDone(s: State, b: Id)
    requires Inv(s) && b in s.batches && forall o :: !Waiting(s, o)
    ensures Rank(s, b) == 0
  {
    var o := s.batches[b].orders[0];
    assert BatchRef(s, b) && BatchLinked(s, b) && o in s.batches[b].orders && !Waiting(s, o);
    assert OrderPhase(s, o) && HasJob(s.jobs, b);
    var j := JobFor(s.jobs, b);
    assert JobLinked(s, j) && OwnedOrder(s.orders[o], j, s.jobs[j]);
    if s.jobs[j].status == JobStatus.InProgress {
      StartedJobWaits(s, j);
    }
  }

  lemma StartedJobWaits(s: State, j: Id)
    requires Inv(s) && j in s.jobs && s.jobs[j].status == JobStatus.InProgress
    ensures exists o :: Waiting(s, o)
  {
    var k :| k in Unfinished(s, j);
    StopMember(s, k);
    assert StopPhase(s, k) && Waiting(s, s.stops[k].orderId);
  }

  function Flat(rounds: seq<seq<Step>>): seq<Step> {
    if rounds == [] then [] else rounds[0] + Flat(rounds[1..])
  }

  /** Rounds that bring nothing new and, while a batched order waits, do at least one piece of work each. */
  ghost predicate Busy(rules: Rules, sys: System, rounds: seq<seq<Step>>)
    decreases |rounds|
  {
    rounds != [] ==>
      && Gains(rules, sys, rounds[0]) == 0
      && ((exists o :: Waiting(sys.db, o)) ==> Work(rules, sys, rounds[0]) > 0)
      && Busy(rules, Run(rules, sys, rounds[0]), rounds[1..])
  }

  /**
   Whoever schedules: from the last gain on, as many busy rounds as there is work left deliver every
   batched order, however the rounds interleave and whatever else happens in them.
   */
  lemma {:induction false} BusyRoundsDeliver(rules: Rules, sys: System, rounds: seq<seq<Step>>)
    requires SysInv(sys) && Busy(rules, sys, rounds) && |rounds| >= Total(sys.db)
    ensures forall o :: !Waiting(Run(rules, sys, Flat(rounds)).db, o)
    decreases |rounds|
  {
    hide Inv, Total, Waiting, Apply, Works, Gain;
    NothingLeftIff(sys.db);
    if rounds != [] {
      var next := Run(rules, sys, rounds[0]);
      RunAccounts(rules, sys, rounds[0]);
      RunKeepsSysInv(rules, sys, rounds[0]);
      RunConcat(rules, sys, rounds[0], Flat(rounds[1..]));
      BusyRoundsDeliver(rules, next, rounds[1..]);
    }
  }

  /** A waiting order's batch has work left. */
  lemma WaitingCosts(s: State, o: Id)
    requires Inv(s) && Waiting(s, o)
    ensures Total(s) > 0
  {
    var b := s.orders[o].batchId.value;
    assert OrderRef(s, o) && BatchRef(s, b) && BatchLinked(s, b) && OrderPhase(s, o);
    if HasJob(s.jobs, b) {
      var j := JobFor(s.jobs, b);
      assert JobLinked(s, j) && OwnedOrder(s.orders[o], j, s.jobs[j]);
      if s.jobs[j].status == JobStatus.InProgress { assert |Unfinished(s, j)| > 0; }
    }
    assert Rank(s, b) > 0;
    SumSplits(Ranks(s), b);
  }
}
