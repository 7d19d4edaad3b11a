/** Assignment, start, stop completion and recovery keep the invariant. */
module JobSteps {
  import opened Types
  import opened Transactions
  import opened Invariant

  // ---------------------------------------------------------------- preservation: assignment

  /** Job `j` is the row that an upsert for batch `b` writes. */
  ghost predicate Upserts(s: State, b: Id, j: Id) {
    if HasJob(s.jobs, b) then j in s.jobs && s.jobs[j].batchId == b else j !in s.jobs
  }

  /** The job, batch and deliverer rows written by an assignment. */
  ghost predicate Claimed(s: State, s': State, b: Id, n: nat, d: Id, j: Id) {
    && Unassigned(s, b) && Idle(s, d) && Upserts(s, b, j)
    && s'.jobs == s.jobs[j := Job(Some(d), b, JobStatus.Assigned, n)]
    && s'.batches == s.batches[b := s.batches[b].(delivererId := Some(d))]
    && s'.deliverers == s.deliverers[d := Deliverer(false, Some(j))]
  }

  lemma AssignRefs(s: State, s': State, b: Id, n: nat, d: Id, j: Id, base: Id, route: seq<Id>)
    requires Refs(s) && Claimed(s, s', b, n, d, j)
    requires s'.orders == AssignOrders(s.orders, b, d, j)
    requires s'.stops == RebuildStops(s, j, route, base)
    ensures Refs(s')
  {
    AssignMembers(s, s', b, d, j);
    hide OrderRef, BatchRef, AssignOrders;
  }

  lemma AssignMembers(s: State, s': State, b: Id, d: Id, j: Id)
    requires Refs(s) && b in s.batches
    requires s'.orders == AssignOrders(s.orders, b, d, j)
    requires s'.batches == s.batches[b := s.batches[b].(delivererId := Some(d))]
    ensures forall o :: o in s'.orders ==> OrderRef(s', o)
    ensures forall c :: c in s'.batches ==> BatchRef(s', c)
  {
    hide UniqueBatch;
    forall o | o in s'.orders ensures OrderRef(s', o) {
      assert OrderRef(s, o);
    }
    forall c | c in s'.batches ensures BatchRef(s', c) {
      assert BatchRef(s, c);
    }
  }

  lemma ClaimKeepsJobs(s: State, s': State, b: Id, n: nat, d: Id, j: Id)
    requires Refs(s) && Claimed(s, s', b, n, d, j)
    ensures forall c :: HasJob(s'.jobs, c) <==> HasJob(s.jobs, c) || c == b
  {
    assert s'.jobs[j].batchId == b;
    forall c | HasJob(s.jobs, c) ensures HasJob(s'.jobs, c) {
      assert s'.jobs[JobFor(s.jobs, c)].batchId == c;
    }
  }

  lemma AssignLinks(s: State, s': State, b: Id, n: nat, d: Id, j: Id)
    requires Refs(s) && Links(s) && Claimed(s, s', b, n, d, j) && Refs(s')
    ensures Links(s')
  {
    hide OrderRef, BatchRef;
    ClaimKeepsJobs(s, s', b, n, d, j);
    forall c | c in s'.batches ensures BatchLinked(s', c) {
      assert BatchLinked(s, c);
    }
    forall i | i in s'.jobs ensures JobLinked(s', i) {
      if i != j { assert JobLinked(s, i); }
    }
    forall e | e in s'.deliverers ensures DelivererLinked(s', e) {
      assert DelivererLinked(s, e);
    }
  }

  lemma AssignStatuses(s: State, s': State, b: Id, n: nat, d: Id, j: Id)
    requires Refs(s) && Links(s) && Statuses(s) && Claimed(s, s', b, n, d, j) && Refs(s')
    requires s'.orders == AssignOrders(s.orders, b, d, j)
    ensures Statuses(s')
  {
    hide BatchRef, OrderRef, DelivererLinked, JobLinked;
    ClaimKeepsJobs(s, s', b, n, d, j);
    forall o | o in s'.orders ensures OrderPhase(s', o) {
      assert OrderPhase(s, o);
    }
  }

  lemma NewRoute(s: State, s': State, b: Id, n: nat, d: Id, j: Id, base: Id, route: seq<Id>)
    requires Refs(s) && FreshStopIds(s, base) && Claimed(s, s', b, n, d, j) && n == |route|
    requires s'.orders == AssignOrders(s.orders, b, d, j)
    requires s'.stops == RebuildStops(s, j, route, base)
    requires IsRoute(s.orders, s.batches[b].orders, route)
    ensures Routed(s', j, base, route)
  {
    NewStopsFollow(s, j, base, route);
    hide RebuildStops, StopsFollow, Refs;
    assert forall o :: ReadyTime(s'.orders, o) == ReadyTime(s.orders, o);
  }

  lemma NewStopsFollow(s: State, j: Id, base: Id, route: seq<Id>)
    requires FreshStopIds(s, base)
    ensures StopsFollow(RebuildStops(s, j, route, base), j, base, route)
  {
    var added, stops := NewStops(s.orders, j, route, base), RebuildStops(s, j, route, base);
    assert forall k: Id :: base <= k < base + |route| ==>
        k in added && added[k] == NewStop(s.orders, j, route, base, k);
    assert forall k: Id :: k in stops && stops[k].jobId == j ==> k in added && stops[k] == added[k];
  }

  /** Rebuilding the stops of `j` touches no other job's stops. */
  ghost predicate Rebuilt(s: State, s': State, j: Id) {
    && (forall k :: k in s.stops && s.stops[k].jobId != j ==> k in s'.stops && s'.stops[k] == s.stops[k])
    && (forall k :: k in s'.stops ==>
          if s'.stops[k].jobId == j then s'.stops[k].status == JobStatus.Pending
          else k in s.stops && s'.stops[k] == s.stops[k])
  }

  lemma RebuildIsLocal(s: State, s': State, j: Id, base: Id, route: seq<Id>)
    requires FreshStopIds(s, base) && s'.stops == RebuildStops(s, j, route, base)
    ensures Rebuilt(s, s', j)
  {
  }

  lemma AssignRoutes(s: State, s': State, b: Id, n: nat, d: Id, j: Id, base: Id, route: seq<Id>)
    requires Inv(s) && Claimed(s, s', b, n, d, j) && Rebuilt(s, s', j) && Refs(s')
    requires s'.orders == AssignOrders(s.orders, b, d, j)
    requires Routed(s', j, base, route)
    ensures Routes(s')
  {
    hide Routed, OrderRef, Links, Statuses, StopPhases, StartedHasWork;
    forall i | i in s.jobs && i != j && s.jobs[i].status != JobStatus.Pending
      ensures exists base, route :: Routed(s', i, base, route)
    {
      RouteStays(s, s', i);
    }
  }

  lemma AssignStopPhases(s: State, s': State, b: Id, n: nat, d: Id, j: Id)
    requires Inv(s) && Claimed(s, s', b, n, d, j) && Rebuilt(s, s', j) && Refs(s')
    requires s'.orders == AssignOrders(s.orders, b, d, j)
    ensures StopPhases(s')
  {
    hide StopPhase, OrderRef, BatchRef, Links, Statuses, StartedHasWork, Routes, AssignOrders;
    forall k | k in s'.stops ensures StopPhase(s', k) {
      if s'.stops[k].jobId == j {
        FreshStopPhase(s', k);
      } else {
        assert k in s.stops && s'.stops[k] == s.stops[k] && StopPhase(s, k);
        OtherStopPhase(s, s', b, d, j, k);
      }
    }
  }

  lemma FreshStopPhase(s: State, k: Id)
    requires k in s.stops && s.stops[k].jobId in s.jobs && s.jobs[s.stops[k].jobId].status == JobStatus.Assigned
    requires s.stops[k].status == JobStatus.Pending
    ensures StopPhase(s, k)
  {
  }

  /** A stop of another job, whose orders are in another batch. */
  lemma OtherStopPhase(s: State, s': State, b: Id, d: Id, j: Id, k: Id)
    requires Refs(s) && Routes(s) && Upserts(s, b, j) && k in s.stops && s.stops[k].jobId != j && StopPhase(s, k)
    requires k in s'.stops && s'.stops[k] == s.stops[k]
    requires s.stops[k].jobId in s'.jobs && s'.jobs[s.stops[k].jobId] == s.jobs[s.stops[k].jobId]
    requires s'.orders == AssignOrders(s.orders, b, d, j)
    ensures StopPhase(s', k)
  {
    hide Routes, OrderRef, BatchRef;
    if s.jobs[s.stops[k].jobId].status != JobStatus.Pending { StopMember(s, k); }
  }

  lemma AssignUnfinished(s: State, s': State, b: Id, n: nat, d: Id, j: Id)
    requires Inv(s) && Claimed(s, s', b, n, d, j) && Rebuilt(s, s', j)
    ensures StartedHasWork(s')
  {
    forall i | i in s'.jobs && s'.jobs[i].status == JobStatus.InProgress ensures Unfinished(s', i) != {} {
      var k :| k in Unfinished(s, i);
      assert k in Unfinished(s', i);
    }
  }

  lemma AssignKeepsInv(s: State, b: Id, route: seq<Id>, d: Id, newJob: Id, base: Id)
    requires Inv(s) && newJob !in s.jobs && FreshStopIds(s, base)
    requires b in s.batches && IsRoute(s.orders, s.batches[b].orders, route)
    ensures Inv(Assign(s, b, route, d, newJob, base).state)
  {
    if Unassigned(s, b) && Idle(s, d) {
      var j, n := UpsertTarget(s.jobs, b, newJob), |route|;
      var s' := AssignTo(s, b, route, d, j, base);
      AssignRefs(s, s', b, n, d, j, base, route);
      AssignLinks(s, s', b, n, d, j);
      AssignStatuses(s, s', b, n, d, j);
      RebuildIsLocal(s, s', j, base, route);
      NewRoute(s, s', b, n, d, j, base, route);
      AssignRoutes(s, s', b, n, d, j, base, route);
      AssignStopPhases(s, s', b, n, d, j);
      AssignUnfinished(s, s', b, n, d, j);
    }
  }

  // ---------------------------------------------------------------- preservation: steps that keep every row

  /** No row appears or disappears, and no membership, route or owner-independent column changes. */
  ghost predicate SameShape(s: State, s': State) {
    && s'.orders.Keys == s.orders.Keys
    && (forall o :: o in s.orders ==>
          s'.orders[o].batchId == s.orders[o].batchId && s'.orders[o].readyAt == s.orders[o].readyAt)
    && s'.batches.Keys == s.batches.Keys
    && (forall b :: b in s.batches ==> s'.batches[b].orders == s.batches[b].orders)
    && s'.jobs.Keys == s.jobs.Keys
    && (forall j :: j in s.jobs ==>
          s'.jobs[j].batchId == s.jobs[j].batchId && s'.jobs[j].totalOrders == s.jobs[j].totalOrders)
    && s'.stops.Keys == s.stops.Keys
    && (forall k :: k in s.stops ==>
          && s'.stops[k].jobId == s.stops[k].jobId && s'.stops[k].orderId == s.stops[k].orderId
          && s'.stops[k].sequence == s.stops[k].sequence)
  }

  lemma ShapeKeepsRefs(s: State, s': State)
    requires Refs(s) && SameShape(s, s')
    ensures Refs(s')
    ensures forall b :: HasJob(s'.jobs, b) <==> HasJob(s.jobs, b)
  {
    forall o | o in s'.orders ensures OrderRef(s', o) {
      assert OrderRef(s, o);
    }
    forall b | b in s'.batches ensures BatchRef(s', b) {
      assert BatchRef(s, b);
    }
    forall b | HasJob(s.jobs, b) ensures HasJob(s'.jobs, b) {
      assert s'.jobs[JobFor(s.jobs, b)].batchId == b;
    }
    forall b | HasJob(s'.jobs, b) ensures HasJob(s.jobs, b) {
      assert s.jobs[JobFor(s'.jobs, b)].batchId == b;
    }
  }

  lemma ShapeKeepsRoutes(s: State, s': State)
    requires Refs(s) && Routes(s) && SameShape(s, s') && Refs(s')
    requires forall j :: j in s.jobs && s.jobs[j].status == JobStatus.Pending ==> s'.jobs[j].status == JobStatus.Pending
    ensures Routes(s')
  {
    hide Routed, OrderRef, NoDuplicates;
    forall j | j in s.jobs && s.jobs[j].status != JobStatus.Pending
      ensures exists base, route :: Routed(s', j, base, route)
    {
      assert BatchRef(s, s.jobs[j].batchId);
      RouteStays(s, s', j);
    }
  }

  // -- start

  lemma StartKeepsInv(s: State, j: Id, d: Id)
    requires Inv(s)
    ensures Inv(StartJob(s, j, d).state)
  {
    hide Refs, Links, Statuses, Routes, StopPhases, StartedHasWork;
    if CanStart(s, j, d) {
      var s' := StartJob(s, j, d).state;
      ShapeKeepsRefs(s, s');
      StartLinks(s, s', j, d);
      StartStatuses(s, s', j, d);
      ShapeKeepsRoutes(s, s');
      StartStops(s, s', j, d);
    }
  }

  lemma StartLinks(s: State, s': State, j: Id, d: Id)
    requires Refs(s) && Links(s) && CanStart(s, j, d) && s' == StartJob(s, j, d).state && Refs(s')
    requires forall b :: HasJob(s'.jobs, b) <==> HasJob(s.jobs, b)
    ensures Links(s')
  {
    forall e | e in s'.deliverers ensures DelivererLinked(s', e) {
      assert DelivererLinked(s, e);
    }
    forall i | i in s'.jobs ensures JobLinked(s', i) {
      assert JobLinked(s, i);
    }
    forall b | b in s'.batches ensures BatchLinked(s', b) {
      assert BatchLinked(s, b);
    }
  }

  lemma StartStatuses(s: State, s': State, j: Id, d: Id)
    requires Refs(s) && Links(s) && Statuses(s) && CanStart(s, j, d) && s' == StartJob(s, j, d).state
    requires forall b :: HasJob(s'.jobs, b) <==> HasJob(s.jobs, b)
    ensures Statuses(s')
  {
    hide NoDuplicates, DelivererLinked, BatchLinked, BatchRef, OrderRef, HasJob;
    forall o | o in s'.orders ensures OrderPhase(s', o) {
      assert OrderPhase(s, o);
    }
  }

  lemma StartStops(s: State, s': State, j: Id, d: Id)
    requires Inv(s) && CanStart(s, j, d) && s' == StartJob(s, j, d).state && Refs(s')
    ensures StopPhases(s')
    ensures StartedHasWork(s')
  {
    StartPhases(s, s', j, d);
    FreshJobHasWork(s, j);
    hide Refs, Links, Statuses, Routes, StopPhases, SetOrdersOfJob;
    forall i | i in s'.jobs && s'.jobs[i].status == JobStatus.InProgress ensures Unfinished(s', i) != {} {
      assert Unfinished(s', i) == Unfinished(s, i);
    }
  }

  lemma StartPhases(s: State, s': State, j: Id, d: Id)
    requires Refs(s) && Statuses(s) && Routes(s) && StopPhases(s)
    requires CanStart(s, j, d) && s' == StartJob(s, j, d).state && Refs(s')
    ensures StopPhases(s')
  {
    hide Routes, OrderRef, BatchRef, UniqueBatch, HasJob;
    forall k | k in s'.stops ensures StopPhase(s', k) {
      assert StopPhase(s, k);
      var i := s.stops[k].jobId;
      if s.jobs[i].status != JobStatus.Pending {
        StopMember(s, k);
        assert OrderPhase(s, s.stops[k].orderId);
      }
    }
  }

  /** An assigned job has an unfinished stop. */
  lemma FreshJobHasWork(s: State, j: Id)
    requires Refs(s) && Routes(s) && StopPhases(s) && j in s.jobs && s.jobs[j].status == JobStatus.Assigned
    ensures Unfinished(s, j) != {}
  {
    hide Routes;
    assert BatchRef(s, s.jobs[j].batchId);
    var k := MemberHasStop(s, j, s.batches[s.jobs[j].batchId].orders[0]);
    assert StopPhase(s, k);
    assert k in Unfinished(s, j);
  }

  // -- stops

  lemma StopDoneShape(s: State, j: Id, k: Id, d: Id)
    requires CanCompleteStop(s, j, k, d)
    ensures SameShape(s, StopDone(s, k))
  {
  }

  lemma StopDonePhases(s: State, s': State, j: Id, k: Id, d: Id)
    requires Inv(s) && CanCompleteStop(s, j, k, d) && s' == StopDone(s, k) && Refs(s')
    ensures StopPhases(s')
  {
    hide Routes, OrderRef, BatchRef, DelivererLinked, JobLinked, BatchLinked, OrderPhase, StartedHasWork, UniqueBatch;
    StopMember(s, k);
    forall l | l in s'.stops ensures StopPhase(s', l) {
      assert StopPhase(s, l);
      if l != k && s.jobs[s.stops[l].jobId].status != JobStatus.Pending {
        OtherOrder(s, k, l);
      }
    }
  }

  /** Two stops of jobs in use serve different orders, in one job or in two. */
  lemma OtherOrder(s: State, k: Id, l: Id)
    requires Refs(s) && Routes(s) && k in s.stops && l in s.stops && k != l
    requires s.jobs[s.stops[k].jobId].status != JobStatus.Pending
    requires s.jobs[s.stops[l].jobId].status != JobStatus.Pending
    ensures s.stops[k].orderId != s.stops[l].orderId
  {
    hide Routes, OrderRef, BatchRef;
    StopMember(s, k);
    StopMember(s, l);
    if s.stops[k].jobId == s.stops[l].jobId { StopsDiffer(s, k, l); }
  }

  lemma StopDoneStatuses(s: State, s': State, j: Id, k: Id, d: Id)
    requires Inv(s) && CanCompleteStop(s, j, k, d) && s' == StopDone(s, k)
    requires forall b :: HasJob(s'.jobs, b) <==> HasJob(s.jobs, b)
    ensures Statuses(s')
  {
    StopMember(s, k);
    forall o | o in s'.orders ensures OrderPhase(s', o) {
      assert OrderPhase(s, o);
    }
  }

  lemma StopDoneLinks(s: State, s': State, j: Id, k: Id, d: Id)
    requires Inv(s) && CanCompleteStop(s, j, k, d) && s' == StopDone(s, k) && Refs(s')
    ensures Links(s')
  {
    forall e | e in s'.deliverers ensures DelivererLinked(s', e) {
      assert DelivererLinked(s, e);
    }
    forall i | i in s'.jobs ensures JobLinked(s', i) {
      assert JobLinked(s, i);
    }
    forall b | b in s'.batches ensures BatchLinked(s', b) {
      assert BatchLinked(s, b);
    }
  }

  /** Everything but the clause that a started job has work left. */
  ghost predicate InvButIdle(s: State, j: Id) {
    && Refs(s) && Links(s) && Statuses(s) && Routes(s) && StopPhases(s)
    && (forall i :: i in s.jobs && i != j && s.jobs[i].status == JobStatus.InProgress ==> Unfinished(s, i) != {})
  }

  lemma StopDoneUnfinished(s: State, s': State, j: Id, k: Id, d: Id)
    requires StartedHasWork(s) && CanCompleteStop(s, j, k, d) && s' == StopDone(s, k)
    ensures Unfinished(s', j) == Unfinished(s, j) - {k}
    ensures forall i :: i in s'.jobs && i != j && s'.jobs[i].status == JobStatus.InProgress ==> Unfinished(s', i) != {}
  {
    forall i | i in s'.jobs && i != j && s'.jobs[i].status == JobStatus.InProgress ensures Unfinished(s', i) != {} {
      var l :| l in Unfinished(s, i);
      assert l in Unfinished(s', i);
    }
  }

  lemma StopDoneKeepsInv(s: State, j: Id, k: Id, d: Id)
    requires Inv(s) && CanCompleteStop(s, j, k, d)
    ensures InvButIdle(StopDone(s, k), j)
    ensures Unfinished(StopDone(s, k), j) == Unfinished(s, j) - {k}
  {
    hide Refs, Links, Statuses, Routes, StopPhases, StartedHasWork;
    var s' := StopDone(s, k);
    StopDoneShape(s, j, k, d);
    ShapeKeepsRefs(s, s');
    ShapeKeepsRoutes(s, s');
    StopDonePhases(s, s', j, k, d);
    StopDoneStatuses(s, s', j, k, d);
    StopDoneLinks(s, s', j, k, d);
    StopDoneUnfinished(s, s', j, k, d);
  }

  lemma FinishLinks(s: State, s': State, j: Id, d: Id)
    requires Refs(s) && Links(s) && CanFinish(s, j, d) && s.jobs[j].delivererId == Some(d)
    requires s' == FinishJob(s, j, d) && Refs(s')
    requires forall b :: HasJob(s'.jobs, b) <==> HasJob(s.jobs, b)
    ensures Links(s')
  {
    assert JobLinked(s, j);
    forall e | e in s'.deliverers ensures DelivererLinked(s', e) {
      assert DelivererLinked(s, e);
    }
    forall i | i in s'.jobs ensures JobLinked(s', i) {
      assert JobLinked(s, i);
    }
    forall b | b in s'.batches ensures BatchLinked(s', b) {
      assert BatchLinked(s, b);
    }
  }

  lemma FinishStatuses(s: State, s': State, j: Id, d: Id)
    requires Refs(s) && Links(s) && Statuses(s) && CanFinish(s, j, d) && s' == FinishJob(s, j, d)
    requires forall b :: HasJob(s'.jobs, b) <==> HasJob(s.jobs, b)
    ensures Statuses(s')
  {
    hide NoDuplicates, DelivererLinked, BatchLinked, HasJob;
    forall o | o in s'.orders ensures OrderPhase(s', o) {
      assert OrderPhase(s, o);
    }
  }

  lemma FinishStops(s: State, s': State, j: Id, d: Id)
    requires InvButIdle(s, j) && Unfinished(s, j) == {} && CanFinish(s, j, d) && s' == FinishJob(s, j, d) && Refs(s')
    ensures StopPhases(s')
    ensures StartedHasWork(s')
  {
    FinishPhases(s, s', j, d);
    hide Refs, Links, Statuses, Routes, StopPhases, SetOrdersOfJob;
    forall i | i in s'.jobs && s'.jobs[i].status == JobStatus.InProgress ensures Unfinished(s', i) != {} {
      var k :| k in Unfinished(s, i);
      assert k in Unfinished(s', i);
    }
  }

  lemma FinishPhases(s: State, s': State, j: Id, d: Id)
    requires Refs(s) && Statuses(s) && Routes(s) && StopPhases(s) && Unfinished(s, j) == {}
    requires CanFinish(s, j, d) && s' == FinishJob(s, j, d) && Refs(s')
    ensures StopPhases(s')
  {
    hide Routes, OrderRef, BatchRef, UniqueBatch, HasJob;
    forall k | k in s'.stops ensures StopPhase(s', k) {
      assert StopPhase(s, k);
      if s.stops[k].jobId == j {
        assert k !in Unfinished(s, j);
      } else if s.jobs[s.stops[k].jobId].status != JobStatus.Pending {
        StopMember(s, k);
        assert OrderPhase(s, s.stops[k].orderId);
      }
    }
  }

  /** Under the invariant finishJob never throws, so the last stop always completes the job. */
  lemma LastStopFinishes(s: State, j: Id, k: Id, d: Id)
    requires Inv(s) && CanCompleteStop(s, j, k, d)
    ensures CanFinish(StopDone(s, k), j, d)
    ensures CompleteStop(s, j, k, d).outcome == Committed
    ensures CompleteStop(s, j, k, d).jobCompleted <==> Unfinished(s, j) == {k}
  {
    assert JobLinked(s, j);
    StopDoneKeepsInv(s, j, k, d);
    assert k in Unfinished(s, j);
    assert CanFinish(s, j, d);
    StopKeepsFinishable(s, j, k, d);
    hide Inv, StopDone, FinishJob;
  }

  lemma StopKeepsFinishable(s: State, j: Id, k: Id, d: Id)
    requires k in s.stops && CanFinish(s, j, d)
    ensures CanFinish(StopDone(s, k), j, d)
  {
  }

  lemma FinishKeepsInv(s: State, j: Id, d: Id)
    requires InvButIdle(s, j) && Unfinished(s, j) == {} && CanFinish(s, j, d) && s.jobs[j].delivererId == Some(d)
    ensures Inv(FinishJob(s, j, d))
  {
    hide Refs, Links, Statuses, Routes, StopPhases, StartedHasWork;
    var s' := FinishJob(s, j, d);
    ShapeKeepsRefs(s, s');
    FinishLinks(s, s', j, d);
    FinishStatuses(s, s', j, d);
    ShapeKeepsRoutes(s, s');
    FinishStops(s, s', j, d);
  }

  lemma CompleteStopKeepsInv(s: State, j: Id, k: Id, d: Id)
    requires Inv(s)
    ensures Inv(CompleteStop(s, j, k, d).state)
  {
    hide Refs, Links, Statuses, Routes, StopPhases;
    if CanCompleteStop(s, j, k, d) {
      StopDoneKeepsInv(s, j, k, d);
      LastStopFinishes(s, j, k, d);
      if Unfinished(s, j) == {k} {
        FinishKeepsInv(StopDone(s, k), j, d);
      }
    }
  }

  // -- recovery

  /** The sweeper's entry still describes the job, or the guard on the job row will refuse it. */
  ghost predicate EntryCurrent(s: State, d: Id, j: Id) {
    j in s.jobs && s.jobs[j].status == JobStatus.Assigned ==> s.jobs[j].delivererId == Some(d)
  }

  predicate CanRecover(s: State, d: Id, j: Id) {
    && d in s.deliverers && j in s.jobs && s.jobs[j].status == JobStatus.Assigned && s.jobs[j].batchId in s.batches
  }

  lemma RecoverLinks(s: State, s': State, d: Id, j: Id)
    requires Refs(s) && Links(s) && CanRecover(s, d, j) && s.jobs[j].delivererId == Some(d)
    requires s' == Recover(s, d, j).state && Refs(s')
    requires forall b :: HasJob(s'.jobs, b) <==> HasJob(s.jobs, b)
    ensures Links(s')
  {
    assert JobLinked(s, j);
    forall e | e in s'.deliverers ensures DelivererLinked(s', e) {
      assert DelivererLinked(s, e);
    }
    forall i | i in s'.jobs ensures JobLinked(s', i) {
      assert JobLinked(s, i);
    }
    forall b | b in s'.batches ensures BatchLinked(s', b) {
      assert BatchLinked(s, b);
    }
  }

  lemma RecoverStatuses(s: State, s': State, d: Id, j: Id)
    requires Refs(s) && Statuses(s) && CanRecover(s, d, j)
    requires s'.jobs == s.jobs[j := s.jobs[j].(status := JobStatus.Pending, delivererId := None)]
    requires s'.orders == ReleaseOrders(s.orders, j)
    requires forall b :: HasJob(s'.jobs, b) <==> HasJob(s.jobs, b)
    ensures Statuses(s')
  {
    hide BatchRef, OrderRef, UniqueBatch, HasJob;
    forall o | o in s'.orders ensures OrderPhase(s', o) {
      assert OrderPhase(s, o);
    }
  }

  lemma RecoverStops(s: State, s': State, d: Id, j: Id)
    requires Inv(s) && CanRecover(s, d, j) && s' == Recover(s, d, j).state && Refs(s')
    ensures StopPhases(s')
    ensures StartedHasWork(s')
  {
    RecoverPhases(s, s', d, j);
    hide Refs, Links, Statuses, Routes, StopPhases, ReleaseOrders;
    forall i | i in s'.jobs && s'.jobs[i].status == JobStatus.InProgress ensures Unfinished(s', i) != {} {
      var k :| k in Unfinished(s, i);
      assert k in Unfinished(s', i);
    }
  }

  lemma RecoverPhases(s: State, s': State, d: Id, j: Id)
    requires Refs(s) && Statuses(s) && Routes(s) && StopPhases(s)
    requires CanRecover(s, d, j) && s' == Recover(s, d, j).state && Refs(s')
    ensures StopPhases(s')
  {
    hide Routes, OrderRef, BatchRef, UniqueBatch, HasJob;
    forall k | k in s'.stops ensures StopPhase(s', k) {
      assert StopPhase(s, k);
      if s.stops[k].jobId != j && s.jobs[s.stops[k].jobId].status != JobStatus.Pending {
        StopMember(s, k);
        assert OrderPhase(s, s.stops[k].orderId);
      }
    }
  }

  lemma RecoverKeepsInv(s: State, d: Id, j: Id)
    requires Inv(s) && EntryCurrent(s, d, j)
    ensures Inv(Recover(s, d, j).state)
  {
    hide Refs, Links, Statuses, Routes, StopPhases, StartedHasWork;
    if CanRecover(s, d, j) {
      var s' := Recover(s, d, j).state;
      ShapeKeepsRefs(s, s');
      RecoverLinks(s, s', d, j);
      RecoverStatuses(s, s', d, j);
      ShapeKeepsRoutes(s, s');
      RecoverStops(s, s', d, j);
    }
  }

  /**
   recoverUnstartedJob clears a deliverer row without looking at it. For a deliverer that exists, that
   is harmless exactly when the job is no longer ASSIGNED, or is assigned to that very deliverer.
   */
  lemma RecoverIsSafeIff(s: State, d: Id, j: Id)
    requires Inv(s) && d in s.deliverers
    ensures Inv(Recover(s, d, j).state) <==> EntryCurrent(s, d, j)
  {
    if EntryCurrent(s, d, j) {
      RecoverKeepsInv(s, d, j);
    } else {
      var s' := Recover(s, d, j).state;
      assert JobLinked(s, j);
      var owner := s.jobs[j].delivererId.value;
      assert s'.deliverers[owner].activeJobId == Some(j) && s'.jobs[j].status == JobStatus.Pending;
      assert Refs(s') ==> !DelivererLinked(s', owner);
    }
  }
}
