/** What no transaction ever undoes. The relation is reflexive and transitive, so it spans whole runs. */
module Evolution {
  import opened Types
  import opened Batching
  import opened Transactions
  import opened Invariant
  import opened JobSteps
  import opened OrderSteps

  predicate Closed(s: State, b: Id) {
    b in s.batches && s.batches[b].status != JobStatus.Pending
  }

  predicate Started(job: Job) {
    job.status == JobStatus.InProgress || job.status == JobStatus.Completed
  }

  /** A batched order keeps its batch, its place in `readyAt` order and, once delivered, its status. */
  ghost predicate OrderEvolves(s: State, s': State, o: Id)
    requires o in s.orders
  {
    && o in s'.orders
    && (s.orders[o].batchId.Some? ==>
          && s'.orders[o].batchId == s.orders[o].batchId && s'.orders[o].readyAt == s.orders[o].readyAt
          && s'.orders[o].info == s.orders[o].info)
    && (s.orders[o].status == OrderStatus.Completed ==> s'.orders[o].status == OrderStatus.Completed)
  }

  /** A batch only grows while it is PENDING, never opens again and never leaves COMPLETED. */
  ghost predicate BatchEvolves(s: State, s': State, b: Id)
    requires b in s.batches
  {
    && b in s'.batches && s'.batches[b].createdAt == s.batches[b].createdAt
    && s.batches[b].orders <= s'.batches[b].orders
    && (Closed(s, b) ==> Closed(s', b) && s'.batches[b].orders == s.batches[b].orders)
    && (s.batches[b].status == JobStatus.Completed ==> s'.batches[b].status == JobStatus.Completed)
  }

  /** A job keeps its batch; a started job keeps its deliverer and never stops being started. */
  ghost predicate JobEvolves(s: State, s': State, j: Id)
    requires j in s.jobs
  {
    && j in s'.jobs && s'.jobs[j].batchId == s.jobs[j].batchId
    && (Started(s.jobs[j]) ==>
          && Started(s'.jobs[j]) && s'.jobs[j].delivererId == s.jobs[j].delivererId
          && s'.jobs[j].totalOrders == s.jobs[j].totalOrders)
    && (s.jobs[j].status == JobStatus.Completed ==> s'.jobs[j].status == JobStatus.Completed)
  }

  /** The stops of a started job stay, and a completed one stays completed. */
  ghost predicate StopEvolves(s: State, s': State, k: Id)
    requires k in s.stops
  {
    s.stops[k].jobId in s.jobs && Started(s.jobs[s.stops[k].jobId]) ==>
      && k in s'.stops && s'.stops[k].jobId == s.stops[k].jobId
      && s'.stops[k].orderId == s.stops[k].orderId && s'.stops[k].sequence == s.stops[k].sequence
      && (s.stops[k].status == JobStatus.Completed ==> s'.stops[k].status == JobStatus.Completed)
  }

  ghost predicate Evolves(s: State, s': State) {
    && (forall o :: o in s.orders ==> OrderEvolves(s, s', o))
    && (forall b :: b in s.batches ==> BatchEvolves(s, s', b))
    && (forall j :: j in s.jobs ==> JobEvolves(s, s', j))
    && (forall k :: k in s.stops ==> StopEvolves(s, s', k))
    && (forall d :: d in s.deliverers ==> d in s'.deliverers)
    && s.log <= s'.log
  }

  lemma EvolvesTransitively(s: State, t: State, u: State)
    requires Evolves(s, t) && Evolves(t, u)
    ensures Evolves(s, u)
  {
    forall o | o in s.orders ensures OrderEvolves(s, u, o) {
      assert OrderEvolves(s, t, o) && OrderEvolves(t, u, o);
    }
    forall b | b in s.batches ensures BatchEvolves(s, u, b) {
      assert BatchEvolves(s, t, b) && BatchEvolves(t, u, b);
    }
    forall j | j in s.jobs ensures JobEvolves(s, u, j) {
      assert JobEvolves(s, t, j) && JobEvolves(t, u, j);
    }
    forall k | k in s.stops ensures StopEvolves(s, u, k) {
      assert StopEvolves(s, t, k);
      if s.stops[k].jobId in s.jobs && Started(s.jobs[s.stops[k].jobId]) {
        assert JobEvolves(s, t, s.stops[k].jobId);
        assert StopEvolves(t, u, k);
      }
    }
  }

  /** No job that is in use changes hands. Every transaction but recovery has this. */
  ghost predicate KeepsOwners(s: State, s': State) {
    forall j :: j in s.jobs && s.jobs[j].status != JobStatus.Pending ==>
      j in s'.jobs && s'.jobs[j].status != JobStatus.Pending && s'.jobs[j].delivererId == s.jobs[j].delivererId
  }

  lemma AssignEvolves(s: State, b: Id, route: seq<Id>, d: Id, newJob: Id, base: Id)
    requires Inv(s) && newJob !in s.jobs && FreshStopIds(s, base)
    ensures Evolves(s, Assign(s, b, route, d, newJob, base).state)
    ensures KeepsOwners(s, Assign(s, b, route, d, newJob, base).state)
  {
    if Unassigned(s, b) && Idle(s, d) {
      var j := UpsertTarget(s.jobs, b, newJob);
      var s' := AssignTo(s, b, route, d, j, base);
      RebuildIsLocal(s, s', j, base, route);
      AssignEvolvesTo(s, s', b, |route|, d, j);
    }
  }

  /** No order of an unassigned batch is delivered. */
  lemma OrderNotDelivered(s: State, o: Id, b: Id)
    requires Refs(s) && Links(s) && Statuses(s) && o in s.orders
    requires s.orders[o].batchId == Some(b) && Unassigned(s, b)
    ensures s.orders[o].status != OrderStatus.Completed
  {
    assert OrderPhase(s, o);
    if HasJob(s.jobs, b) {
      assert OwnedOrder(s.orders[o], JobFor(s.jobs, b), s.jobs[JobFor(s.jobs, b)]);
      assert JobLinked(s, JobFor(s.jobs, b));
    }
  }

  lemma AssignEvolvesTo(s: State, s': State, b: Id, n: nat, d: Id, j: Id)
    requires Inv(s) && Claimed(s, s', b, n, d, j) && Rebuilt(s, s', j)
    requires s'.orders == AssignOrders(s.orders, b, d, j) && s.log <= s'.log
    ensures Evolves(s, s') && KeepsOwners(s, s')
  {
    if j in s.jobs { assert JobLinked(s, j); }
    forall o | o in s.orders && s.orders[o].batchId == Some(b) ensures s.orders[o].status != OrderStatus.Completed {
      OrderNotDelivered(s, o, b);
    }
    AssignOrdersEvolve(s, s', b, d, j);
    AssignRowsEvolve(s, s', b, n, d, j);
  }

  lemma AssignOrdersEvolve(s: State, s': State, b: Id, d: Id, j: Id)
    requires s'.orders == AssignOrders(s.orders, b, d, j)
    requires forall o :: o in s.orders && s.orders[o].batchId == Some(b) ==> s.orders[o].status != OrderStatus.Completed
    ensures forall o :: o in s.orders ==> OrderEvolves(s, s', o)
  {
  }

  lemma AssignRowsEvolve(s: State, s': State, b: Id, n: nat, d: Id, j: Id)
    requires Claimed(s, s', b, n, d, j) && Rebuilt(s, s', j)
    requires j in s.jobs ==> s.jobs[j].status == JobStatus.Pending
    ensures forall c :: c in s.batches ==> BatchEvolves(s, s', c)
    ensures forall i :: i in s.jobs ==> JobEvolves(s, s', i)
    ensures forall k :: k in s.stops ==> StopEvolves(s, s', k)
    ensures KeepsOwners(s, s')
  {
  }

  lemma StartEvolves(s: State, j: Id, d: Id)
    requires Inv(s)
    ensures Evolves(s, StartJob(s, j, d).state) && KeepsOwners(s, StartJob(s, j, d).state)
  {
    hide Evolves, KeepsOwners;
    Unchanged(s);
    if CanStart(s, j, d) {
      forall o | o in s.orders && s.orders[o].jobId == Some(j) ensures s.orders[o].status != OrderStatus.Completed {
        AssignedOrderOpen(s, o, j);
      }
      StartRowsEvolve(s, j, d);
    }
  }

  /** The orders of an ASSIGNED job are all waiting. */
  lemma AssignedOrderOpen(s: State, o: Id, j: Id)
    requires Refs(s) && Statuses(s) && o in s.orders && s.orders[o].jobId == Some(j)
    requires j in s.jobs && s.jobs[j].status == JobStatus.Assigned
    ensures s.orders[o].status == WaitingForDeliverer && s.orders[o].batchId == Some(s.jobs[j].batchId)
  {
    assert OrderPhase(s, o);
    var b := s.orders[o].batchId.value;
    assert OwnedOrder(s.orders[o], JobFor(s.jobs, b), s.jobs[JobFor(s.jobs, b)]);
  }

  lemma StartRowsEvolve(s: State, j: Id, d: Id)
    requires CanStart(s, j, d)
    requires forall o :: o in s.orders && s.orders[o].jobId == Some(j) ==> s.orders[o].status != OrderStatus.Completed
    ensures Evolves(s, StartJob(s, j, d).state) && KeepsOwners(s, StartJob(s, j, d).state)
  {
  }

  lemma StopDoneEvolves(s: State, j: Id, k: Id, d: Id)
    requires CanCompleteStop(s, j, k, d)
    ensures Evolves(s, StopDone(s, k)) && KeepsOwners(s, StopDone(s, k))
  {
  }

  lemma FinishEvolves(s: State, j: Id, d: Id)
    requires CanFinish(s, j, d)
    ensures Evolves(s, FinishJob(s, j, d)) && KeepsOwners(s, FinishJob(s, j, d))
  {
  }

  lemma CompleteStopEvolves(s: State, j: Id, k: Id, d: Id)
    ensures Evolves(s, CompleteStop(s, j, k, d).state) && KeepsOwners(s, CompleteStop(s, j, k, d).state)
  {
    hide Evolves, KeepsOwners;
    if CanCompleteStop(s, j, k, d) {
      StopDoneEvolves(s, j, k, d);
      var done := StopDone(s, k);
      if Unfinished(done, j) == {} && CanFinish(done, j, d) {
        FinishEvolves(done, j, d);
        EvolvesTransitively(s, done, FinishJob(done, j, d));
        OwnersKeptTransitively(s, done, FinishJob(done, j, d));
      }
    }
    Unchanged(s);
  }

  lemma Unchanged(s: State)
    ensures Evolves(s, s) && KeepsOwners(s, s)
  {
  }

  lemma OwnersKeptTransitively(s: State, t: State, u: State)
    requires KeepsOwners(s, t) && KeepsOwners(t, u)
    ensures KeepsOwners(s, u)
  {
  }

  lemma RecoverEvolves(s: State, d: Id, j: Id)
    requires Inv(s)
    ensures Evolves(s, Recover(s, d, j).state)
  {
    hide Links;
    Unchanged(s);
    if CanRecover(s, d, j) {
      forall o | o in s.orders && s.orders[o].jobId == Some(j) ensures s.orders[o].status != OrderStatus.Completed {
        AssignedOrderOpen(s, o, j);
      }
      AssignedBatchOpen(s, j);
      RecoverRowsEvolve(s, d, j);
    }
  }

  lemma AssignedBatchOpen(s: State, j: Id)
    requires Refs(s) && Links(s) && j in s.jobs && s.jobs[j].status == JobStatus.Assigned
    ensures s.batches[s.jobs[j].batchId].status == JobStatus.InProgress
  {
    assert JobLinked(s, j);
  }

  lemma RecoverRowsEvolve(s: State, d: Id, j: Id)
    requires CanRecover(s, d, j) && s.batches[s.jobs[j].batchId].status == JobStatus.InProgress
    requires forall o :: o in s.orders && s.orders[o].jobId == Some(j) ==> s.orders[o].status != OrderStatus.Completed
    ensures Evolves(s, Recover(s, d, j).state)
  {
  }

  lemma EnterEvolves(s: State, s': State, o: Id, b: Id)
    requires Statuses(s) && Enters(s, s', o, b) && s.log <= s'.log
    requires b in s.batches ==> s'.batches[b].createdAt == s.batches[b].createdAt
    ensures Evolves(s, s') && KeepsOwners(s, s')
  {
    assert OrderPhase(s, o);
  }

  lemma MarkReadyEvolves(
    rules: Rules, s: State, o: Id, vendor: Id, hasFood: bool, now: int, open: seq<Id>, newBatch: Id)
    requires Inv(s) && OpenListing(s, open) && newBatch !in s.batches
    ensures var s' := MarkReady(rules, s, o, vendor, hasFood, now, open, newBatch).state;
            Evolves(s, s') && KeepsOwners(s, s')
  {
    hide Refs, Links, Statuses, Stops, Evolves, KeepsOwners;
    Unchanged(s);
    if o in s.orders && s.orders[o].info.vendorId == vendor && Readyable(s.orders[o].status) {
      var r := MarkReady(rules, s, o, vendor, hasFood, now, open, newBatch);
      MarkReadyEnters(rules, s, o, vendor, hasFood, now, open, newBatch);
      EnterEvolves(s, r.state, o, r.batchId.value);
    }
  }

  lemma CreateEvolves(s: State, o: Id, info: OrderInfo)
    ensures Evolves(s, CreateOrder(s, o, info)) && KeepsOwners(s, CreateOrder(s, o, info))
  {
  }

  /** An order in no batch is not delivered, so the write takes nothing back. */
  lemma DecideEvolves(s: State, o: Id, accept: bool)
    requires Statuses(s)
    ensures Evolves(s, VendorDecide(s, o, accept)) && KeepsOwners(s, VendorDecide(s, o, accept))
  {
    assert o in s.orders ==> OrderPhase(s, o);
    if o in s.orders && s.orders[o].batchId.None? {
      UndeliveredEvolves(s, o, if accept then VendorAccepted else VendorRejected);
    } else {
      Unchanged(s);
    }
  }

  lemma UndeliveredEvolves(s: State, o: Id, status: OrderStatus)
    requires o in s.orders && s.orders[o].status != OrderStatus.Completed
    ensures var s' := s.(orders := s.orders[o := s.orders[o].(status := status)]); Evolves(s, s') && KeepsOwners(s, s')
  {
  }

  lemma CloseEvolves(s: State, b: Id)
    ensures Evolves(s, CloseBatch(s, b)) && KeepsOwners(s, CloseBatch(s, b))
  {
    Unchanged(s);
    if CanClose(s, b) {
      ClosedBatchEvolves(s, b);
      hide BatchEvolves;
    }
  }

  lemma ClosedBatchEvolves(s: State, b: Id)
    requires CanClose(s, b)
    ensures forall c :: c in s.batches ==> BatchEvolves(s, CloseBatch(s, b), c)
  {
  }

  lemma SameRowsEvolve(s: State, s': State)
    requires SameRows(s, s') && s.log <= s'.log
    ensures Evolves(s, s') && KeepsOwners(s, s')
  {
  }
}
