/**
 The transactions told from the outside: which error answers which rows, and after a commit every column of
 every row that is another than before. Nothing here names a transaction's own parts.
 */
module Effects {
  import opened Types
  import opened Batching
  import opened Transactions
  import opened Invariant
  import opened OrderSteps
  import opened Dispatch

  // ---------------------------------------------------------------- orders

  /** The order gets the vendor's coordinates from the vendor's row and the customer's from the request. */
  lemma OrderIsPlaced(s: State, o: Id, vendorId: Id, profile: Option<Vendor>, customer: Coords)
    requires o !in s.orders
    ensures var r := PlaceOrder(s, o, vendorId, profile, customer);
      && (r.outcome == NotFound <==> profile.None?)
      && (r.outcome == Forbidden <==> profile.Some? && !(profile.value.isActive && profile.value.isVerified))
      && (r.outcome == Committed <==> profile.Some? && profile.value.isActive && profile.value.isVerified)
      && (r.outcome != Committed ==> r.state == s)
      && (r.outcome == Committed ==>
            && o in r.state.orders
            && r.state.orders[o].info.vendorId == vendorId
            && r.state.orders[o].info.vendor == profile.value.at && r.state.orders[o].info.customer == customer
            && r.state.orders[o].status == PendingVendorConfirmation && r.state.orders[o].readyAt == None
            && r.state.orders[o].delivererId == None && r.state.orders[o].jobId == None
            && r.state.orders[o].batchId == None
            && r.state == s.(orders := s.orders[o := r.state.orders[o]], log := s.log + [OrderEvent(o, OrderCreated)]))
  {
  }

  /** A decision writes its own status and no other column of any row. */
  lemma DecisionIsWritten(s: State, o: Id, accept: bool)
    requires o in s.orders
    ensures var s' := WriteDecision(s, o, accept);
      && o in s'.orders
      && s'.orders[o] == s.orders[o].(status := s'.orders[o].status)
      && (if accept then s'.orders[o].status == VendorAccepted else s'.orders[o].status == VendorRejected)
      && s' == s.(orders := s.orders[o := s'.orders[o]])
  {
  }

  /** Mark-ready answers with the first thing that is wrong, and when nothing is it stamps the order. */
  lemma OrderIsMarked(
    rules: Rules, s: State, o: Id, vendor: Id, hasFood: bool, now: int, open: seq<Id>, newBatch: Id)
    requires Inv(s) && OpenListing(s, open) && FreshBatchId(s, newBatch)
    ensures var r := MarkReady(rules, s, o, vendor, hasFood, now, open, newBatch);
      && (r.outcome == NotFound <==> o !in s.orders)
      && (r.outcome == Forbidden <==> o in s.orders && s.orders[o].info.vendorId != vendor)
      && (r.outcome == Conflict <==>
            && o in s.orders && s.orders[o].info.vendorId == vendor
            && s.orders[o].status != PendingVendorConfirmation && s.orders[o].status != VendorAccepted)
      && r.outcome != BadRequest
      && (r.outcome != Committed ==> r.state == s && r.batchId == None && !r.close)
      && (r.outcome == Committed ==>
            && o in r.state.orders && r.batchId.Some? && r.state.orders[o].batchId == r.batchId
            && r.state.orders[o].status == ReadyForDelivery && r.state.orders[o].readyAt == Some(now)
            && r.state.orders[o].info.orderType == (if hasFood then Food else Grocery)
            && r.state.orders[o].info.vendorId == s.orders[o].info.vendorId
            && r.state.orders[o].info.vendor == s.orders[o].info.vendor
            && r.state.orders[o].info.customer == s.orders[o].info.customer
            && r.state.orders[o].delivererId == s.orders[o].delivererId
            && r.state.orders[o].jobId == s.orders[o].jobId
            && r.state == s.(orders := s.orders[o := r.state.orders[o]], batches := r.state.batches,
                             log := s.log + [OrderEvent(o, OrderReady)]))
  {
    if o in s.orders && s.orders[o].info.vendorId == vendor && Readyable(s.orders[o].status) {
      MarkReadyEnters(rules, s, o, vendor, hasFood, now, open, newBatch);
    }
    hide Inv, OpenListing, FirstEligible, Infos, ShouldClose;
  }

  /** A close flips the status of an open batch and sends one message for it. */
  lemma BatchIsClosed(s: State, b: Id)
    ensures var s' := CloseBatch(s, b);
      if b in s.batches && s.batches[b].status == JobStatus.Pending
      then
        && b in s'.batches && s'.batches[b].status == JobStatus.InProgress
        && s'.batches[b].orders == s.batches[b].orders && s'.batches[b].createdAt == s.batches[b].createdAt
        && s'.batches[b].delivererId == s.batches[b].delivererId
        && s' == s.(batches := s.batches[b := s'.batches[b]], queue := s.queue + multiset{b})
      else s' == s
  {
  }

  // ---------------------------------------------------------------- assignment

  /** The claims decide, and a loser leaves nothing behind. */
  lemma AssignmentIsDecided(s: State, b: Id, route: seq<Id>, d: Id, newJob: Id, base: Id)
    ensures var r := Assign(s, b, route, d, newJob, base);
      && (r.outcome == Committed <==>
            && b in s.batches && s.batches[b].status == JobStatus.InProgress && s.batches[b].delivererId == None
            && d in s.deliverers && s.deliverers[d].availability && s.deliverers[d].activeJobId == None)
      && (r.outcome != Committed ==> r.outcome == Conflict && r.state == s)
  {
    hide AssignTo;
  }

  /** The rows of a committed assignment. */
  lemma AssignmentIsWritten(s: State, b: Id, route: seq<Id>, d: Id, newJob: Id, base: Id)
    requires Assign(s, b, route, d, newJob, base).outcome == Committed && UniqueBatch(s.jobs) && newJob !in s.jobs
    ensures var s' := Assign(s, b, route, d, newJob, base).state;
      && d in s'.deliverers && s'.deliverers[d].availability == false && s'.deliverers[d].activeJobId.Some?
      && var j := s'.deliverers[d].activeJobId.value;
      && j in s'.jobs && (j in s.jobs ==> s.jobs[j].batchId == b) && (j !in s.jobs ==> j == newJob)
      && s'.jobs[j].delivererId == Some(d) && s'.jobs[j].batchId == b
      && s'.jobs[j].status == JobStatus.Assigned && s'.jobs[j].totalOrders == |route|
      && s'.jobs == s.jobs[j := s'.jobs[j]]
      && s'.deliverers == s.deliverers[d := s'.deliverers[d]]
      && b in s.batches && s'.batches == s.batches[b := s.batches[b].(delivererId := Some(d))]
      && s'.log == s.log + [JobEvent(j, JobAssigned)] && s'.queue == s.queue
  {
    hide RebuildStops, AssignOrders;
  }

  /** Every order of the batch is handed over, and no other order is touched. */
  lemma OrdersAreHandedOver(s: State, b: Id, route: seq<Id>, d: Id, newJob: Id, base: Id, o: Id)
    requires Assign(s, b, route, d, newJob, base).outcome == Committed && o in s.orders
    ensures var s' := Assign(s, b, route, d, newJob, base).state;
      && s'.orders.Keys == s.orders.Keys && d in s'.deliverers
      && (s.orders[o].batchId != Some(b) ==> s'.orders[o] == s.orders[o])
      && (s.orders[o].batchId == Some(b) ==>
            && s'.orders[o].status == WaitingForDeliverer && s'.orders[o].delivererId == Some(d)
            && s'.orders[o].jobId == s'.deliverers[d].activeJobId
            && s'.orders[o].info == s.orders[o].info && s'.orders[o].readyAt == s.orders[o].readyAt
            && s'.orders[o].batchId == s.orders[o].batchId)
  {
    hide RebuildStops;
  }

  /** `stops` has one new row for every order of the list, and of the old ones all but those of job `j`. */
  ghost predicate MadeAnew(s: State, stops: map<Id, DropOff>, j: Id, route: seq<Id>, base: Id) {
    && (forall i :: 0 <= i < |route| ==> MadeFor(s, stops, j, route, base, i))
    && (forall k :: k in stops && !(base <= k < base + |route|) ==> k in s.stops && stops[k] == s.stops[k])
    && (forall k :: k in s.stops ==> (k in stops <==> s.stops[k].jobId != j))
  }

  /** The stop of entry `i` is where the customer of that order is. */
  predicate MadeFor(s: State, stops: map<Id, DropOff>, j: Id, route: seq<Id>, base: Id, i: nat)
    requires i < |route|
  {
    && base + i in stops && stops[base + i].jobId == j
    && stops[base + i].orderId == route[i] && stops[base + i].sequence == i
    && stops[base + i].status == JobStatus.Pending
    && route[i] in s.orders && stops[base + i].at == s.orders[route[i]].info.customer
  }

  /** The stops of the job are made anew, one per order of the list; those of other jobs stay. */
  lemma StopsAreMade(s: State, b: Id, route: seq<Id>, d: Id, newJob: Id, base: Id)
    requires Assign(s, b, route, d, newJob, base).outcome == Committed && FreshStopIds(s, base)
    requires forall o :: o in route ==> o in s.orders
    ensures var s' := Assign(s, b, route, d, newJob, base).state;
      && d in s'.deliverers && s'.deliverers[d].activeJobId.Some?
      && MadeAnew(s, s'.stops, s'.deliverers[d].activeJobId.value, route, base)
  {
    hide AssignOrders, UpsertTarget, RebuildStops, MadeAnew;
    StopRowsAreMade(s, UpsertTarget(s.jobs, b, newJob), route, base);
  }

  lemma StopRowsAreMade(s: State, j: Id, route: seq<Id>, base: Id)
    requires FreshStopIds(s, base) && forall o :: o in route ==> o in s.orders
    ensures MadeAnew(s, RebuildStops(s, j, route, base), j, route, base)
  {
    var stops := RebuildStops(s, j, route, base);
    forall i | 0 <= i < |route| ensures MadeFor(s, stops, j, route, base, i) {
      assert stops[base + i] == NewStop(s.orders, j, route, base, base + i);
      assert route[i] in route;
    }
  }

  // ---------------------------------------------------------------- jobs

  /** A start answers with the first thing that is wrong, and else moves the job and its orders along. */
  lemma JobIsStarted(s: State, j: Id, d: Id)
    ensures var r := StartJob(s, j, d);
      && (r.outcome == NotFound <==> j !in s.jobs)
      && (r.outcome == Forbidden <==> j in s.jobs && s.jobs[j].delivererId != Some(d))
      && (r.outcome == Conflict <==>
            j in s.jobs && s.jobs[j].delivererId == Some(d) && s.jobs[j].status != JobStatus.Assigned)
      && r.outcome != BadRequest
      && (r.outcome != Committed ==> r.state == s)
      && (r.outcome == Committed ==>
            && j in s.jobs && r.state.jobs == s.jobs[j := s.jobs[j].(status := JobStatus.InProgress)]
            && r.state.orders.Keys == s.orders.Keys
            && (forall o :: o in s.orders ==>
                  r.state.orders[o] == if s.orders[o].jobId == Some(j)
                                       then s.orders[o].(status := OrderStatus.InProgress) else s.orders[o])
            && r.state == s.(jobs := r.state.jobs, orders := r.state.orders, log := s.log + [JobEvent(j, JobStarted)]))
  {
  }

  /** A stop of the job that is not completed yet, other than `k`. */
  ghost predicate OtherStopOpen(s: State, j: Id, k: Id) {
    exists l :: l in s.stops && l != k && s.stops[l].jobId == j && s.stops[l].status != JobStatus.Completed
  }

  /** The completion of a stop, its four errors, and when it finishes the job. */
  lemma StopIsDecided(s: State, j: Id, k: Id, d: Id)
    requires Inv(s)
    ensures var r := CompleteStop(s, j, k, d);
      && (r.outcome == NotFound <==> j !in s.jobs)
      && (r.outcome == Forbidden <==> j in s.jobs && s.jobs[j].delivererId != Some(d))
      && (r.outcome == BadRequest <==>
            j in s.jobs && s.jobs[j].delivererId == Some(d) && s.jobs[j].status != JobStatus.InProgress)
      && (r.outcome == Conflict <==>
            && j in s.jobs && s.jobs[j].delivererId == Some(d) && s.jobs[j].status == JobStatus.InProgress
            && !(k in s.stops && s.stops[k].jobId == j && s.stops[k].status != JobStatus.Completed))
      && (r.outcome != Committed ==> r.state == s && !r.jobCompleted)
      && (r.outcome == Committed ==> (r.jobCompleted <==> !OtherStopOpen(s, j, k)))
  {
    if CanCompleteStop(s, j, k, d) {
      assert JobLinked(s, j);
      OthersAreLeft(s, j, k);
    }
    hide Inv, StopDone, FinishJob, OtherStopOpen, Unfinished;
  }

  lemma OthersAreLeft(s: State, j: Id, k: Id)
    requires OpenStop(s, j, k)
    ensures Unfinished(StopDone(s, k), j) != {} <==> OtherStopOpen(s, j, k)
    ensures StopDone(s, k).jobs == s.jobs && StopDone(s, k).batches == s.batches
    ensures StopDone(s, k).deliverers == s.deliverers
  {
    var left := Unfinished(StopDone(s, k), j);
    assert forall l :: l in left <==>
      l in s.stops && l != k && s.stops[l].jobId == j && s.stops[l].status != JobStatus.Completed;
    if left != {} {
      var l :| l in left;
      assert l in s.stops && l != k;
    }
  }

  /** The rows of a completed stop. */
  lemma StopIsWritten(s: State, j: Id, k: Id, d: Id)
    requires CompleteStop(s, j, k, d).outcome == Committed && CanCompleteStop(s, j, k, d)
    ensures var r := CompleteStop(s, j, k, d);
      && r.state.stops == s.stops[k := s.stops[k].(status := JobStatus.Completed)]
      && r.state.orders.Keys == s.orders.Keys && r.state.queue == s.queue
      && (!r.jobCompleted ==>
            && r.state.jobs == s.jobs && r.state.batches == s.batches && r.state.deliverers == s.deliverers
            && forall o :: o in s.orders ==>
                 r.state.orders[o] == if o == s.stops[k].orderId
                                      then s.orders[o].(status := OrderStatus.Completed) else s.orders[o])
      && (r.jobCompleted ==>
            && s.jobs[j].batchId in s.batches
            && r.state.jobs == s.jobs[j := s.jobs[j].(status := JobStatus.Completed)]
            && r.state.batches
                 == s.batches[s.jobs[j].batchId := s.batches[s.jobs[j].batchId].(status := JobStatus.Completed)]
            && d in r.state.deliverers && r.state.deliverers[d].availability == true
            && r.state.deliverers[d].activeJobId == None
            && r.state.deliverers == s.deliverers[d := r.state.deliverers[d]]
            && forall o :: o in s.orders ==>
                 r.state.orders[o] == if o == s.stops[k].orderId || s.orders[o].jobId == Some(j)
                                      then s.orders[o].(status := OrderStatus.Completed) else s.orders[o])
  {
    hide Unfinished;
  }

  // ---------------------------------------------------------------- recovery and profile

  /** A recovery goes through exactly for a job that is still ASSIGNED, and takes back what the assignment wrote. */
  lemma JobIsRecovered(s: State, d: Id, j: Id)
    requires Refs(s)
    ensures var r := Recover(s, d, j);
      && (r.outcome == Committed <==> d in s.deliverers && j in s.jobs && s.jobs[j].status == JobStatus.Assigned)
      && (r.outcome != Committed ==> r.outcome == NotFound && r.state == s)
      && (r.outcome == Committed ==>
            && s.jobs[j].batchId in s.batches
            && d in r.state.deliverers && r.state.deliverers[d].availability == true
            && r.state.deliverers[d].activeJobId == None
            && r.state.deliverers == s.deliverers[d := r.state.deliverers[d]]
            && r.state.jobs == s.jobs[j := s.jobs[j].(status := JobStatus.Pending, delivererId := None)]
            && r.state.batches
                 == s.batches[s.jobs[j].batchId :=
                      s.batches[s.jobs[j].batchId].(status := JobStatus.InProgress, delivererId := None)]
            && r.state.stops == s.stops && r.state.log == s.log && r.state.queue == s.queue
            && r.state.orders.Keys == s.orders.Keys
            && forall o :: o in s.orders ==>
                 r.state.orders[o] ==
                   if s.orders[o].jobId == Some(j)
                   then s.orders[o].(status := WaitingForDeliverer, jobId := None, delivererId := None)
                   else s.orders[o])
  {
  }

  /** A profile update writes the availability and keeps the job. */
  lemma ProfileIsWritten(s: State, d: Id, available: bool)
    ensures var s' := SetAvailability(s, d, available);
      && s'.deliverers.Keys == s.deliverers.Keys
      && s' == s.(deliverers := s'.deliverers)
      && (forall c :: c in s.deliverers ==>
            && s'.deliverers[c].activeJobId == s.deliverers[c].activeJobId
            && s'.deliverers[c].availability == if c == d then available else s.deliverers[c].availability)
  {
  }

  /** A new deliverer is available and has no job. */
  lemma DelivererIsAdded(s: State, d: Id)
    requires d !in s.deliverers
    ensures var s' := AddDeliverer(s, d);
      && d in s'.deliverers && s'.deliverers[d].availability == true && s'.deliverers[d].activeJobId == None
      && s' == s.(deliverers := s.deliverers[d := s'.deliverers[d]])
  {
  }
}
