/** Creating, deciding, batching and closing keep the invariant, and so do profile changes. */
module OrderSteps {
  import opened Types
  import opened Batching
  import opened Transactions
  import opened Invariant
  import opened JobSteps

  /** Writing a row of an order that is in no batch. */
  ghost predicate UnbatchedWrite(s: State, s': State, o: Id, row: Order) {
    && (o in s.orders ==> s.orders[o].batchId.None?)
    && row.batchId.None? && row.jobId.None? && row.delivererId.None? && PreReady(row.status)
    && s'.orders == s.orders[o := row]
    && s'.batches == s.batches && s'.jobs == s.jobs && s'.stops == s.stops && s'.deliverers == s.deliverers
  }

  lemma UnbatchedRefs(s: State, s': State, o: Id, row: Order)
    requires Refs(s) && Links(s) && UnbatchedWrite(s, s', o, row)
    ensures Refs(s') && Links(s')
  {
    forall p | p in s'.orders ensures OrderRef(s', p) {
      if p != o { assert OrderRef(s, p); }
    }
    forall b | b in s'.batches ensures BatchRef(s', b) {
      assert BatchRef(s, b);
    }
    LinksStay(s, s');
  }

  lemma LinksStay(s: State, s': State)
    requires Refs(s) && Links(s) && Refs(s')
    requires s'.jobs == s.jobs && s'.deliverers == s.deliverers
    requires forall b :: b in s.batches ==>
               b in s'.batches && s'.batches[b].status == s.batches[b].status
               && s'.batches[b].delivererId == s.batches[b].delivererId
    requires forall b :: b in s'.batches && b !in s.batches ==>
        s'.batches[b].status == JobStatus.Pending && s'.batches[b].delivererId.None?
    ensures Links(s')
  {
    forall d | d in s'.deliverers ensures DelivererLinked(s', d) {
      assert DelivererLinked(s, d);
    }
    forall j | j in s'.jobs ensures JobLinked(s', j) {
      assert JobLinked(s, j);
    }
    forall b | b in s'.batches ensures BatchLinked(s', b) {
      if b in s.batches { assert BatchLinked(s, b); }
    }
  }

  lemma UnbatchedStops(s: State, s': State, o: Id, row: Order)
    requires Inv(s) && UnbatchedWrite(s, s', o, row) && Refs(s')
    ensures Stops(s')
  {
    UnbatchedRoutes(s, s', o, row);
    UnbatchedPhases(s, s', o, row);
    hide Routes, StopPhases, Links, Statuses;
    forall j | j in s'.jobs && s'.jobs[j].status == JobStatus.InProgress ensures Unfinished(s', j) != {} {
      assert Unfinished(s', j) == Unfinished(s, j);
    }
  }

  lemma UnbatchedRoutes(s: State, s': State, o: Id, row: Order)
    requires Refs(s) && Routes(s) && UnbatchedWrite(s, s', o, row) && Refs(s')
    ensures Routes(s')
  {
    hide Routed, OrderRef, NoDuplicates, UniqueBatch;
    forall j | j in s.jobs && s.jobs[j].status != JobStatus.Pending
      ensures exists base, route :: Routed(s', j, base, route)
    {
      assert BatchRef(s, s.jobs[j].batchId);
      RouteStays(s, s', j);
    }
  }

  lemma UnbatchedPhases(s: State, s': State, o: Id, row: Order)
    requires Refs(s) && Routes(s) && StopPhases(s) && UnbatchedWrite(s, s', o, row) && Refs(s')
    ensures StopPhases(s')
  {
    hide Routes, OrderRef, BatchRef, UniqueBatch;
    forall k | k in s'.stops ensures StopPhase(s', k) {
      assert StopPhase(s, k);
      if s.jobs[s.stops[k].jobId].status != JobStatus.Pending { StopMember(s, k); }
    }
  }

  lemma UnbatchedKeepsInv(s: State, s': State, o: Id, row: Order)
    requires Inv(s) && UnbatchedWrite(s, s', o, row)
    ensures Inv(s')
  {
    UnbatchedRefs(s, s', o, row);
    forall p | p in s'.orders ensures OrderPhase(s', p) {
      if p != o { assert OrderPhase(s, p); }
    }
    UnbatchedStops(s, s', o, row);
  }

  lemma CreateOrderKeepsInv(s: State, o: Id, info: OrderInfo)
    requires Inv(s)
    ensures Inv(CreateOrder(s, o, info))
  {
    if o !in s.orders {
      var s' := CreateOrder(s, o, info);
      UnbatchedKeepsInv(s, s', o, s'.orders[o]);
    }
  }

  lemma VendorDecideKeepsInv(s: State, o: Id, accept: bool)
    requires Inv(s)
    ensures Inv(VendorDecide(s, o, accept))
  {
    var s' := VendorDecide(s, o, accept);
    if s' != s {
      assert OrderPhase(s, o);
      UnbatchedKeepsInv(s, s', o, s'.orders[o]);
    }
  }

  // ---------------------------------------------------------------- mark ready

  /** Order `o` enters batch `b`, which is open or new. */
  ghost predicate Enters(s: State, s': State, o: Id, b: Id) {
    && o in s.orders && s.orders[o].batchId.None? && o in s'.orders
    && (b in s.batches ==> s.batches[b].status == JobStatus.Pending)
    && b in s'.batches
    && s'.batches == s.batches[b := s'.batches[b]]
    && s'.batches[b].status == JobStatus.Pending && s'.batches[b].delivererId.None?
    && s'.batches[b].orders == (if b in s.batches then s.batches[b].orders else []) + [o]
    && s'.orders == s.orders[o := s'.orders[o]]
    && s'.orders[o].status == ReadyForDelivery && s'.orders[o].readyAt.Some? && s'.orders[o].batchId == Some(b)
    && s'.orders[o].jobId.None? && s'.orders[o].delivererId.None?
    && s'.jobs == s.jobs && s'.stops == s.stops && s'.deliverers == s.deliverers
  }

  lemma EnterRefs(s: State, s': State, o: Id, b: Id)
    requires Refs(s) && Links(s) && Enters(s, s', o, b)
    ensures Refs(s') && Links(s')
    ensures !HasJob(s.jobs, b)
  {
    forall p | p in s'.orders ensures OrderRef(s', p) {
      if p in s.orders { assert OrderRef(s, p); }
    }
    forall c | c in s'.batches ensures BatchRef(s', c) {
      if c in s.batches { assert BatchRef(s, c); }
    }
    LinksStay(s, s');
    if b in s.batches { assert BatchLinked(s, b); }
  }

  lemma EnterStatuses(s: State, s': State, o: Id, b: Id)
    requires Refs(s) && Statuses(s) && Enters(s, s', o, b) && !HasJob(s.jobs, b)
    ensures Statuses(s')
  {
    forall p | p in s'.orders ensures OrderPhase(s', p) {
      if p != o { assert OrderPhase(s, p); }
    }
  }

  lemma EnterRoutes(s: State, s': State, o: Id, b: Id)
    requires Refs(s) && Routes(s) && Enters(s, s', o, b) && Refs(s') && !HasJob(s.jobs, b)
    ensures Routes(s')
  {
    forall j | j in s.jobs && s.jobs[j].status != JobStatus.Pending
      ensures exists base, route :: Routed(s', j, base, route)
    {
      assert s.jobs[j].batchId != b;
      assert BatchRef(s, s.jobs[j].batchId);
      assert SameStops(s, s', j);
      RouteStays(s, s', j);
    }
  }

  lemma EnterStops(s: State, s': State, o: Id, b: Id)
    requires Inv(s) && Enters(s, s', o, b) && Refs(s') && !HasJob(s.jobs, b)
    ensures StopPhases(s') && StartedHasWork(s')
  {
    EnterPhases(s, s', o, b);
    hide Routes, StopPhases, Links, Statuses, Refs;
    forall j | j in s'.jobs && s'.jobs[j].status == JobStatus.InProgress ensures Unfinished(s', j) != {} {
      assert Unfinished(s', j) == Unfinished(s, j);
    }
  }

  lemma EnterPhases(s: State, s': State, o: Id, b: Id)
    requires Refs(s) && Routes(s) && StopPhases(s) && Enters(s, s', o, b) && Refs(s')
    ensures StopPhases(s')
  {
    hide Routes, OrderRef, BatchRef, UniqueBatch;
    forall k | k in s'.stops ensures StopPhase(s', k) {
      assert StopPhase(s, k);
      if s.jobs[s.stops[k].jobId].status != JobStatus.Pending { StopMember(s, k); }
    }
  }

  lemma EnterKeepsInv(s: State, s': State, o: Id, b: Id)
    requires Inv(s) && Enters(s, s', o, b)
    ensures Inv(s')
  {
    hide Refs, Links, Statuses, Routes, StopPhases, StartedHasWork, Enters;
    EnterRefs(s, s', o, b);
    EnterStatuses(s, s', o, b);
    EnterRoutes(s, s', o, b);
    EnterStops(s, s', o, b);
  }

  lemma {:induction false} FirstEligibleIsListed(rules: Rules, s: State, order: OrderInfo, open: seq<Id>)
    ensures FirstEligible(rules, s, order, open).Some? ==>
              var b := FirstEligible(rules, s, order, open).value;
              b in open && BatchTakes(rules, s, order, b)
  {
    if open != [] && !BatchTakes(rules, s, order, open[0]) {
      FirstEligibleIsListed(rules, s, order, open[1..]);
    }
  }

  lemma PlaceEnters(rules: Rules, s: State, s0: State, o: Id, open: seq<Id>, newBatch: Id, now: int, hasFood: bool)
    requires o in s0.orders && s == ClaimReady(s0, o, hasFood, now)
    requires s0.orders[o].batchId.None? && s0.orders[o].jobId.None? && s0.orders[o].delivererId.None?
    requires forall b :: b in open ==>
        b in s0.batches && s0.batches[b].status == JobStatus.Pending && s0.batches[b].delivererId.None?
    requires newBatch !in s0.batches
    ensures var r := PlaceInBatch(rules, s, o, open, newBatch, now);
            r.outcome == Committed && r.batchId.Some? && Enters(s0, r.state, o, r.batchId.value)
  {
    FirstEligibleIsListed(rules, s, s.orders[o].info, open);
  }

  /** A committed mark-ready puts an unbatched order into an open or new batch. */
  lemma MarkReadyEnters(
    rules: Rules, s: State, o: Id, vendor: Id, hasFood: bool, now: int, open: seq<Id>, newBatch: Id)
    requires Refs(s) && Links(s) && Statuses(s) && OpenListing(s, open) && newBatch !in s.batches
    requires o in s.orders && s.orders[o].info.vendorId == vendor && Readyable(s.orders[o].status)
    ensures var r := MarkReady(rules, s, o, vendor, hasFood, now, open, newBatch);
            r.outcome == Committed && r.batchId.Some? && Enters(s, r.state, o, r.batchId.value)
  {
    assert OrderPhase(s, o);
    forall b | b in open ensures s.batches[b].delivererId.None? {
      assert BatchLinked(s, b);
    }
    PlaceEnters(rules, ClaimReady(s, o, hasFood, now), s, o, open, newBatch, now, hasFood);
  }

  lemma MarkReadyKeepsInv(
    rules: Rules, s: State, o: Id, vendor: Id, hasFood: bool, now: int, open: seq<Id>, newBatch: Id)
    requires Inv(s) && OpenListing(s, open) && newBatch !in s.batches
    ensures Inv(MarkReady(rules, s, o, vendor, hasFood, now, open, newBatch).state)
  {
    hide Refs, Links, Statuses, Stops;
    if o in s.orders && s.orders[o].info.vendorId == vendor && Readyable(s.orders[o].status) {
      var r := MarkReady(rules, s, o, vendor, hasFood, now, open, newBatch);
      MarkReadyEnters(rules, s, o, vendor, hasFood, now, open, newBatch);
      EnterKeepsInv(s, r.state, o, r.batchId.value);
    }
  }

  // ---------------------------------------------------------------- closing, profiles, log and queue

  lemma CloseKeepsInv(s: State, b: Id)
    requires Inv(s)
    ensures Inv(CloseBatch(s, b))
  {
    hide Routes, StopPhases, StartedHasWork, Statuses;
    if CanClose(s, b) {
      var s' := CloseBatch(s, b);
      CloseRefs(s, s', b);
      SameRest(s, s');
    }
  }

  lemma CloseRefs(s: State, s': State, b: Id)
    requires Refs(s) && Links(s) && CanClose(s, b) && s' == CloseBatch(s, b)
    ensures Refs(s') && Links(s')
  {
    hide NoDuplicates, OrderRef, BatchRef;
    ShapeKeepsRefs(s, s');
    assert BatchLinked(s, b);
    forall d | d in s'.deliverers ensures DelivererLinked(s', d) {
      assert DelivererLinked(s, d);
    }
    forall j | j in s'.jobs ensures JobLinked(s', j) {
      assert JobLinked(s, j);
    }
    forall c | c in s'.batches ensures BatchLinked(s', c) {
      assert BatchLinked(s, c);
    }
  }

  /** Order, stop and work clauses read only the orders, the jobs and the stops. */
  lemma SamePhases(s: State, s': State)
    requires Refs(s) && Refs(s') && Statuses(s) && StopPhases(s) && StartedHasWork(s)
    requires s'.orders == s.orders && s'.jobs == s.jobs && s'.stops == s.stops
    ensures Statuses(s') && StopPhases(s') && StartedHasWork(s')
  {
    hide OrderRef, BatchRef, UniqueBatch, HasJob, OwnedOrder;
    forall o | o in s'.orders ensures OrderPhase(s', o) {
      assert OrderPhase(s, o);
    }
    forall k | k in s'.stops ensures StopPhase(s', k) {
      assert StopPhase(s, k);
    }
    forall j | j in s'.jobs && s'.jobs[j].status == JobStatus.InProgress ensures Unfinished(s', j) != {} {
      assert Unfinished(s', j) == Unfinished(s, j);
    }
  }

  lemma SameRest(s: State, s': State)
    requires Inv(s) && Refs(s') && SameShape(s, s')
    requires s'.orders == s.orders && s'.jobs == s.jobs && s'.stops == s.stops
    ensures Statuses(s') && Stops(s')
  {
    hide Statuses, StopPhases, StartedHasWork, Routes;
    ShapeKeepsRoutes(s, s');
    SamePhases(s, s');
  }

  /** The log and the queue are not part of the invariant; neither is `availability`. */
  ghost predicate SameRows(s: State, s': State) {
    && s'.orders == s.orders && s'.batches == s.batches && s'.jobs == s.jobs && s'.stops == s.stops
    && (forall d :: d in s.deliverers ==>
          d in s'.deliverers && s'.deliverers[d].activeJobId == s.deliverers[d].activeJobId)
    && (forall d :: d in s'.deliverers && d !in s.deliverers ==> s'.deliverers[d].activeJobId.None?)
  }

  lemma SameRowsKeepInv(s: State, s': State)
    requires Inv(s) && SameRows(s, s')
    ensures Inv(s')
  {
    hide Statuses;
    SameRowsRefs(s, s');
    SameRest(s, s');
  }

  lemma SameRowsRefs(s: State, s': State)
    requires Refs(s) && Links(s) && SameRows(s, s')
    ensures Refs(s') && Links(s')
  {
    ShapeKeepsRefs(s, s');
    forall d | d in s'.deliverers ensures DelivererLinked(s', d) {
      if d in s.deliverers { assert DelivererLinked(s, d); }
    }
    forall j | j in s'.jobs ensures JobLinked(s', j) {
      assert JobLinked(s, j);
    }
    forall b | b in s'.batches ensures BatchLinked(s', b) {
      assert BatchLinked(s, b);
    }
  }

  /**
   vendorAcceptOrder and vendorRejectOrder read the status first and then write without a guard, so a
   write can arrive late. It is harmless exactly when the order is still in no batch.
   */
  lemma LateVendorWriteIsSafeIff(s: State, o: Id, status: OrderStatus)
    requires Inv(s) && o in s.orders && (status == VendorAccepted || status == VendorRejected)
    ensures Inv(s.(orders := s.orders[o := s.orders[o].(status := status)])) <==> s.orders[o].batchId.None?
  {
    var s' := s.(orders := s.orders[o := s.orders[o].(status := status)]);
    assert OrderPhase(s, o);
    if s.orders[o].batchId.None? {
      UnbatchedKeepsInv(s, s', o, s'.orders[o]);
    } else {
      var b := s.orders[o].batchId.value;
      if HasJob(s.jobs, b) {
        assert !OwnedOrder(s'.orders[o], JobFor(s.jobs, b), s.jobs[JobFor(s.jobs, b)]);
      }
      assert !OrderPhase(s', o);
    }
  }
}
