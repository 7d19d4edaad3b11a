/**
 The store itself, with one method per transaction. Each method performs its statements in the order
 of the services, undoes them when a later one throws, and is proved to commit exactly the state that
 the transaction function of the same name gives.
 */
module Store {
  import opened Types
  import opened Batching
  import T = Transactions
  import R = Resends
  import opened Dispatch
  import E = ExpirySweep

  class Store {
    var orders: map<Id, Order>
    var batches: map<Id, Batch>
    var jobs: map<Id, Job>
    var stops: map<Id, DropOff>
    var deliverers: map<Id, Deliverer>
    var log: seq<Event>
    var queue: multiset<Id>
    /** The id sequences. A rolled back insert does not give its id back. */
    var nextBatch: Id
    var nextJob: Id
    var nextStop: Id

    ghost function Model(): State
      reads this
    {
      State(orders, batches, jobs, stops, deliverers, log, queue)
    }

    /** What the schema enforces: ids come from the sequences and a batch has at most one job. */
    ghost predicate Valid()
      reads this
    {
      && (forall b :: b in batches ==> b < nextBatch)
      && (forall j :: j in jobs ==> j < nextJob)
      && (forall k :: k in stops ==> k < nextStop)
      && UniqueBatch(jobs)
    }

    constructor ()
      ensures Valid() && Model() == EMPTY_STATE
    {
      orders, batches, jobs, stops, deliverers := map[], map[], map[], map[], map[];
      log, queue := [], multiset{};
      nextBatch, nextJob, nextStop := 1, 1, 1;
    }

    // -------------------------------------------------------------- statements

    /** `order.updateMany`. */
    method UpdateOrders(where: Order -> bool, data: Order -> Order)
      modifies this`orders
      ensures orders
          == map o | o in old(orders) :: if where(old(orders)[o]) then data(old(orders)[o]) else old(orders)[o]
    {
      ghost var was := orders;
      var todo := orders.Keys;
      while todo != {}
        invariant todo <= was.Keys && orders.Keys == was.Keys
        invariant forall o :: o in was ==> orders[o] == if o in todo || !where(was[o]) then was[o] else data(was[o])
        decreases |todo|
      {
        var o :| o in todo;
        if where(orders[o]) {
          orders := orders[o := data(orders[o])];
        }
        todo := todo - {o};
      }
    }

    /** The unique index on `batchId`. */
    method FindJobByBatch(b: Id) returns (found: Option<Id>)
      ensures found.Some? ==> found.value in jobs && jobs[found.value].batchId == b
      ensures found.None? ==> !T.HasJob(jobs, b)
    {
      found := None;
      var todo := jobs.Keys;
      while todo != {}
        invariant todo <= jobs.Keys
        invariant forall j :: j in jobs && j !in todo ==> jobs[j].batchId != b
        decreases |todo|
      {
        var j :| j in todo;
        if jobs[j].batchId == b {
          return Some(j);
        }
        todo := todo - {j};
      }
    }

    /** `deliveryDropOff.deleteMany`. */
    method DeleteStops(j: Id)
      modifies this`stops
      ensures stops == map k | k in old(stops) && old(stops)[k].jobId != j :: old(stops)[k]
    {
      ghost var was := stops;
      var todo := stops.Keys;
      while todo != {}
        invariant todo <= was.Keys && stops.Keys <= was.Keys
        invariant forall k :: k in was ==> (k in stops <==> k in todo || was[k].jobId != j)
        invariant forall k :: k in stops ==> stops[k] == was[k]
        decreases |todo|
      {
        var k :| k in todo;
        if stops[k].jobId == j {
          stops := stops - {k};
        }
        todo := todo - {k};
      }
    }

    /** `deliveryDropOff.createMany` over the snapshot's orders, with their index as sequence. */
    method CreateStops(j: Id, route: seq<Id>)
      requires forall k :: k in stops ==> k < nextStop
      modifies this`stops, this`nextStop
      ensures nextStop == old(nextStop) + |route|
      ensures stops == old(stops) + T.NewStops(orders, j, route, old(nextStop))
      ensures forall k :: old(nextStop) <= k < nextStop && route[k - old(nextStop)] in orders ==>
        k in stops && stops[k].at == orders[route[k - old(nextStop)]].info.customer
      ensures forall k :: k in stops ==> k < nextStop
    {
      ghost var was, base := stops, nextStop;
      for i := 0 to |route|
        invariant nextStop == base + i
        invariant forall k :: k in stops <==> k in was || base <= k < base + i
        invariant forall k :: k in was ==> k < base && stops[k] == was[k]
        invariant forall k :: base <= k < base + i ==> stops[k] == T.NewStop(orders, j, route, base, k)
      {
        var row := DropOff(j, route[i], i, JobStatus.Pending, T.DropCoords(orders, route[i]));
        stops := stops[nextStop := row];
        nextStop := nextStop + 1;
      }
      assert stops == was + T.NewStops(orders, j, route, base);
    }

    /** `deliveryDropOff.count` of the stops that are left. */
    method CountOpen(j: Id) returns (n: nat)
      ensures n == |T.Unfinished(Model(), j)|
    {
      ghost var seen: set<Id> := {};
      var todo := stops.Keys;
      n := 0;
      while todo != {}
        invariant todo <= stops.Keys
        invariant seen == set k | k in stops && k !in todo && stops[k].jobId == j
            && stops[k].status != JobStatus.Completed
        invariant n == |seen|
        decreases |todo|
      {
        var k :| k in todo;
        if stops[k].jobId == j && stops[k].status != JobStatus.Completed {
          n := n + 1;
          seen := seen + {k};
        }
        todo := todo - {k};
      }
      assert seen == T.Unfinished(Model(), j);
    }

    method Record(e: Event)
      modifies this`log
      ensures log == old(log) + [e]
    {
      log := log + [e];
    }

    // -------------------------------------------------------------- batching

    /** createOrder, with an id drawn from the sequence; `profile` is the vendor's row, read before. */
    method CreateOrder(o: Id, vendorId: Id, profile: Option<Vendor>, customer: Coords) returns (outcome: T.Outcome)
      requires Valid() && o !in orders
      modifies this`orders, this`log
      ensures Valid()
      ensures var r := T.PlaceOrder(old(Model()), o, vendorId, profile, customer);
              Model() == r.state && outcome == r.outcome
    {
      if profile.None? { return T.NotFound; }
      if !profile.value.isActive || !profile.value.isVerified { return T.Forbidden; }
      var info := OrderInfo(vendorId, Empty, profile.value.at, customer);
      orders := orders[o := Order(info, PendingVendorConfirmation, None, None, None, None)];
      Record(OrderEvent(o, OrderCreated));
      return T.Committed;
    }

    /** The checks that open vendorAcceptOrder and vendorRejectOrder. */
    method CheckDecision(o: Id, vendor: Option<Id>) returns (outcome: T.Outcome)
      ensures outcome == T.Committed <==>
          vendor.Some? && T.CanDecide(Model(), o) && orders[o].info.vendorId == vendor.value
      ensures outcome == T.NotFound <==> vendor.None?
      ensures outcome == T.Forbidden <==> vendor.Some? && (o in orders ==> orders[o].info.vendorId != vendor.value)
      ensures outcome == T.Conflict <==>
        && vendor.Some? && o in orders && orders[o].info.vendorId == vendor.value
        && orders[o].status != PendingVendorConfirmation
    {
      if vendor.None? { return T.NotFound; }
      if o !in orders || orders[o].info.vendorId != vendor.value { return T.Forbidden; }
      if orders[o].status != PendingVendorConfirmation { return T.Conflict; }
      return T.Committed;
    }

    /** Their update, which looks at nothing but the id. */
    method WriteDecision(o: Id, accept: bool)
      requires Valid() && o in orders
      modifies this`orders
      ensures Valid() && Model() == T.WriteDecision(old(Model()), o, accept)
    {
      if accept {
        orders := orders[o := orders[o].(status := VendorAccepted)];
      } else {
        orders := orders[o := orders[o].(status := VendorRejected)];
      }
    }

    /** The whole call when nothing lands between its statements. */
    method DecideOrder(o: Id, vendor: Option<Id>, accept: bool) returns (outcome: T.Outcome)
      requires Valid()
      modifies this`orders, this`log
      ensures Valid()
      ensures outcome == T.Committed <==>
        vendor.Some? && T.CanDecide(old(Model()), o) && old(orders)[o].info.vendorId == vendor.value
      ensures Model() ==
        if outcome != T.Committed then old(Model())
        else
          T.Append(T.WriteDecision(old(Model()), o, accept),
                   OrderEvent(o, if accept then OrderAccepted else OrderRejected))
    {
      outcome := CheckDecision(o, vendor);
      if outcome == T.Committed {
        WriteDecision(o, accept);
        Record(OrderEvent(o, if accept then OrderAccepted else OrderRejected));
      }
    }

    /** updateProfile writes what it was given, or else the availability it read at some earlier time. */
    method UpdateProfile(d: Id, given: Option<bool>, read: bool)
      requires Valid()
      modifies this`deliverers
      ensures Valid() && Model() == T.SetAvailability(old(Model()), d, if given.Some? then given.value else read)
    {
      if d in deliverers {
        var available := if given.Some? then given.value else read;
        deliverers := deliverers[d := Deliverer(available, deliverers[d].activeJobId)];
      }
    }

    /** `open` is the answer of the database to the query for PENDING batches. */
    method MarkReady(rules: Rules, o: Id, vendor: Id, hasFood: bool, now: int, open: seq<Id>)
      returns (outcome: T.Outcome, batchId: Option<Id>, close: bool)
      requires Valid() && T.OpenListing(Model(), open)
      modifies this
      ensures Valid()
      ensures var r := T.MarkReady(rules, old(Model()), o, vendor, hasFood, now, open, old(nextBatch));
              Model() == r.state && outcome == r.outcome && batchId == r.batchId && close == r.close
    {
      batchId, close := None, false;
      if o !in orders { return T.NotFound, None, false; }
      if orders[o].info.vendorId != vendor { return T.Forbidden, None, false; }
      if !Readyable(orders[o].status) { return T.Conflict, None, false; }
      ghost var was := Model();
      orders := orders[o := orders[o].(
        status := ReadyForDelivery,
        info := orders[o].info.(orderType := if hasFood then Food else Grocery),
        readyAt := Some(now))];
      assert Model() == T.ClaimReady(was, o, hasFood, now);
      batchId, close := AssignToBatch(rules, o, now, open);
      Record(OrderEvent(o, OrderReady));
      outcome := T.Committed;
    }

    /** assignToBatch: the first open batch that takes the order, or a new one. */
    method AssignToBatch(rules: Rules, o: Id, now: int, open: seq<Id>) returns (batchId: Option<Id>, close: bool)
      requires Valid() && o in orders && forall b :: b in open ==> b in batches
      modifies this
      ensures Valid() && log == old(log)
      ensures var r := T.PlaceInBatch(rules, old(Model()), o, open, old(nextBatch), now);
              r.outcome == T.Committed && Model() == r.state && batchId == r.batchId && close == r.close
    {
      var order := orders[o].info;
      for i := 0 to |open|
        invariant Model() == old(Model()) && nextBatch == old(nextBatch)
        invariant T.FirstEligible(rules, Model(), order, open) == T.FirstEligible(rules, Model(), order, open[i..])
      {
        var b := open[i];
        var members := T.Infos(orders, batches[b].orders);
        assert open[i..][0] == b && open[i..][1..] == open[i + 1..];
        if Eligible(rules, order, members) {
          close := ShouldClose(rules, now, batches[b].createdAt, members + [order]);
          batches := batches[b := batches[b].(orders := batches[b].orders + [o])];
          orders := orders[o := orders[o].(batchId := Some(b))];
          return Some(b), close;
        }
      }
      assert open[|open|..] == [];
      var b := nextBatch;
      batches := batches[b := Batch(JobStatus.Pending, None, now, [o])];
      orders := orders[o := orders[o].(batchId := Some(b))];
      nextBatch := nextBatch + 1;
      return Some(b), false;
    }

    method CloseBatch(b: Id)
      requires Valid()
      modifies this`batches, this`queue
      ensures Valid() && Model() == T.CloseBatch(old(Model()), b)
    {
      if b !in batches || batches[b].status != JobStatus.Pending {
        return;
      }
      batches := batches[b := batches[b].(status := JobStatus.InProgress)];
      queue := queue + multiset{b};
    }

    /** closeExpiredBatches: list the expired batches, then close them one by one. */
    method CloseExpired(rules: Rules, now: int)
      requires Valid()
      modifies this`batches, this`queue
      ensures Valid() && Model() == E.ClosedSome(old(Model()), E.ExpiredSet(rules, old(Model()), now))
    {
      hide E.ClosedSome, T.CloseBatch;
      ghost var was := Model();
      var cutoff := now - (rules.windowMin + 1) * MS_PER_MIN;
      var expired := set b | b in batches && batches[b].status == JobStatus.Pending && batches[b].createdAt < cutoff;
      assert expired == E.ExpiredSet(rules, was, now);
      ghost var closed: set<Id> := {};
      E.CloseNone(was);
      while expired != {}
        invariant Valid() && closed !! expired
        invariant closed + expired == E.ExpiredSet(rules, was, now)
        invariant Model() == E.ClosedSome(was, closed)
      {
        var b :| b in expired;
        E.CloseOneMore(was, closed, b);
        CloseBatch(b);
        expired := expired - {b};
        closed := closed + {b};
      }
      assert closed == E.ExpiredSet(rules, was, now);
    }

    // -------------------------------------------------------------- assignment

    /** `deliveryJob.upsert` on the unique batch id. */
    method UpsertJob(b: Id, d: Id, n: nat) returns (j: Id)
      requires Valid()
      modifies this`jobs, this`nextJob
      ensures Valid() && UniqueBatch(old(jobs)) && nextJob >= old(nextJob)
      ensures forall i :: i in old(jobs) ==> i < nextJob
      ensures j == T.UpsertTarget(old(jobs), b, old(nextJob))
      ensures jobs == old(jobs)[j := Job(Some(d), b, JobStatus.Assigned, n)]
    {
      var found := FindJobByBatch(b);
      if found.Some? {
        j := found.value;
      } else {
        j := nextJob;
        nextJob := nextJob + 1;
        assert forall i :: i in jobs ==> jobs[i].batchId != b;
      }
      jobs := jobs[j := Job(Some(d), b, JobStatus.Assigned, n)];
    }

    /** The first claim: the batch must be closed and have no deliverer. */
    method ClaimBatch(b: Id, d: Id) returns (claimed: bool)
      modifies this`batches
      ensures claimed == T.Unassigned(old(Model()), b)
      ensures batches == if claimed then old(batches)[b := old(batches)[b].(delivererId := Some(d))] else old(batches)
    {
      claimed := b in batches && batches[b].delivererId.None? && batches[b].status == JobStatus.InProgress;
      if claimed {
        batches := batches[b := batches[b].(delivererId := Some(d))];
      }
    }

    /** The second claim: the deliverer must be available and have no active job. */
    method ClaimDeliverer(d: Id, j: Id) returns (claimed: bool)
      modifies this`deliverers
      ensures claimed == T.Idle(old(Model()), d)
      ensures deliverers == if claimed then old(deliverers)[d := Deliverer(false, Some(j))] else old(deliverers)
    {
      claimed := d in deliverers && deliverers[d].availability && deliverers[d].activeJobId.None?;
      if claimed {
        deliverers := deliverers[d := Deliverer(false, Some(j))];
      }
    }

    method TakeOrders(b: Id, d: Id, j: Id)
      modifies this`orders
      ensures orders == T.AssignOrders(old(orders), b, d, j)
    {
      UpdateOrders(
        (row: Order) => row.batchId == Some(b),
        (row: Order) => row.(delivererId := Some(d), jobId := Some(j), status := WaitingForDeliverer));
    }

    method SetOrdersOfJob(j: Id, status: OrderStatus)
      modifies this`orders
      ensures orders == T.SetOrdersOfJob(old(orders), j, status)
    {
      UpdateOrders((row: Order) => row.jobId == Some(j), (row: Order) => row.(status := status));
    }

    /** finishJob's sweep skips orders that are delivered already. */
    method FinishOrders(j: Id)
      modifies this`orders
      ensures orders == T.SetOrdersOfJob(old(orders), j, OrderStatus.Completed)
    {
      UpdateOrders(
        (row: Order) => row.jobId == Some(j) && row.status != OrderStatus.Completed,
        (row: Order) => row.(status := OrderStatus.Completed));
    }

    method ReleaseOrders(j: Id)
      modifies this`orders
      ensures orders == T.ReleaseOrders(old(orders), j)
    {
      UpdateOrders(
        (row: Order) => row.jobId == Some(j),
        (row: Order) => row.(status := WaitingForDeliverer, jobId := None, delivererId := None));
    }

    /**
     The transaction of assignDelivererToBatch. The job row is written before the two claims; when a
     claim fails every write is undone and only the id sequence has moved.
     */
    method Assign(b: Id, route: seq<Id>, d: Id) returns (outcome: T.Outcome)
      requires Valid()
      modifies this
      ensures Valid()
      ensures var r := T.Assign(old(Model()), b, route, d, old(nextJob), old(nextStop));
              Model() == r.state && outcome == r.outcome
    {
      var batches0, jobs0 := batches, jobs;
      var claimed := AssignStatements(b, route, d);
      if claimed {
        outcome := T.Committed;
      } else {
        jobs, batches := jobs0, batches0;
        outcome := T.Conflict;
      }
    }

    /** The statements of the assignment; a failed claim leaves the writes made so far behind. */
    method AssignStatements(b: Id, route: seq<Id>, d: Id) returns (claimed: bool)
      requires Valid()
      modifies this`jobs, this`batches, this`deliverers, this`orders, this`stops, this`log, this`nextJob, this`nextStop
      ensures nextJob >= old(nextJob) && claimed == (T.Unassigned(old(Model()), b) && T.Idle(old(Model()), d))
      ensures claimed ==>
                Valid() &&
                var target := T.UpsertTarget(old(jobs), b, old(nextJob));
                Model() == T.AssignTo(old(Model()), b, route, d, target, old(nextStop))
      ensures !claimed ==>
                && orders == old(orders) && deliverers == old(deliverers) && stops == old(stops) && log == old(log)
                && nextStop == old(nextStop)
    {
      hide T.AssignOrders, T.RebuildStops, T.UpsertTarget, UniqueBatch;
      ghost var was := Model();
      var j := UpsertJob(b, d, |route|);
      claimed := ClaimBatch(b, d);
      if claimed {
        claimed := ClaimDeliverer(d, j);
        if claimed {
          HandOver(was, b, route, d, j);
        }
      }
    }

    /** The writes that follow the two claims. */
    method HandOver(ghost was: State, b: Id, route: seq<Id>, d: Id, j: Id)
      requires was.orders == orders && was.stops == stops && forall k :: k in stops ==> k < nextStop
      modifies this`orders, this`stops, this`nextStop, this`log
      ensures orders == T.AssignOrders(old(orders), b, d, j)
      ensures stops == T.RebuildStops(was, j, route, old(nextStop))
      ensures log == old(log) + [JobEvent(j, JobAssigned)]
      ensures forall k :: k in stops ==> k < nextStop
    {
      TakeOrders(b, d, j);
      SameCoords(was, b, d, j, route, nextStop);
      RebuildStops(j, route);
      Record(JobEvent(j, JobAssigned));
    }

    method RebuildStops(j: Id, route: seq<Id>)
      requires forall k :: k in stops ==> k < nextStop
      modifies this`stops, this`nextStop
      ensures forall k :: k in stops ==> k < nextStop
      ensures stops == T.RebuildStops(old(Model()), j, route, old(nextStop))
    {
      DeleteStops(j);
      CreateStops(j, route);
    }

    /** The assignment's order update does not touch the customer coordinates. */
    static lemma SameCoords(s: State, b: Id, d: Id, j: Id, route: seq<Id>, base: Id)
      ensures forall t: State :: t.stops == s.stops && t.orders == T.AssignOrders(s.orders, b, d, j) ==>
                T.RebuildStops(t, j, route, base) == T.RebuildStops(s, j, route, base)
    {
      var after := T.AssignOrders(s.orders, b, d, j);
      assert forall k :: base <= k < base + |route| ==>
          T.NewStop(after, j, route, base, k) == T.NewStop(s.orders, j, route, base, k);
      assert T.NewStops(after, j, route, base) == T.NewStops(s.orders, j, route, base);
    }

    // -------------------------------------------------------------- jobs

    method StartJob(j: Id, d: Id) returns (outcome: T.Outcome)
      requires Valid()
      modifies this
      ensures Valid()
      ensures var r := T.StartJob(old(Model()), j, d); Model() == r.state && outcome == r.outcome
    {
      if j in jobs && jobs[j].delivererId == Some(d) && jobs[j].status == JobStatus.Assigned {
        jobs := jobs[j := jobs[j].(status := JobStatus.InProgress)];
        SetOrdersOfJob(j, OrderStatus.InProgress);
        Record(JobEvent(j, JobStarted));
        return T.Committed;
      }
      if j !in jobs { return T.NotFound; }
      if jobs[j].delivererId != Some(d) { return T.Forbidden; }
      return T.Conflict;
    }

    method CompleteStop(j: Id, k: Id, d: Id) returns (outcome: T.Outcome, jobCompleted: bool)
      requires Valid()
      modifies this
      ensures Valid()
      ensures var r := T.CompleteStop(old(Model()), j, k, d);
              Model() == r.state && outcome == r.outcome && jobCompleted == r.jobCompleted
    {
      hide T.StopDone, T.FinishJob;
      if j !in jobs { return T.NotFound, false; }
      if jobs[j].delivererId != Some(d) { return T.Forbidden, false; }
      if jobs[j].status != JobStatus.InProgress { return T.BadRequest, false; }
      if !(k in stops && stops[k].jobId == j && stops[k].status != JobStatus.Completed) { return T.Conflict, false; }
      var orders0, stops0, log0 := orders, stops, log;
      MarkStopDone(k);
      var remaining := CountOpen(j);
      if remaining > 0 {
        assert T.Unfinished(Model(), j) != {};
        return T.Committed, false;
      }
      var finished := FinishJob(j, d);
      if !finished {
        orders, stops, log := orders0, stops0, log0;
        return T.Conflict, false;
      }
      return T.Committed, true;
    }

    /** The stop and then its order; the event only when the order was not delivered already. */
    method MarkStopDone(k: Id)
      requires Valid() && k in stops
      modifies this`stops, this`orders, this`log
      ensures Valid() && Model() == T.StopDone(old(Model()), k)
    {
      stops := stops[k := stops[k].(status := JobStatus.Completed)];
      var o := stops[k].orderId;
      if o in orders && orders[o].status != OrderStatus.Completed {
        orders := orders[o := orders[o].(status := OrderStatus.Completed)];
        Record(OrderEvent(o, OrderCompleted));
      }
    }

    method FinishJob(j: Id, d: Id) returns (finished: bool)
      requires Valid()
      modifies this`jobs, this`batches, this`deliverers, this`orders, this`log
      ensures Valid() && finished == T.CanFinish(old(Model()), j, d)
      ensures Model() == if finished then T.FinishJob(old(Model()), j, d) else old(Model())
    {
      if !(j in jobs && jobs[j].status == JobStatus.InProgress) { return false; }
      var jobs0, batches0 := jobs, batches;
      var b := jobs[j].batchId;
      jobs := jobs[j := jobs[j].(status := JobStatus.Completed)];
      if b !in batches {
        jobs := jobs0;
        return false;
      }
      batches := batches[b := batches[b].(status := JobStatus.Completed)];
      if d !in deliverers {
        jobs, batches := jobs0, batches0;
        return false;
      }
      deliverers := deliverers[d := Deliverer(true, None)];
      FinishOrders(j);
      Record(JobEvent(j, JobCompleted));
      return true;
    }

    // -------------------------------------------------------------- recovery

    /** The deliverer row is cleared first, without a guard; the job row decides. */
    method Recover(d: Id, j: Id) returns (outcome: T.Outcome)
      requires Valid()
      modifies this
      ensures Valid()
      ensures var r := T.Recover(old(Model()), d, j); Model() == r.state && outcome == r.outcome
      ensures outcome == T.Committed ==>
        d in deliverers && deliverers[d].availability == true && deliverers[d].activeJobId == None
    {
      var deliverers0, jobs0 := deliverers, jobs;
      if d !in deliverers { return T.NotFound; }
      deliverers := deliverers[d := Deliverer(true, None)];
      if !(j in jobs && jobs[j].status == JobStatus.Assigned) {
        deliverers := deliverers0;
        return T.NotFound;
      }
      var b := jobs[j].batchId;
      jobs := jobs[j := jobs[j].(status := JobStatus.Pending, delivererId := None)];
      if b !in batches {
        deliverers, jobs := deliverers0, jobs0;
        return T.NotFound;
      }
      batches := batches[b := batches[b].(delivererId := None, status := JobStatus.InProgress)];
      ReleaseOrders(j);
      outcome := T.Committed;
    }

    /** checkStaleDeliverers over one list: a failed entry is skipped, the others are handled. */
    method Sweep(entries: seq<Entry>)
      requires Valid()
      modifies this
      ensures Valid() && Model() == SweepAll(old(Model()), entries)
    {
      for i := 0 to |entries|
        invariant Valid()
        invariant SweepAll(old(Model()), entries) == SweepAll(Model(), entries[i..])
      {
        var e := entries[i];
        ghost var was := Model();
        assert entries[i..][0] == e && entries[i..][1..] == entries[i + 1..];
        if e.seen == JobStatus.Assigned {
          var outcome := Recover(e.delivererId, e.jobId);
          if outcome == T.Committed {
            queue := queue + multiset{jobs[e.jobId].batchId};
          }
        }
        assert Model() == HandleEntry(was, e);
      }
      assert entries[|entries|..] == [];
    }

    /**
     requeueStuckBatches: one message for each of the oldest batches stuck for a minute, as many as there
     are free deliverers. `stuck` is the answer of the database.
     */
    method RequeueStuck(now: int, stuck: seq<Id>) returns (sent: nat)
      requires Valid() && T.StuckListing(Model(), Some(now - STUCK_BATCH_MIN_AGE_MS), stuck)
      modifies this`queue
      ensures Valid() && sent == if |stuck| < |FreeDeliverers()| then |stuck| else |FreeDeliverers()|
      ensures Model() == T.RequeueAll(old(Model()), stuck[..sent])
      ensures queue == old(queue) + multiset(stuck[..sent])
      ensures forall b :: b in stuck[..sent] ==>
        T.Unassigned(old(Model()), b) && batches[b].createdAt < now - 60000
      ensures forall b, c :: b in stuck[..sent] && c in stuck[sent..] ==>
        b in batches && c in batches && batches[b].createdAt <= batches[c].createdAt
      ensures forall b :: b in stuck[..sent] ==> R.Sendable(old(Model()), b)
    {
      ghost var was, before := Model(), Some(now - STUCK_BATCH_MIN_AGE_MS);
      var free := CountFree();
      sent := if |stuck| < free then |stuck| else free;
      assert FreeDeliverers() == R.Free(was);
      ListedAreStuck(was, before, stuck);
      FirstAreSendable(was, before, stuck, sent);
      OldestFirst(was, before, was, stuck, sent);
      hide T.RequeueAll, T.StuckListing, R.Sendable, R.Free;
      SendFirst(stuck, sent);
    }

    /** The loop over the first `n` of the list. */
    method SendFirst(stuck: seq<Id>, n: nat)
      requires n <= |stuck| && forall i :: 0 <= i < |stuck| ==> T.Unassigned(Model(), stuck[i])
      modifies this`queue
      ensures Model() == T.RequeueAll(old(Model()), stuck[..n])
      ensures queue == old(queue) + multiset(stuck[..n])
    {
      hide T.RequeueAll, T.Unassigned, T.Requeue;
      assert T.RequeueAll(Model(), stuck[..0]) == Model() by { NoneRequeued(Model(), stuck); }
      for i := 0 to n
        invariant Model() == T.RequeueAll(old(Model()), stuck[..i])
        invariant queue == old(queue) + multiset(stuck[..i])
      {
        OneMoreRequeued(old(Model()), Model(), stuck, i);
        assert stuck[..i + 1] == stuck[..i] + [stuck[i]];
        queue := queue + multiset{stuck[i]};
      }
    }

    /** The end of afterJobCompleted: one message for the oldest batch that waits for a deliverer, if there is one. */
    method RequeueOldest(stuck: seq<Id>)
      requires Valid() && T.StuckListing(Model(), None, stuck)
      modifies this`queue
      ensures Valid()
      ensures if stuck == [] then Model() == old(Model()) else Model() == T.Requeue(old(Model()), stuck[0])
      ensures stuck != [] ==> R.Sendable(old(Model()), stuck[0])
      ensures stuck == [] <==> forall b :: !T.Unassigned(old(Model()), b)
      ensures forall b :: T.Unassigned(old(Model()), b) ==>
        stuck != [] && stuck[0] in batches && b in batches && batches[stuck[0]].createdAt <= batches[b].createdAt
    {
      ListedAreStuck(Model(), None, stuck);
      if stuck != [] {
        assert stuck[0] in stuck && stuck[..1] == [stuck[0]];
        FirstAreSendable(Model(), None, stuck, 1);
        OldestFirst(Model(), None, Model(), stuck, 1);
        assert forall b :: b in stuck ==> b == stuck[0] || b in stuck[1..];
        queue := queue + multiset{stuck[0]};
      }
    }

    ghost function FreeDeliverers(): set<Id>
      reads this
    {
      set d | d in deliverers && deliverers[d].availability && deliverers[d].activeJobId.None?
    }

    method CountFree() returns (n: nat)
      ensures n == |FreeDeliverers()|
    {
      ghost var seen: set<Id> := {};
      var todo := deliverers.Keys;
      n := 0;
      while todo != {}
        invariant todo <= deliverers.Keys
        invariant seen == set d | d in deliverers && d !in todo && deliverers[d].availability
            && deliverers[d].activeJobId.None?
        invariant n == |seen|
        decreases |todo|
      {
        var d :| d in todo;
        if deliverers[d].availability && deliverers[d].activeJobId.None? {
          n := n + 1;
          seen := seen + {d};
        }
        todo := todo - {d};
      }
      assert seen == FreeDeliverers();
    }
  }

  /** STUCK_BATCH_MIN_AGE_MS. */
  const STUCK_BATCH_MIN_AGE_MS := 60000

  /** The two services send what `Resends` lets a faithful run send. */
  lemma FirstAreSendable(s: State, before: Option<int>, stuck: seq<Id>, sent: nat)
    requires T.StuckListing(s, before, stuck) && sent <= |stuck| && (sent <= 1 || sent <= |R.Free(s)|)
    ensures forall b :: b in stuck[..sent] ==> R.Sendable(s, b)
  {
    forall b | b in stuck[..sent] ensures R.Sendable(s, b) {
      var i :| 0 <= i < sent && stuck[i] == b;
      assert R.Among(stuck, b, 1) || R.Among(stuck, b, |R.Free(s)|);
    }
  }

  lemma NoneRequeued(s: State, stuck: seq<Id>)
    ensures T.RequeueAll(s, stuck[..0]) == s
  {
  }

  lemma ListedAreStuck(s: State, before: Option<int>, stuck: seq<Id>)
    requires T.StuckListing(s, before, stuck)
    ensures forall b :: b in stuck ==> T.Unassigned(s, b) && (before.Some? ==> s.batches[b].createdAt < before.value)
    ensures forall b :: T.Unassigned(s, b) && before.None? ==> b in stuck
  {
  }

  /** A message for a batch that the listing found stuck is never refused. */
  lemma OneMoreRequeued(s: State, now: State, stuck: seq<Id>, i: nat)
    requires i < |stuck| && T.Unassigned(s, stuck[i]) && now == T.RequeueAll(s, stuck[..i]) && now.batches == s.batches
    ensures T.RequeueAll(s, stuck[..i + 1]) == now.(queue := now.queue + multiset{stuck[i]})
  {
    assert stuck[..i + 1][..i] == stuck[..i];
  }

  lemma OldestFirst(now: State, before: Option<int>, s: State, stuck: seq<Id>, sent: nat)
    requires T.StuckListing(s, before, stuck) && sent <= |stuck| && now.batches == s.batches
    ensures forall b, c :: b in stuck[..sent] && c in stuck[sent..] ==>
      b in s.batches && c in s.batches && s.batches[b].createdAt <= s.batches[c].createdAt
  {
    forall b, c | b in stuck[..sent] && c in stuck[sent..]
      ensures b in s.batches && c in s.batches && s.batches[b].createdAt <= s.batches[c].createdAt
    {
      var i :| 0 <= i < sent && stuck[i] == b;
      var j :| sent <= j < |stuck| && stuck[j] == c;
      assert stuck[i] in stuck && stuck[j] in stuck;
    }
  }

  function HandleEntry(s: State, e: Entry): State {
    if e.seen == JobStatus.Assigned then RecoverEntry(s, e) else s
  }

  function SweepAll(s: State, entries: seq<Entry>): State
    decreases |entries|
  {
    if entries == [] then s else SweepAll(HandleEntry(s, entries[0]), entries[1..])
  }

  /** A sweep that nothing interrupts is the run of its single advances. */
  lemma {:induction false} SweepIsARun(rules: Rules, sys: System, entries: seq<Entry>, advances: seq<Step>)
    requires sys.sweep == entries && |advances| == |entries|
    requires forall i :: 0 <= i < |advances| ==> advances[i] == SweepAdvanced
    ensures Run(rules, sys, advances) == sys.(db := SweepAll(sys.db, entries), sweep := [])
    decreases |entries|
  {
    if entries != [] {
      var next := Apply(rules, sys, SweepAdvanced);
      SweepIsARun(rules, next, entries[1..], advances[1..]);
    }
  }
}
