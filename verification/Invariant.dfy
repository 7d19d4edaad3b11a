/**
 The invariant of the dispatch store. No row guards itself: the unguarded updates in assignment,
 start, finish and recovery are right only because these clauses hold across all five tables.
 */
module Invariant {
  import opened Types
  import opened Transactions

  // ---------------------------------------------------------------- references

  ghost predicate OrderRef(s: State, o: Id)
    requires o in s.orders
  {
    s.orders[o].batchId.Some? ==>
      s.orders[o].batchId.value in s.batches && o in s.batches[s.orders[o].batchId.value].orders
  }

  ghost predicate BatchRef(s: State, b: Id)
    requires b in s.batches
  {
    && s.batches[b].orders != [] && NoDuplicates(s.batches[b].orders)
    && (forall o :: o in s.batches[b].orders ==> o in s.orders && s.orders[o].batchId == Some(b))
  }

  ghost predicate Refs(s: State) {
    && (forall o :: o in s.orders ==> OrderRef(s, o))
    && (forall b :: b in s.batches ==> BatchRef(s, b))
    && (forall j :: j in s.jobs ==> s.jobs[j].batchId in s.batches)
    && UniqueBatch(s.jobs)
    && (forall k :: k in s.stops ==> s.stops[k].jobId in s.jobs)
  }

  // ---------------------------------------------------------------- deliverers, jobs and batches

  ghost predicate DelivererLinked(s: State, d: Id)
    requires d in s.deliverers
  {
    s.deliverers[d].activeJobId.Some? ==>
      var j := s.deliverers[d].activeJobId.value;
      j in s.jobs && Active(s.jobs[j]) && s.jobs[j].delivererId == Some(d)
  }

  ghost predicate JobLinked(s: State, j: Id)
    requires j in s.jobs && s.jobs[j].batchId in s.batches
  {
    var job, batch := s.jobs[j], s.batches[s.jobs[j].batchId];
    match job.status
    case Pending =>
      job.delivererId.None? && batch.status == JobStatus.InProgress && batch.delivererId.None?
    case Completed =>
      job.delivererId.Some? && batch.status == JobStatus.Completed
    case _ =>
      && job.delivererId.Some? && job.delivererId.value in s.deliverers
      && s.deliverers[job.delivererId.value].activeJobId == Some(j)
      && batch.status == JobStatus.InProgress && batch.delivererId == job.delivererId
  }

  ghost predicate BatchLinked(s: State, b: Id)
    requires b in s.batches
  {
    match s.batches[b].status
    case Pending => s.batches[b].delivererId.None? && !HasJob(s.jobs, b)
    case InProgress => s.batches[b].delivererId.Some? ==> HasJob(s.jobs, b)
    case Completed => HasJob(s.jobs, b)
    case Assigned => false
  }

  ghost predicate Links(s: State)
    requires Refs(s)
  {
    && (forall d :: d in s.deliverers ==> DelivererLinked(s, d))
    && (forall j :: j in s.jobs ==> JobLinked(s, j))
    && (forall b :: b in s.batches ==> BatchLinked(s, b))
  }

  // ---------------------------------------------------------------- order statuses

  /** The status and owner an order of `job` has, whatever led there. */
  ghost predicate OwnedOrder(row: Order, j: Id, job: Job) {
    match job.status
    case Pending => row.status == WaitingForDeliverer && row.jobId.None? && row.delivererId.None?
    case Assigned => row.status == WaitingForDeliverer && row.jobId == Some(j) && row.delivererId == job.delivererId
    case InProgress =>
      && (row.status == OrderStatus.InProgress || row.status == OrderStatus.Completed)
      && row.jobId == Some(j) && row.delivererId == job.delivererId
    case Completed =>
      row.status == OrderStatus.Completed && row.jobId == Some(j) && row.delivererId == job.delivererId
  }

  ghost predicate OrderPhase(s: State, o: Id)
    requires o in s.orders
  {
    var row := s.orders[o];
    match row.batchId
    case None => PreReady(row.status) && row.jobId.None? && row.delivererId.None?
    case Some(b) =>
      && row.readyAt.Some?
      && (!HasJob(s.jobs, b) ==> row.status == ReadyForDelivery && row.jobId.None? && row.delivererId.None?)
      && (forall j :: j in s.jobs && s.jobs[j].batchId == b ==> OwnedOrder(row, j, s.jobs[j]))
  }

  ghost predicate Statuses(s: State) {
    forall o :: o in s.orders ==> OrderPhase(s, o)
  }

  // ---------------------------------------------------------------- stops

  function ReadyTime(orders: map<Id, Order>, o: Id): int {
    if o in orders && orders[o].readyAt.Some? then orders[o].readyAt.value else 0
  }

  /** `route` is an answer the database may give for the members of a batch ordered by `readyAt`. */
  ghost predicate IsRoute(orders: map<Id, Order>, members: seq<Id>, route: seq<Id>) {
    && |route| == |members|
    && NoDuplicates(route)
    && (forall o :: o in route <==> o in members)
    && (forall i, j :: 0 <= i < j < |route| ==> ReadyTime(orders, route[i]) <= ReadyTime(orders, route[j]))
  }

  /** The drop-offs of job `j` are the block of ids from `base`, one per entry of `route`. */
  ghost predicate StopsFollow(stops: map<Id, DropOff>, j: Id, base: Id, route: seq<Id>) {
    && (forall k :: base <= k < base + |route| ==> k in stops && stops[k].jobId == j)
    && (forall k :: k in stops && stops[k].jobId == j ==>
          base <= k < base + |route| && stops[k].orderId == route[k - base] && stops[k].sequence == k - base)
  }

  ghost predicate Routed(s: State, j: Id, base: Id, route: seq<Id>)
    requires j in s.jobs && s.jobs[j].batchId in s.batches
  {
    && IsRoute(s.orders, s.batches[s.jobs[j].batchId].orders, route)
    && StopsFollow(s.stops, j, base, route)
    && s.jobs[j].totalOrders == |route|
  }

  /** A stop agrees with its job, and in a started job with its order. */
  ghost predicate StopPhase(s: State, k: Id)
    requires k in s.stops && s.stops[k].jobId in s.jobs
  {
    var stop := s.stops[k];
    match s.jobs[stop.jobId].status
    case Pending => true
    case Assigned => stop.status == JobStatus.Pending
    case InProgress =>
      && (stop.status == JobStatus.Pending || stop.status == JobStatus.Completed)
      && (stop.orderId in s.orders ==>
            (stop.status == JobStatus.Completed <==> s.orders[stop.orderId].status == OrderStatus.Completed))
    case Completed => stop.status == JobStatus.Completed
  }

  ghost predicate Routes(s: State)
    requires forall j :: j in s.jobs ==> s.jobs[j].batchId in s.batches
  {
    forall j :: j in s.jobs && s.jobs[j].status != JobStatus.Pending ==> exists base, route :: Routed(s, j, base, route)
  }

  ghost predicate StopPhases(s: State)
    requires forall k :: k in s.stops ==> s.stops[k].jobId in s.jobs
  {
    forall k :: k in s.stops ==> StopPhase(s, k)
  }

  ghost predicate StartedHasWork(s: State) {
    forall j :: j in s.jobs && s.jobs[j].status == JobStatus.InProgress ==> Unfinished(s, j) != {}
  }

  ghost predicate Stops(s: State)
    requires Refs(s)
  {
    Routes(s) && StopPhases(s) && StartedHasWork(s)
  }

  ghost predicate Inv(s: State) {
    Refs(s) && Links(s) && Statuses(s) && Stops(s)
  }

  /** The order of a stop of a job in use is a member of that job's batch. */
  lemma StopMember(s: State, k: Id)
    requires Refs(s) && Routes(s) && k in s.stops && s.jobs[s.stops[k].jobId].status != JobStatus.Pending
    ensures s.stops[k].orderId in s.orders
    ensures s.orders[s.stops[k].orderId].batchId == Some(s.jobs[s.stops[k].jobId].batchId)
  {
    var j := s.stops[k].jobId;
    var base: Id, route: seq<Id> :| Routed(s, j, base, route);
    assert s.stops[k].orderId in route;
    assert BatchRef(s, s.jobs[j].batchId);
  }

  /** Two stops of a job in use serve different orders. */
  lemma StopsDiffer(s: State, k: Id, l: Id)
    requires Refs(s) && Routes(s) && k in s.stops && l in s.stops && k != l
    requires s.stops[k].jobId == s.stops[l].jobId && s.jobs[s.stops[k].jobId].status != JobStatus.Pending
    ensures s.stops[k].orderId != s.stops[l].orderId
  {
    var j := s.stops[k].jobId;
    var base: Id, route: seq<Id> :| Routed(s, j, base, route);
    assert route[k - base] != route[l - base];
  }

  /** Every member of the batch of a job in use has a stop. */
  lemma MemberHasStop(s: State, j: Id, o: Id) returns (k: Id)
    requires Refs(s) && Routes(s) && j in s.jobs && s.jobs[j].status != JobStatus.Pending
    requires o in s.orders && s.orders[o].batchId == Some(s.jobs[j].batchId)
    ensures k in s.stops && s.stops[k].jobId == j && s.stops[k].orderId == o
  {
    assert OrderRef(s, o);
    var base: Id, route: seq<Id> :| Routed(s, j, base, route);
    var i: nat :| i < |route| && route[i] == o;
    k := base + i;
    assert k in s.stops;
  }

  /** What a step must leave alone for the stops of job `j` to keep following the same route. */
  ghost predicate SameStops(s: State, s': State, j: Id)
    requires j in s.jobs && s.jobs[j].batchId in s.batches
  {
    && j in s'.jobs && s'.jobs[j].batchId == s.jobs[j].batchId && s'.jobs[j].totalOrders == s.jobs[j].totalOrders
    && s.jobs[j].batchId in s'.batches
    && s'.batches[s.jobs[j].batchId].orders == s.batches[s.jobs[j].batchId].orders
    && (forall o :: o in s.batches[s.jobs[j].batchId].orders ==> ReadyTime(s'.orders, o) == ReadyTime(s.orders, o))
    && (forall k :: k in s.stops && s.stops[k].jobId == j ==> k in s'.stops && s'.stops[k].jobId == j)
    && (forall k :: k in s'.stops && s'.stops[k].jobId == j ==>
          && k in s.stops && s.stops[k].jobId == j
          && s'.stops[k].orderId == s.stops[k].orderId && s'.stops[k].sequence == s.stops[k].sequence)
  }

  lemma RouteStays(s: State, s': State, j: Id)
    requires j in s.jobs && s.jobs[j].batchId in s.batches && SameStops(s, s', j)
    requires exists base, route :: Routed(s, j, base, route)
    ensures exists base, route :: Routed(s', j, base, route)
  {
    var base: Id, route: seq<Id> :| Routed(s, j, base, route);
    assert Routed(s', j, base, route);
  }
}
