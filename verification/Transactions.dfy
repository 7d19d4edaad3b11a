/**
 What each committed transaction does to the store, one function per transaction. A transaction
 that throws leaves the store as it was. The smaller functions (`ClaimReady`, `JoinBatch`,
 `MarkStopDone`, ...) are single statements; the locking models interleave those.
 */
module Transactions {
  import opened Types
  import opened Batching

  datatype Outcome = Committed | NotFound | Forbidden | BadRequest | Conflict

  datatype Result = Result(state: State, outcome: Outcome)

  function Abort(s: State, outcome: Outcome): Result {
    Result(s, outcome)
  }

  // ---------------------------------------------------------------- orders and batches

  function Append(s: State, e: Event): State {
    s.(log := s.log + [e])
  }

  function CreateOrder(s: State, o: Id, info: OrderInfo): State {
    if o in s.orders then s
    else
      var row := Order(info.(orderType := Empty), PendingVendorConfirmation, None, None, None, None);
      Append(s.(orders := s.orders[o := row]), OrderEvent(o, OrderCreated))
  }

  /** createOrder: `profile` is the vendor's row, when there is one. */
  function PlaceOrder(s: State, o: Id, vendorId: Id, profile: Option<Vendor>, customer: Coords): Result {
    if profile.None? then Abort(s, NotFound)
    else if !profile.value.isActive || !profile.value.isVerified then Abort(s, Forbidden)
    else Result(CreateOrder(s, o, OrderInfo(vendorId, Empty, profile.value.at, customer)), Committed)
  }

  /** The vendor may accept or reject the order: what is checked before the decision is written. */
  predicate CanDecide(s: State, o: Id) {
    o in s.orders && s.orders[o].status == PendingVendorConfirmation
  }

  /** The update of a vendor's decision. It carries no condition of its own. */
  function WriteDecision(s: State, o: Id, accept: bool): State {
    if o !in s.orders then s
    else s.(orders := s.orders[o := s.orders[o].(status := if accept then VendorAccepted else VendorRejected)])
  }

  /** A decision that finds its order in no batch when it is written, however long after the check. */
  function VendorDecide(s: State, o: Id, accept: bool): State {
    if o in s.orders && s.orders[o].batchId.None? then WriteDecision(s, o, accept) else s
  }

  function ClaimReady(s: State, o: Id, hasFood: bool, now: int): State
    requires o in s.orders
  {
    var row := s.orders[o];
    s.(orders := s.orders[o := row.(
      status := ReadyForDelivery,
      info := row.info.(orderType := if hasFood then Food else Grocery),
      readyAt := Some(now))])
  }

  function JoinBatch(s: State, o: Id, b: Id): State
    requires o in s.orders && b in s.batches
  {
    s.(batches := s.batches[b := s.batches[b].(orders := s.batches[b].orders + [o])],
       orders := s.orders[o := s.orders[o].(batchId := Some(b))])
  }

  function OpenBatch(s: State, o: Id, b: Id, createdAt: int): State
    requires o in s.orders
  {
    s.(batches := s.batches[b := Batch(JobStatus.Pending, None, createdAt, [o])],
       orders := s.orders[o := s.orders[o].(batchId := Some(b))])
  }

  /** The rows behind a list of order ids. Foreign keys guarantee that the rows exist. */
  function Infos(orders: map<Id, Order>, ids: seq<Id>): (infos: seq<OrderInfo>)
    ensures |infos| == |ids|
    ensures forall i :: 0 <= i < |ids| && ids[i] in orders ==> infos[i] == orders[ids[i]].info
  {
    var none := OrderInfo(0, Empty, Coords(None, None), Coords(None, None));
    seq(|ids|, i requires 0 <= i < |ids| => if ids[i] in orders then orders[ids[i]].info else none)
  }

  predicate BatchTakes(rules: Rules, s: State, order: OrderInfo, b: Id) {
    b in s.batches && Eligible(rules, order, Infos(s.orders, s.batches[b].orders))
  }

  /** The first batch of the list that takes the order. */
  function FirstEligible(rules: Rules, s: State, order: OrderInfo, open: seq<Id>): Option<Id> {
    if open == [] then None
    else if BatchTakes(rules, s, order, open[0]) then Some(open[0])
    else FirstEligible(rules, s, order, open[1..])
  }

  /** `open` is an answer the database may give for the PENDING batches ordered by `createdAt`. */
  ghost predicate OpenListing(s: State, open: seq<Id>) {
    && NoDuplicates(open)
    && (forall b :: b in open <==> b in s.batches && s.batches[b].status == JobStatus.Pending)
    && (forall i, j :: 0 <= i < j < |open| && open[i] in s.batches && open[j] in s.batches ==>
          s.batches[open[i]].createdAt <= s.batches[open[j]].createdAt)
  }

  /** Batch ids are drawn from a sequence inside the advisory lock, so they grow. */
  ghost predicate FreshBatchId(s: State, b: Id) {
    forall c :: c in s.batches ==> c < b
  }

  datatype ReadyResult = ReadyResult(state: State, outcome: Outcome, batchId: Option<Id>, created: bool, close: bool)

  function PlaceInBatch(rules: Rules, s: State, o: Id, open: seq<Id>, newBatch: Id, now: int): ReadyResult
    requires o in s.orders
  {
    match FirstEligible(rules, s, s.orders[o].info, open)
    case Some(b) =>
      if b !in s.batches then ReadyResult(s, Conflict, None, false, false)
      else
        var members := Infos(s.orders, s.batches[b].orders) + [s.orders[o].info];
        ReadyResult(JoinBatch(s, o, b), Committed, Some(b), false,
                    ShouldClose(rules, now, s.batches[b].createdAt, members))
    case None => ReadyResult(OpenBatch(s, o, newBatch, now), Committed, Some(newBatch), true, false)
  }

  /** vendorMarkReady: claim the order, find or create a batch, log the event. */
  function MarkReady(
    rules: Rules, s: State, o: Id, vendor: Id, hasFood: bool, now: int, open: seq<Id>, newBatch: Id): ReadyResult
  {
    if o !in s.orders then ReadyResult(s, NotFound, None, false, false)
    else if s.orders[o].info.vendorId != vendor then ReadyResult(s, Forbidden, None, false, false)
    else if !Readyable(s.orders[o].status) then ReadyResult(s, Conflict, None, false, false)
    else
      var placed := PlaceInBatch(rules, ClaimReady(s, o, hasFood, now), o, open, newBatch, now);
      if placed.outcome != Committed then ReadyResult(s, placed.outcome, None, false, false)
      else placed.(state := Append(placed.state, OrderEvent(o, OrderReady)))
  }

  predicate CanClose(s: State, b: Id) {
    b in s.batches && s.batches[b].status == JobStatus.Pending
  }

  /** closeBatch: whoever flips the status sends the assignment message. */
  function CloseBatch(s: State, b: Id): State {
    if !CanClose(s, b) then s
    else s.(batches := s.batches[b := s.batches[b].(status := JobStatus.InProgress)],
            queue := s.queue + multiset{b})
  }

  predicate Unassigned(s: State, b: Id) {
    b in s.batches && s.batches[b].status == JobStatus.InProgress && s.batches[b].delivererId.None?
  }

  /**
   afterJobCompleted and requeueStuckBatches send another message for a batch that was stuck when it
   was read; by now it may have been assigned, but it cannot be open again.
   */
  function Requeue(s: State, b: Id): State {
    if b in s.batches && s.batches[b].status != JobStatus.Pending then s.(queue := s.queue + multiset{b}) else s
  }

  /** `stuck` is an answer to the query for closed batches without a deliverer, oldest first. */
  ghost predicate StuckListing(s: State, before: Option<int>, stuck: seq<Id>) {
    && NoDuplicates(stuck)
    && (forall b :: b in stuck <==> Unassigned(s, b) && (before.Some? ==> s.batches[b].createdAt < before.value))
    && (forall i, j :: 0 <= i < j < |stuck| && stuck[i] in s.batches && stuck[j] in s.batches ==>
          s.batches[stuck[i]].createdAt <= s.batches[stuck[j]].createdAt)
  }

  /** One message after the other. */
  function RequeueAll(s: State, stuck: seq<Id>): State
    decreases |stuck|
  {
    if stuck == [] then s else Requeue(RequeueAll(s, stuck[..|stuck| - 1]), stuck[|stuck| - 1])
  }

  // ---------------------------------------------------------------- assignment

  ghost predicate HasJob(jobs: map<Id, Job>, b: Id) {
    exists j :: j in jobs && jobs[j].batchId == b
  }

  ghost function JobFor(jobs: map<Id, Job>, b: Id): (j: Id)
    requires HasJob(jobs, b)
    ensures j in jobs && jobs[j].batchId == b
  {
    var j :| j in jobs && jobs[j].batchId == b;
    j
  }

  /** The row `upsert` writes to: the batch's job when it has one, otherwise a new row. */
  ghost function UpsertTarget(jobs: map<Id, Job>, b: Id, newJob: Id): (j: Id)
    ensures if HasJob(jobs, b) then j in jobs && jobs[j].batchId == b else j == newJob
  {
    if HasJob(jobs, b) then JobFor(jobs, b) else newJob
  }

  predicate Idle(s: State, d: Id) {
    d in s.deliverers && s.deliverers[d].availability && s.deliverers[d].activeJobId.None?
  }

  function DropCoords(orders: map<Id, Order>, o: Id): Coords {
    if o in orders then orders[o].info.customer else Coords(None, None)
  }

  function NewStop(orders: map<Id, Order>, j: Id, route: seq<Id>, base: Id, k: Id): DropOff
    requires base <= k < base + |route|
  {
    DropOff(j, route[k - base], k - base, JobStatus.Pending, DropCoords(orders, route[k - base]))
  }

  /** createMany: one drop-off per entry of the route, in route order. */
  function NewStops(orders: map<Id, Order>, j: Id, route: seq<Id>, base: Id): map<Id, DropOff>
  {
    map k: Id | base <= k < base + |route| :: NewStop(orders, j, route, base, k)
  }

  /** deleteMany followed by createMany on the drop-offs of job `j`. */
  function RebuildStops(s: State, j: Id, route: seq<Id>, base: Id): map<Id, DropOff> {
    (map k | k in s.stops && s.stops[k].jobId != j :: s.stops[k]) + NewStops(s.orders, j, route, base)
  }

  /** Drop-off ids come from a sequence, so they are above every id in use. */
  ghost predicate FreshStopIds(s: State, base: Id) {
    forall k :: k in s.stops ==> k < base
  }

  function AssignOrders(orders: map<Id, Order>, b: Id, d: Id, j: Id): map<Id, Order> {
    map o | o in orders ::
      if orders[o].batchId == Some(b)
      then orders[o].(delivererId := Some(d), jobId := Some(j), status := WaitingForDeliverer)
      else orders[o]
  }

  /** The writes of an assignment whose job row is `j`. */
  function AssignTo(s: State, b: Id, route: seq<Id>, d: Id, j: Id, base: Id): State
    requires b in s.batches
  {
    Append(s.(
      jobs := s.jobs[j := Job(Some(d), b, JobStatus.Assigned, |route|)],
      batches := s.batches[b := s.batches[b].(delivererId := Some(d))],
      deliverers := s.deliverers[d := Deliverer(false, Some(j))],
      orders := AssignOrders(s.orders, b, d, j),
      stops := RebuildStops(s, j, route, base)), JobEvent(j, JobAssigned))
  }

  /**
   The transaction of assignDelivererToBatch. `route` is the order list and `d` the deliverer of a
   snapshot that may be arbitrarily old.
   */
  ghost function Assign(s: State, b: Id, route: seq<Id>, d: Id, newJob: Id, base: Id): Result {
    if !Unassigned(s, b) then Abort(s, Conflict)
    else if !Idle(s, d) then Abort(s, Conflict)
    else Result(AssignTo(s, b, route, d, UpsertTarget(s.jobs, b, newJob), base), Committed)
  }

  // ---------------------------------------------------------------- jobs

  function SetOrdersOfJob(orders: map<Id, Order>, j: Id, status: OrderStatus): map<Id, Order> {
    map o | o in orders :: if orders[o].jobId == Some(j) then orders[o].(status := status) else orders[o]
  }

  predicate CanStart(s: State, j: Id, d: Id) {
    j in s.jobs && s.jobs[j].delivererId == Some(d) && s.jobs[j].status == JobStatus.Assigned
  }

  function StartJob(s: State, j: Id, d: Id): Result {
    if CanStart(s, j, d) then
      Result(Append(s.(
        jobs := s.jobs[j := s.jobs[j].(status := JobStatus.InProgress)],
        orders := SetOrdersOfJob(s.orders, j, OrderStatus.InProgress)), JobEvent(j, JobStarted)), Committed)
    else if j !in s.jobs then Abort(s, NotFound)
    else if s.jobs[j].delivererId != Some(d) then Abort(s, Forbidden)
    else Abort(s, Conflict)
  }

  predicate OpenStop(s: State, j: Id, k: Id) {
    k in s.stops && s.stops[k].jobId == j && s.stops[k].status != JobStatus.Completed
  }

  ghost function Unfinished(s: State, j: Id): set<Id> {
    set k | k in s.stops && OpenStop(s, j, k)
  }

  function MarkStopDone(s: State, k: Id): State
    requires k in s.stops
  {
    s.(stops := s.stops[k := s.stops[k].(status := JobStatus.Completed)])
  }

  predicate OrderOpen(s: State, o: Id) {
    o in s.orders && s.orders[o].status != OrderStatus.Completed
  }

  function MarkOrderDone(s: State, o: Id): State {
    if OrderOpen(s, o)
    then Append(s.(orders := s.orders[o := s.orders[o].(status := OrderStatus.Completed)]),
        OrderEvent(o, OrderCompleted))
    else s
  }

  predicate CanFinish(s: State, j: Id, d: Id) {
    && j in s.jobs && s.jobs[j].status == JobStatus.InProgress
    && s.jobs[j].batchId in s.batches && d in s.deliverers
  }

  /** finishJob: the batch, deliverer and order updates carry no guard of their own. */
  function FinishJob(s: State, j: Id, d: Id): State
    requires CanFinish(s, j, d)
  {
    var b := s.jobs[j].batchId;
    Append(s.(
      jobs := s.jobs[j := s.jobs[j].(status := JobStatus.Completed)],
      batches := s.batches[b := s.batches[b].(status := JobStatus.Completed)],
      deliverers := s.deliverers[d := Deliverer(true, None)],
      orders := SetOrdersOfJob(s.orders, j, OrderStatus.Completed)), JobEvent(j, JobCompleted))
  }

  datatype StopResult = StopResult(state: State, outcome: Outcome, jobCompleted: bool)

  predicate CanCompleteStop(s: State, j: Id, k: Id, d: Id) {
    && j in s.jobs && s.jobs[j].delivererId == Some(d) && s.jobs[j].status == JobStatus.InProgress
    && OpenStop(s, j, k)
  }

  /** The store after the stop and its order are done, before the remaining stops are counted. */
  function StopDone(s: State, k: Id): State
    requires k in s.stops
  {
    MarkOrderDone(MarkStopDone(s, k), s.stops[k].orderId)
  }

  /** completeDropOff, with finishJob when no stop is left. */
  ghost function CompleteStop(s: State, j: Id, k: Id, d: Id): StopResult {
    if j !in s.jobs then StopResult(s, NotFound, false)
    else if s.jobs[j].delivererId != Some(d) then StopResult(s, Forbidden, false)
    else if s.jobs[j].status != JobStatus.InProgress then StopResult(s, BadRequest, false)
    else if !OpenStop(s, j, k) then StopResult(s, Conflict, false)
    else
      var done := StopDone(s, k);
      if Unfinished(done, j) != {} then StopResult(done, Committed, false)
      else if CanFinish(done, j, d) then StopResult(FinishJob(done, j, d), Committed, true)
      else StopResult(s, Conflict, false)
  }

  // ---------------------------------------------------------------- recovery and profile

  function ReleaseOrders(orders: map<Id, Order>, j: Id): map<Id, Order> {
    map o | o in orders ::
      if orders[o].jobId == Some(j)
      then orders[o].(status := WaitingForDeliverer, jobId := None, delivererId := None)
      else orders[o]
  }

  /** The transaction of recoverUnstartedJob; `d` and `j` come from the sweeper's list. */
  function Recover(s: State, d: Id, j: Id): Result {
    if d !in s.deliverers then Abort(s, NotFound)
    else if j !in s.jobs || s.jobs[j].status != JobStatus.Assigned then Abort(s, NotFound)
    else if s.jobs[j].batchId !in s.batches then Abort(s, NotFound)
    else
      var b := s.jobs[j].batchId;
      Result(s.(
        deliverers := s.deliverers[d := Deliverer(true, None)],
        jobs := s.jobs[j := s.jobs[j].(status := JobStatus.Pending, delivererId := None)],
        batches := s.batches[b := s.batches[b].(delivererId := None, status := JobStatus.InProgress)],
        orders := ReleaseOrders(s.orders, j)), Committed)
  }

  /** updateProfile may set `availability` to anything at any time. */
  function SetAvailability(s: State, d: Id, available: bool): State {
    if d !in s.deliverers then s
    else s.(deliverers := s.deliverers[d := s.deliverers[d].(availability := available)])
  }

  function AddDeliverer(s: State, d: Id): State {
    if d in s.deliverers then s else s.(deliverers := s.deliverers[d := Deliverer(true, None)])
  }
}
