/** The event log replays to the state: cut down to one entity, it tells that entity's status. */
module LogReplay {
  import opened Types
  import opened Batching
  import opened Transactions
  import opened Invariant
  import opened JobSteps
  import opened OrderSteps
  import opened Evolution
  import opened Dispatch
  import opened Guarantees

  /** The events of job `j` that were written inside a transaction, oldest first. */
  function JobTrace(log: seq<Event>, j: Id): seq<JobEventKind> {
    if log == [] then []
    else
      var before, e := JobTrace(log[..|log| - 1], j), log[|log| - 1];
      if e.JobEvent? && e.jobId == j && !Outside(e) then before + [e.jobKind] else before
  }

  function OrderTrace(log: seq<Event>, o: Id): seq<OrderEventKind> {
    if log == [] then []
    else
      var before, e := OrderTrace(log[..|log| - 1], o), log[|log| - 1];
      if e.OrderEvent? && e.orderId == o && !Outside(e) then before + [e.orderKind] else before
  }

  /** One or more assignments. */
  predicate Assignments(trace: seq<JobEventKind>) {
    trace != [] && forall i :: 0 <= i < |trace| ==> trace[i] == JobAssigned
  }

  /** Assignments, then at most one start, then at most one completion, ending where the row is. */
  predicate JobHistory(trace: seq<JobEventKind>, status: Option<JobStatus>) {
    match status
    case None => trace == []
    case Some(Pending) => Assignments(trace)
    case Some(Assigned) => Assignments(trace)
    case Some(InProgress) =>
      |trace| >= 2 && trace[|trace| - 1] == JobStarted && Assignments(trace[..|trace| - 1])
    case Some(Completed) =>
      |trace| >= 3 && trace[|trace| - 2..] == [JobStarted, JobCompleted] && Assignments(trace[..|trace| - 2])
  }

  /** How far an order is: nothing, created, ready or delivered. */
  function OrderHistory(status: Option<OrderStatus>): seq<OrderEventKind> {
    match status
    case None => []
    case Some(PendingVendorConfirmation) => [OrderCreated]
    case Some(VendorAccepted) => [OrderCreated]
    case Some(VendorRejected) => [OrderCreated]
    case Some(Cancelled) => [OrderCreated]
    case Some(Completed) => [OrderCreated, OrderReady, OrderCompleted]
    case _ => [OrderCreated, OrderReady]
  }

  ghost function JobStatusOf(s: State, j: Id): Option<JobStatus> {
    if j in s.jobs then Some(s.jobs[j].status) else None
  }

  ghost function OrderStatusOf(s: State, o: Id): Option<OrderStatus> {
    if o in s.orders then Some(s.orders[o].status) else None
  }

  ghost predicate LogAgrees(s: State) {
    && (forall j :: JobHistory(JobTrace(s.log, j), JobStatusOf(s, j)))
    && (forall o :: OrderTrace(s.log, o) == OrderHistory(OrderStatusOf(s, o)))
  }

  lemma TraceGrows(log: seq<Event>, e: Event)
    ensures forall j :: JobTrace(log + [e], j)
                        == JobTrace(log, j) + (if e.JobEvent? && e.jobId == j && !Outside(e) then [e.jobKind] else [])
    ensures forall o :: OrderTrace(log + [e], o)
                        == OrderTrace(log, o)
                           + (if e.OrderEvent? && e.orderId == o && !Outside(e) then [e.orderKind] else [])
  {
    assert (log + [e])[..|log|] == log;
  }

  /** The moves of a job row that its events record. */
  predicate JobMoves(before: Option<JobStatus>, kind: JobEventKind, after: Option<JobStatus>) {
    match kind
    case JobAssigned => (before == None || before == Some(JobStatus.Pending)) && after == Some(JobStatus.Assigned)
    case JobStarted => before == Some(JobStatus.Assigned) && after == Some(JobStatus.InProgress)
    case JobCompleted => before == Some(JobStatus.InProgress) && after == Some(JobStatus.Completed)
    case _ => false
  }

  lemma HistoryGrows(trace: seq<JobEventKind>, before: Option<JobStatus>, kind: JobEventKind, after: Option<JobStatus>)
    requires JobHistory(trace, before) && JobMoves(before, kind, after)
    ensures JobHistory(trace + [kind], after)
  {
    match kind
    case JobAssigned =>
    case JobStarted => assert (trace + [kind])[..|trace|] == trace;
    case JobCompleted =>
      assert (trace + [kind])[..|trace| - 1] == trace[..|trace| - 1];
      assert (trace + [kind])[|trace| - 1..] == [JobStarted, JobCompleted];
    case _ =>
  }

  /** A step that appends one job event and moves that job's row along; orders keep their history. */
  lemma JobEventAgrees(s: State, s': State, j: Id, kind: JobEventKind)
    requires LogAgrees(s) && s'.log == s.log + [JobEvent(j, kind)]
    requires forall i :: i != j ==> JobStatusOf(s', i) == JobStatusOf(s, i)
    requires forall o :: OrderHistory(OrderStatusOf(s', o)) == OrderHistory(OrderStatusOf(s, o))
    requires JobMoves(JobStatusOf(s, j), kind, JobStatusOf(s', j))
    ensures LogAgrees(s')
  {
    hide JobHistory, OrderHistory, JobTrace, OrderTrace;
    TraceGrows(s.log, JobEvent(j, kind));
    HistoryGrows(JobTrace(s.log, j), JobStatusOf(s, j), kind, JobStatusOf(s', j));
    forall i: Id ensures JobHistory(JobTrace(s'.log, i), JobStatusOf(s', i)) {
      if i != j { assert JobTrace(s'.log, i) == JobTrace(s.log, i); }
    }
    forall o: Id ensures OrderTrace(s'.log, o) == OrderHistory(OrderStatusOf(s', o)) {
      assert OrderTrace(s'.log, o) == OrderTrace(s.log, o);
    }
  }

  lemma OrderEventAgrees(s: State, s': State, o: Id, kind: OrderEventKind)
    requires LogAgrees(s) && s'.log == s.log + [OrderEvent(o, kind)] && !Outside(OrderEvent(o, kind))
    requires forall p :: p != o ==> OrderStatusOf(s', p) == OrderStatusOf(s, p)
    requires forall j :: JobStatusOf(s', j) == JobStatusOf(s, j)
    requires OrderHistory(OrderStatusOf(s', o)) == OrderHistory(OrderStatusOf(s, o)) + [kind]
    ensures LogAgrees(s')
  {
    TraceGrows(s.log, OrderEvent(o, kind));
    forall i ensures JobHistory(JobTrace(s'.log, i), JobStatusOf(s', i)) {
      assert JobTrace(s'.log, i) == JobTrace(s.log, i);
      assert JobHistory(JobTrace(s.log, i), JobStatusOf(s, i));
    }
  }

  lemma QuietAgrees(s: State, s': State)
    requires LogAgrees(s)
    requires s'.log == s.log || (|s'.log| == |s.log| + 1 && s'.log[..|s.log|] == s.log && Outside(s'.log[|s.log|]))
    requires forall o :: OrderHistory(OrderStatusOf(s', o)) == OrderHistory(OrderStatusOf(s, o))
    requires forall j :: JobStatusOf(s', j) == JobStatusOf(s, j)
                         || (JobStatusOf(s, j) == Some(JobStatus.Assigned)
                             && JobStatusOf(s', j) == Some(JobStatus.Pending))
    ensures LogAgrees(s')
  {
    if s'.log != s.log {
      assert s'.log == s.log + [s'.log[|s.log|]];
      TraceGrows(s.log, s'.log[|s.log|]);
    }
    forall i ensures JobHistory(JobTrace(s'.log, i), JobStatusOf(s', i)) {
      assert JobTrace(s'.log, i) == JobTrace(s.log, i);
      assert JobHistory(JobTrace(s.log, i), JobStatusOf(s, i));
    }
  }

  /** An order of an unassigned batch is ready or waiting. */
  lemma UnassignedOrderWaits(s: State, o: Id, b: Id)
    requires Refs(s) && Links(s) && Statuses(s) && o in s.orders
    requires s.orders[o].batchId == Some(b) && Unassigned(s, b)
    ensures s.orders[o].status == ReadyForDelivery || s.orders[o].status == WaitingForDeliverer
  {
    assert OrderPhase(s, o);
    if HasJob(s.jobs, b) {
      assert OwnedOrder(s.orders[o], JobFor(s.jobs, b), s.jobs[JobFor(s.jobs, b)]);
      assert JobLinked(s, JobFor(s.jobs, b));
    }
  }

  lemma AssignKeepsLog(s: State, b: Id, route: seq<Id>, d: Id, newJob: Id, base: Id)
    requires Inv(s) && LogAgrees(s) && newJob !in s.jobs
    ensures LogAgrees(Assign(s, b, route, d, newJob, base).state)
  {
    hide LogAgrees, JobHistory, JobTrace, OrderTrace;
    if Unassigned(s, b) && Idle(s, d) {
      var j := UpsertTarget(s.jobs, b, newJob);
      var s' := AssignTo(s, b, route, d, j, base);
      forall o: Id ensures OrderHistory(OrderStatusOf(s', o)) == OrderHistory(OrderStatusOf(s, o)) {
        if o in s.orders && s.orders[o].batchId == Some(b) { UnassignedOrderWaits(s, o, b); }
      }
      if j in s.jobs { assert JobLinked(s, j); }
      JobEventAgrees(s, s', j, JobAssigned);
    }
  }

  lemma StartKeepsLog(s: State, j: Id, d: Id)
    requires Inv(s) && LogAgrees(s)
    ensures LogAgrees(StartJob(s, j, d).state)
  {
    hide LogAgrees, JobHistory, JobTrace, OrderTrace;
    if CanStart(s, j, d) {
      var s' := StartJob(s, j, d).state;
      forall o: Id ensures OrderHistory(OrderStatusOf(s', o)) == OrderHistory(OrderStatusOf(s, o)) {
        if o in s.orders && s.orders[o].jobId == Some(j) { AssignedOrderOpen(s, o, j); }
      }
      JobEventAgrees(s, s', j, JobStarted);
    }
  }

  /** After the last stop every order of the job is delivered: finishJob's sweep changes no order. */
  lemma FinishSweepIsIdle(s: State, j: Id)
    requires InvButIdle(s, j) && Unfinished(s, j) == {} && j in s.jobs && s.jobs[j].status == JobStatus.InProgress
    ensures SetOrdersOfJob(s.orders, j, OrderStatus.Completed) == s.orders
  {
    forall o | o in s.orders && s.orders[o].jobId == Some(j) ensures s.orders[o].status == OrderStatus.Completed {
      assert OrderPhase(s, o);
      var b := s.orders[o].batchId.value;
      assert OwnedOrder(s.orders[o], JobFor(s.jobs, b), s.jobs[JobFor(s.jobs, b)]);
      var k := MemberHasStop(s, j, o);
      assert k !in Unfinished(s, j);
      assert StopPhase(s, k);
    }
  }

  lemma StopDoneKeepsLog(s: State, j: Id, k: Id, d: Id)
    requires Inv(s) && LogAgrees(s) && CanCompleteStop(s, j, k, d)
    ensures LogAgrees(StopDone(s, k))
  {
    OpenStopHasOpenOrder(s, j, k);
    hide Inv, LogAgrees, JobHistory, JobTrace, OrderTrace;
    OrderEventAgrees(s, StopDone(s, k), s.stops[k].orderId, OrderCompleted);
  }

  lemma OpenStopHasOpenOrder(s: State, j: Id, k: Id)
    requires Inv(s) && OpenStop(s, j, k) && j in s.jobs && s.jobs[j].status == JobStatus.InProgress
    ensures var o := s.stops[k].orderId; o in s.orders && s.orders[o].status == OrderStatus.InProgress
  {
    hide Routes;
    var o := s.stops[k].orderId;
    StopMember(s, k);
    assert StopPhase(s, k) && OrderPhase(s, o);
    assert OwnedOrder(s.orders[o], j, s.jobs[j]);
  }

  lemma FinishKeepsLog(s: State, j: Id, d: Id)
    requires InvButIdle(s, j) && LogAgrees(s) && Unfinished(s, j) == {} && CanFinish(s, j, d)
    ensures LogAgrees(FinishJob(s, j, d))
  {
    FinishSweepIsIdle(s, j);
    hide LogAgrees, JobHistory, JobTrace, OrderTrace, InvButIdle;
    JobEventAgrees(s, FinishJob(s, j, d), j, JobCompleted);
  }

  lemma StopKeepsLog(s: State, j: Id, k: Id, d: Id)
    requires Inv(s) && LogAgrees(s)
    ensures LogAgrees(CompleteStop(s, j, k, d).state)
  {
    hide Inv, LogAgrees, InvButIdle;
    if CanCompleteStop(s, j, k, d) {
      StopDoneKeepsLog(s, j, k, d);
      StopDoneKeepsInv(s, j, k, d);
      LastStopFinishes(s, j, k, d);
      if Unfinished(StopDone(s, k), j) == {} { FinishKeepsLog(StopDone(s, k), j, d); }
    }
  }

  lemma RecoverKeepsLog(s: State, e: Entry)
    requires Inv(s) && LogAgrees(s)
    ensures LogAgrees(RecoverEntry(s, e))
  {
    hide LogAgrees, JobHistory, JobTrace, OrderTrace;
    var s', j := RecoverEntry(s, e), e.jobId;
    if CanRecover(s, e.delivererId, j) {
      forall o: Id ensures OrderHistory(OrderStatusOf(s', o)) == OrderHistory(OrderStatusOf(s, o)) {
        if o in s.orders && s.orders[o].jobId == Some(j) { AssignedOrderOpen(s, o, j); }
      }
      QuietAgrees(s, s');
    }
  }

  lemma DirectKeepsLog(rules: Rules, s: State, step: Step)
    requires Inv(s) && LogAgrees(s)
    ensures LogAgrees(Direct(rules, s, step))
  {
    hide LogAgrees, JobHistory, JobTrace, OrderTrace, Inv, MarkReady, CompleteStop, StartJob, OpenListing, VendorDecide;
    var s' := Direct(rules, s, step);
    match step
    case Placed(o, info) => if o !in s.orders { OrderEventAgrees(s, s', o, OrderCreated); }
    case Readied(o, vendor, hasFood, now, open, newBatch) =>
      if OpenListing(s, open) && FreshBatchId(s, newBatch) {
        ReadyKeepsLog(rules, s, o, vendor, hasFood, now, open, newBatch);
      }
    case JobStart(j, d) => StartKeepsLog(s, j, d);
    case StopCompleted(j, k, d) => StopKeepsLog(s, j, k, d);
    case Decided(o, accept) =>
      InvParts(s);
      DecidedKeepsLog(s, o, accept);
    case BatchClosed(b) => QuietAgrees(s, s');
    case _ => RowsKeepLog(rules, s, step);
  }

  lemma DecidedKeepsLog(s: State, o: Id, accept: bool)
    requires Statuses(s) && LogAgrees(s)
    ensures LogAgrees(VendorDecide(s, o, accept))
  {
    assert o in s.orders ==> OrderPhase(s, o);
    hide LogAgrees, JobHistory, JobTrace, OrderTrace;
    QuietAgrees(s, VendorDecide(s, o, accept));
  }

  lemma RowsKeepLog(rules: Rules, s: State, step: Step)
    requires LogAgrees(s) && KeepsRows(step)
    ensures LogAgrees(Direct(rules, s, step))
  {
    hide LogAgrees, JobHistory, JobTrace, OrderTrace, OrderHistory;
    DirectSameRows(rules, s, step);
    var s' := Direct(rules, s, step);
    assert forall o: Id :: OrderStatusOf(s', o) == OrderStatusOf(s, o);
    assert forall j: Id :: JobStatusOf(s', j) == JobStatusOf(s, j);
    QuietAgrees(s, s');
  }

  lemma ReadyKeepsLog(
    rules: Rules, s: State, o: Id, vendor: Id, hasFood: bool, now: int, open: seq<Id>, newBatch: Id)
    requires Inv(s) && LogAgrees(s) && OpenListing(s, open) && newBatch !in s.batches
    ensures LogAgrees(MarkReady(rules, s, o, vendor, hasFood, now, open, newBatch).state)
  {
    hide LogAgrees, JobHistory, JobTrace, OrderTrace, Links, Refs, Statuses, Stops;
    if o in s.orders && s.orders[o].info.vendorId == vendor && Readyable(s.orders[o].status) {
      var r := MarkReady(rules, s, o, vendor, hasFood, now, open, newBatch);
      MarkReadyEnters(rules, s, o, vendor, hasFood, now, open, newBatch);
      OrderEventAgrees(s, r.state, o, OrderReady);
    }
  }

  lemma StepKeepsLog(rules: Rules, sys: System, step: Step)
    requires SysInv(sys) && LogAgrees(sys.db)
    ensures LogAgrees(Apply(rules, sys, step).db)
  {
    hide LogAgrees, Inv, Direct, Assign, RecoverEntry;
    var s := sys.db;
    match step
    case AssignmentCommitted(w, newJob, base) =>
      if w in sys.workers && newJob !in s.jobs && FreshStopIds(s, base) {
        var snap := sys.workers[w];
        AssignKeepsLog(s, snap.batchId, snap.route, snap.delivererId, newJob, base);
      }
    case SweepAdvanced =>
      if sys.sweep != [] && sys.sweep[0].seen == JobStatus.Assigned { RecoverKeepsLog(s, sys.sweep[0]); }
    case SnapshotTaken(_, _, _, _) =>
    case PresenceChanged(_, _) =>
    case SweepBegun(_) =>
    case _ => DirectKeepsLog(rules, s, step);
  }

  lemma {:induction false} RunKeepsLog(rules: Rules, sys: System, steps: seq<Step>)
    requires SysInv(sys) && LogAgrees(sys.db)
    ensures LogAgrees(Run(rules, sys, steps).db)
    decreases |steps|
  {
    hide LogAgrees, SysInv, Apply;
    if steps != [] {
      StepKeepsSysInv(rules, sys, steps[0]);
      StepKeepsLog(rules, sys, steps[0]);
      RunKeepsLog(rules, Apply(rules, sys, steps[0]), steps[1..]);
    }
  }

  /** In every reachable state the log of each job and order tells exactly how far that entity is. */
  lemma LogReplaysToState(rules: Rules, sys: System)
    requires Reachable(rules, sys)
    ensures forall j :: JobHistory(JobTrace(sys.db.log, j), JobStatusOf(sys.db, j))
    ensures forall o :: OrderTrace(sys.db.log, o) == OrderHistory(OrderStatusOf(sys.db, o))
  {
    var steps :| sys == Run(rules, INITIAL, steps);
    InitialHolds();
    RunKeepsLog(rules, INITIAL, steps);
  }
}
