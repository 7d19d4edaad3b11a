/**
 Runs of the whole dispatch system: the store, any number of assignment workers holding snapshots of
 any age, and one recovery sweeper holding a list of any age. A step whose guard fails changes
 nothing, so every sequence of steps is a run.
 */
module Dispatch {
  import opened Types
  import opened Batching
  import opened Transactions
  import opened Invariant
  import opened JobSteps
  import opened OrderSteps
  import opened Evolution

  /** What a worker read before its transaction: the orders by `readyAt`, and the deliverer it chose. */
  datatype Snapshot = Snapshot(batchId: Id, route: seq<Id>, delivererId: Id)

  /** One stale deliverer with its job, as the sweeper's query saw them. */
  datatype Entry = Entry(delivererId: Id, jobId: Id, seen: JobStatus)

  /** `present` are the deliverers online and seen within the presence window. */
  datatype System = System(db: State, workers: map<Id, Snapshot>, sweep: seq<Entry>, present: set<Id>)

  const INITIAL := System(EMPTY_STATE, map[], [], {})

  datatype Step =
    | Placed(o: Id, info: OrderInfo)
    | Decided(o: Id, accept: bool)
    | Readied(o: Id, vendor: Id, hasFood: bool, now: int, open: seq<Id>, newBatch: Id)
    | BatchClosed(b: Id)
    | Requeued(b: Id)
    | MessageLost(b: Id)
    | SnapshotTaken(w: Id, b: Id, route: seq<Id>, d: Id)
    | AssignmentCommitted(w: Id, newJob: Id, base: Id)
    | JobStart(j: Id, d: Id)
    | StopCompleted(j: Id, k: Id, d: Id)
    | SweepBegun(entries: seq<Entry>)
    | SweepAdvanced
    | AvailabilitySet(d: Id, available: bool)
    | DelivererAdded(d: Id)
    | PresenceChanged(d: Id, present: bool)
    | Noted(event: Event)

  /** Events that are written outside the transaction they speak of. */
  predicate Outside(e: Event) {
    match e
    case OrderEvent(_, kind) => kind == OrderAccepted || kind == OrderRejected || kind == OrderDeliveryIssue
    case JobEvent(_, kind) => kind == JobRecovered || kind == JobEscalated
  }

  /** The first order of the list has a pickup point. */
  predicate Located(s: State, route: seq<Id>) {
    route != [] && route[0] in s.orders && HasPoint(s.orders[route[0]].info.vendor)
  }

  /** The early returns of assignDelivererToBatch; `route` is the order list it then works with. */
  ghost predicate CanSnapshot(s: State, b: Id, route: seq<Id>) {
    && b in s.queue && b in s.batches && s.batches[b].delivererId.None?
    && IsRoute(s.orders, s.batches[b].orders, route) && Located(s, route)
  }

  /** The query for available deliverers would list `d`. */
  predicate Listed(sys: System, d: Id) {
    Idle(sys.db, d) && d in sys.present
  }

  /** An answer to the sweeper's query: deliverers with an active job, each at most once. */
  ghost predicate SweepListing(s: State, entries: seq<Entry>) {
    && (forall e :: e in entries ==>
          && e.delivererId in s.deliverers && s.deliverers[e.delivererId].activeJobId == Some(e.jobId)
          && e.jobId in s.jobs && e.seen == s.jobs[e.jobId].status)
    && (forall i, j :: 0 <= i < j < |entries| ==> entries[i].delivererId != entries[j].delivererId)
  }

  /** recoverUnstartedJob; on success the batch is handed straight to assignment again. */
  function RecoverEntry(s: State, e: Entry): State {
    var r := Recover(s, e.delivererId, e.jobId);
    if r.outcome == Committed then r.state.(queue := r.state.queue + multiset{s.jobs[e.jobId].batchId}) else s
  }

  /** The steps that read nothing stale: each is one transaction on the current store. */
  ghost function Direct(rules: Rules, s: State, step: Step): State {
    match step
    case Placed(o, info) => CreateOrder(s, o, info)
    case Decided(o, accept) => VendorDecide(s, o, accept)
    case Readied(o, vendor, hasFood, now, open, newBatch) =>
      if OpenListing(s, open) && FreshBatchId(s, newBatch)
      then MarkReady(rules, s, o, vendor, hasFood, now, open, newBatch).state else s
    case BatchClosed(b) => CloseBatch(s, b)
    case JobStart(j, d) => StartJob(s, j, d).state
    case StopCompleted(j, k, d) => CompleteStop(s, j, k, d).state
    case Requeued(b) => Requeue(s, b)
    case MessageLost(b) => s.(queue := s.queue - multiset{b})
    case AvailabilitySet(d, available) => SetAvailability(s, d, available)
    case DelivererAdded(d) => AddDeliverer(s, d)
    case Noted(event) => if Outside(event) then Append(s, event) else s
    case _ => s
  }

  ghost function Apply(rules: Rules, sys: System, step: Step): System {
    var s := sys.db;
    match step
    case SnapshotTaken(w, b, route, d) =>
      if CanSnapshot(s, b, route) && Listed(sys, d)
      then sys.(workers := sys.workers[w := Snapshot(b, route, d)]) else sys
    case PresenceChanged(d, present) =>
      sys.(present := if present then sys.present + {d} else sys.present - {d})
    case AssignmentCommitted(w, newJob, base) =>
      if w in sys.workers && newJob !in s.jobs && FreshStopIds(s, base)
      then
        var snap := sys.workers[w];
        sys.(db := Assign(s, snap.batchId, snap.route, snap.delivererId, newJob, base).state,
             workers := sys.workers - {w})
      else sys
    case SweepBegun(entries) =>
      if sys.sweep == [] && SweepListing(s, entries) then sys.(sweep := entries) else sys
    case SweepAdvanced =>
      if sys.sweep == [] then sys
      else if sys.sweep[0].seen == JobStatus.Assigned
      then sys.(db := RecoverEntry(s, sys.sweep[0]), sweep := sys.sweep[1..])
      else sys.(sweep := sys.sweep[1..])
    case _ => sys.(db := Direct(rules, s, step))
  }

  ghost function Run(rules: Rules, sys: System, steps: seq<Step>): System
    decreases |steps|
  {
    if steps == [] then sys else Run(rules, Apply(rules, sys, steps[0]), steps[1..])
  }

  // ---------------------------------------------------------------- the system invariant

  /** A snapshot of a closed batch lists exactly the batch's orders from a pickup point on, however old it is. */
  ghost predicate SnapshotHolds(s: State, snap: Snapshot) {
    && Closed(s, snap.batchId) && IsRoute(s.orders, s.batches[snap.batchId].orders, snap.route)
    && Located(s, snap.route) && snap.delivererId in s.deliverers
  }

  /**
   No ABA: a job the sweeper saw ASSIGNED to a deliverer is still assigned to that deliverer, or has
   been started, in which case the guard on the job row makes the recovery roll back.
   */
  ghost predicate EntryHolds(s: State, e: Entry) {
    e.seen == JobStatus.Assigned ==>
      && e.delivererId in s.deliverers
      && e.jobId in s.jobs && s.jobs[e.jobId].status != JobStatus.Pending
      && s.jobs[e.jobId].delivererId == Some(e.delivererId)
  }

  ghost predicate SysInv(sys: System) {
    && Inv(sys.db)
    && (forall b :: b in sys.db.queue ==> Closed(sys.db, b))
    && (forall w :: w in sys.workers ==> SnapshotHolds(sys.db, sys.workers[w]))
    && (forall e :: e in sys.sweep ==> EntryHolds(sys.db, e))
    && (forall i, j :: 0 <= i < j < |sys.sweep| ==> sys.sweep[i].jobId != sys.sweep[j].jobId)
  }

  lemma InitialHolds()
    ensures SysInv(INITIAL)
  {
  }

  lemma SnapshotSurvives(s: State, s': State, snap: Snapshot)
    requires Inv(s) && Inv(s') && Evolves(s, s') && SnapshotHolds(s, snap)
    ensures SnapshotHolds(s', snap)
  {
    var b := snap.batchId;
    assert BatchEvolves(s, s', b);
    assert BatchRef(s, b);
    forall o | o in snap.route
      ensures ReadyTime(s'.orders, o) == ReadyTime(s.orders, o) && o in s'.orders
          && s'.orders[o].info == s.orders[o].info
    {
      assert OrderEvolves(s, s', o);
    }
  }

  lemma EntrySurvives(s: State, s': State, e: Entry)
    requires Evolves(s, s') && KeepsOwners(s, s') && EntryHolds(s, e)
    ensures EntryHolds(s', e)
  {
  }

  lemma DbStepKeepsSysInv(sys: System, s': State)
    requires SysInv(sys) && Inv(s') && Evolves(sys.db, s') && KeepsOwners(sys.db, s')
    requires forall b :: b in s'.queue && b !in sys.db.queue ==> Closed(s', b)
    ensures SysInv(sys.(db := s'))
  {
    hide Inv;
    forall b | b in s'.queue ensures Closed(s', b) {
      if b in sys.db.queue { assert BatchEvolves(sys.db, s', b); }
    }
    forall w | w in sys.workers ensures SnapshotHolds(s', sys.workers[w]) {
      SnapshotSurvives(sys.db, s', sys.workers[w]);
    }
    forall e | e in sys.sweep ensures EntryHolds(s', e) {
      EntrySurvives(sys.db, s', e);
    }
  }

  lemma DropWorker(sys: System, w: Id)
    requires SysInv(sys)
    ensures SysInv(sys.(workers := sys.workers - {w}))
  {
  }

  lemma SweepBeginsSound(s: State, entries: seq<Entry>)
    requires Inv(s) && SweepListing(s, entries)
    ensures forall e :: e in entries ==> EntryHolds(s, e)
    ensures forall i, j :: 0 <= i < j < |entries| ==> entries[i].jobId != entries[j].jobId
  {
    forall e | e in entries ensures s.jobs[e.jobId].delivererId == Some(e.delivererId) && Active(s.jobs[e.jobId]) {
      assert DelivererLinked(s, e.delivererId);
    }
    forall i, j | 0 <= i < j < |entries| ensures entries[i].jobId != entries[j].jobId {
      assert entries[i] in entries && entries[j] in entries;
    }
  }

  /** Recovering one entry leaves the facts about the others alone. */
  lemma OtherEntriesSurvive(s: State, e: Entry, f: Entry)
    requires EntryHolds(s, f) && f.jobId != e.jobId
    ensures EntryHolds(RecoverEntry(s, e), f)
  {
  }

  lemma RecoveryQueue(s: State, e: Entry)
    requires Inv(s) && forall b :: b in s.queue ==> Closed(s, b)
    ensures forall b :: b in RecoverEntry(s, e).queue ==> Closed(RecoverEntry(s, e), b)
  {
    if CanRecover(s, e.delivererId, e.jobId) { AssignedBatchOpen(s, e.jobId); }
  }

  lemma RecoveryKeepsInv(s: State, e: Entry)
    requires Inv(s) && EntryHolds(s, e) && e.seen == JobStatus.Assigned
    ensures Inv(RecoverEntry(s, e)) && Evolves(s, RecoverEntry(s, e))
  {
    RecoverKeepsInv(s, e.delivererId, e.jobId);
    RecoverEvolves(s, e.delivererId, e.jobId);
    var r, s' := Recover(s, e.delivererId, e.jobId).state, RecoverEntry(s, e);
    QueueOnly(s, e);
    Unchanged(s);
    hide *;
    SameRowsKeepInv(r, s');
    SameRowsEvolve(r, s');
    EvolvesTransitively(s, r, s');
  }

  /** Handling an entry is the recovery and, when it commits, one more message. */
  lemma QueueOnly(s: State, e: Entry)
    ensures var r, s' := Recover(s, e.delivererId, e.jobId).state, RecoverEntry(s, e);
      SameRows(r, s') && s'.log == r.log
  {
  }

  lemma RecoveryKeepsSysInv(sys: System)
    requires SysInv(sys) && sys.sweep != [] && sys.sweep[0].seen == JobStatus.Assigned
    ensures SysInv(sys.(db := RecoverEntry(sys.db, sys.sweep[0]), sweep := sys.sweep[1..]))
  {
    hide Inv, Evolves, RecoverEntry, EntryHolds, SnapshotHolds;
    var s, e := sys.db, sys.sweep[0];
    var s' := RecoverEntry(s, e);
    assert e in sys.sweep;
    RecoveryKeepsInv(s, e);
    RecoveryQueue(s, e);
    forall w | w in sys.workers ensures SnapshotHolds(s', sys.workers[w]) {
      SnapshotSurvives(s, s', sys.workers[w]);
    }
    forall f | f in sys.sweep[1..] ensures EntryHolds(s', f) {
      OtherEntriesSurvive(s, e, f);
    }
  }

  /** Steps that touch only the queue, the log, `availability` or the set of deliverers. */
  predicate KeepsRows(step: Step) {
    match step
    case Placed(_, _) => false
    case Decided(_, _) => false
    case Readied(_, _, _, _, _, _) => false
    case BatchClosed(_) => false
    case JobStart(_, _) => false
    case StopCompleted(_, _, _) => false
    case _ => true
  }

  lemma DirectSameRows(rules: Rules, s: State, step: Step)
    requires KeepsRows(step)
    ensures SameRows(s, Direct(rules, s, step)) && s.log <= Direct(rules, s, step).log
  {
    hide SameRows, Requeue, SetAvailability, AddDeliverer, Append, Outside;
    QueueSameRows(s, s.queue);
    match step
    case Requeued(b) => RequeueSameRows(s, b);
    case MessageLost(b) => QueueSameRows(s, s.queue - multiset{b});
    case AvailabilitySet(d, available) => ProfileSameRows(s, d, available);
    case DelivererAdded(d) => NewDelivererSameRows(s, d);
    case Noted(event) => LogSameRows(s, event);
    case _ =>
  }

  lemma QueueSameRows(s: State, queue: multiset<Id>)
    ensures SameRows(s, s.(queue := queue)) && SameRows(s, s)
  {
  }

  lemma RequeueSameRows(s: State, b: Id)
    ensures SameRows(s, Requeue(s, b)) && Requeue(s, b).log == s.log
  {
  }

  lemma ProfileSameRows(s: State, d: Id, available: bool)
    ensures SameRows(s, SetAvailability(s, d, available)) && SetAvailability(s, d, available).log == s.log
  {
  }

  lemma NewDelivererSameRows(s: State, d: Id)
    ensures SameRows(s, AddDeliverer(s, d)) && AddDeliverer(s, d).log == s.log
  {
  }

  lemma LogSameRows(s: State, event: Event)
    ensures SameRows(s, Append(s, event)) && s.log <= Append(s, event).log
  {
  }

  lemma DirectKeepsInv(rules: Rules, s: State, step: Step)
    requires Inv(s)
    ensures Inv(Direct(rules, s, step))
  {
    hide Inv, SameRows, MarkReady, StartJob, CompleteStop, CloseBatch, CreateOrder, VendorDecide, OpenListing;
    hide Requeue, SetAvailability, AddDeliverer;
    match step
    case Placed(o, info) => CreateOrderKeepsInv(s, o, info);
    case Decided(o, accept) => VendorDecideKeepsInv(s, o, accept);
    case Readied(o, vendor, hasFood, now, open, newBatch) =>
      if OpenListing(s, open) && FreshBatchId(s, newBatch) {
        MarkReadyKeepsInv(rules, s, o, vendor, hasFood, now, open, newBatch);
      }
    case BatchClosed(b) => CloseKeepsInv(s, b);
    case JobStart(j, d) => StartKeepsInv(s, j, d);
    case StopCompleted(j, k, d) => CompleteStopKeepsInv(s, j, k, d);
    case _ =>
      DirectSameRows(rules, s, step);
      SameRowsKeepInv(s, Direct(rules, s, step));
  }

  lemma InvParts(s: State)
    requires Inv(s)
    ensures Refs(s) && Links(s) && Statuses(s) && Stops(s)
  {
  }

  lemma DirectEvolves(rules: Rules, s: State, step: Step)
    requires Inv(s)
    ensures Evolves(s, Direct(rules, s, step)) && KeepsOwners(s, Direct(rules, s, step))
  {
    hide Inv, Evolves, KeepsOwners, SameRows, MarkReady, StartJob, CompleteStop, CloseBatch, CreateOrder;
    hide VendorDecide, OpenListing, Requeue, SetAvailability, AddDeliverer;
    Unchanged(s);
    match step
    case Placed(o, info) => CreateEvolves(s, o, info);
    case Decided(o, accept) =>
      InvParts(s);
      DecideEvolves(s, o, accept);
    case Readied(o, vendor, hasFood, now, open, newBatch) =>
      if OpenListing(s, open) && FreshBatchId(s, newBatch) {
        MarkReadyEvolves(rules, s, o, vendor, hasFood, now, open, newBatch);
      }
    case BatchClosed(b) => CloseEvolves(s, b);
    case JobStart(j, d) => StartEvolves(s, j, d);
    case StopCompleted(j, k, d) => CompleteStopEvolves(s, j, k, d);
    case _ =>
      DirectSameRows(rules, s, step);
      SameRowsEvolve(s, Direct(rules, s, step));
  }

  lemma DirectQueue(rules: Rules, s: State, step: Step)
    ensures forall b :: b in Direct(rules, s, step).queue && b !in s.queue ==> Closed(Direct(rules, s, step), b)
  {
  }

  lemma StepKeepsSysInv(rules: Rules, sys: System, step: Step)
    requires SysInv(sys)
    ensures SysInv(Apply(rules, sys, step))
    ensures Evolves(sys.db, Apply(rules, sys, step).db)
  {
    hide SysInv, Inv, Evolves, KeepsOwners, Direct, RecoverEntry, Assign;
    var s := sys.db;
    Unchanged(s);
    match step
    case SnapshotTaken(w, b, route, d) =>
      if CanSnapshot(s, b, route) && Listed(sys, d) { SnapshotKeepsSysInv(sys, w, b, route, d); }
    case PresenceChanged(d, present) =>
      PresenceKeepsSysInv(sys, if present then sys.present + {d} else sys.present - {d});
    case AssignmentCommitted(w, newJob, base) =>
      if w in sys.workers && newJob !in s.jobs && FreshStopIds(s, base) {
        CommitKeepsSysInv(sys, w, newJob, base);
      }
    case SweepBegun(entries) =>
      if sys.sweep == [] && SweepListing(s, entries) { BeginKeepsSysInv(sys, entries); }
    case SweepAdvanced => if sys.sweep != [] { AdvanceKeepsSysInv(sys); }
    case _ => DirectKeepsSysInv(rules, sys, step);
  }

  lemma PresenceKeepsSysInv(sys: System, present: set<Id>)
    requires SysInv(sys)
    ensures SysInv(sys.(present := present))
  {
  }

  lemma BeginKeepsSysInv(sys: System, entries: seq<Entry>)
    requires SysInv(sys) && SweepListing(sys.db, entries)
    ensures SysInv(sys.(sweep := entries))
  {
    hide Inv, SweepListing, EntryHolds, SnapshotHolds;
    SweepBeginsSound(sys.db, entries);
  }

  lemma AdvanceKeepsSysInv(sys: System)
    requires SysInv(sys) && sys.sweep != []
    ensures sys.sweep[0].seen == JobStatus.Assigned ==>
      SysInv(sys.(db := RecoverEntry(sys.db, sys.sweep[0]), sweep := sys.sweep[1..]))
      && Evolves(sys.db, RecoverEntry(sys.db, sys.sweep[0]))
    ensures SysInv(sys.(sweep := sys.sweep[1..]))
  {
    hide Inv, Evolves, RecoverEntry, SnapshotHolds;
    assert sys.sweep[0] in sys.sweep;
    if sys.sweep[0].seen == JobStatus.Assigned {
      RecoveryKeepsSysInv(sys);
      RecoveryKeepsInv(sys.db, sys.sweep[0]);
    }
  }

  lemma DirectKeepsSysInv(rules: Rules, sys: System, step: Step)
    requires SysInv(sys)
    ensures SysInv(sys.(db := Direct(rules, sys.db, step))) && Evolves(sys.db, Direct(rules, sys.db, step))
  {
    var s := sys.db;
    DirectQueue(rules, s, step);
    hide Inv, Evolves, KeepsOwners, SnapshotHolds, EntryHolds, Direct;
    DirectKeepsInv(rules, s, step);
    DirectEvolves(rules, s, step);
    DbStepKeepsSysInv(sys, Direct(rules, s, step));
  }

  lemma SnapshotKeepsSysInv(sys: System, w: Id, b: Id, route: seq<Id>, d: Id)
    requires SysInv(sys) && CanSnapshot(sys.db, b, route) && Listed(sys, d)
    ensures SysInv(sys.(workers := sys.workers[w := Snapshot(b, route, d)]))
  {
    hide Inv;
  }

  lemma CommitKeepsSysInv(sys: System, w: Id, newJob: Id, base: Id)
    requires SysInv(sys) && w in sys.workers && newJob !in sys.db.jobs && FreshStopIds(sys.db, base)
    ensures var snap := sys.workers[w];
            var s' := Assign(sys.db, snap.batchId, snap.route, snap.delivererId, newJob, base).state;
            SysInv(sys.(db := s', workers := sys.workers - {w})) && Evolves(sys.db, s')
  {
    hide Inv, Evolves, KeepsOwners;
    var s, snap := sys.db, sys.workers[w];
    var s' := Assign(s, snap.batchId, snap.route, snap.delivererId, newJob, base).state;
    assert SnapshotHolds(s, snap);
    AssignKeepsInv(s, snap.batchId, snap.route, snap.delivererId, newJob, base);
    AssignEvolves(s, snap.batchId, snap.route, snap.delivererId, newJob, base);
    DbStepKeepsSysInv(sys, s');
    DropWorker(sys.(db := s'), w);
  }

  /** The invariant of every run, and what no run undoes. */
  lemma {:induction false} RunKeepsSysInv(rules: Rules, sys: System, steps: seq<Step>)
    requires SysInv(sys)
    ensures SysInv(Run(rules, sys, steps))
    ensures Evolves(sys.db, Run(rules, sys, steps).db)
    decreases |steps|
  {
    hide SysInv, Evolves, Apply;
    if steps == [] {
      Unchanged(sys.db);
    } else {
      var next := Apply(rules, sys, steps[0]);
      StepKeepsSysInv(rules, sys, steps[0]);
      RunKeepsSysInv(rules, next, steps[1..]);
      EvolvesTransitively(sys.db, next.db, Run(rules, sys, steps).db);
    }
  }

  // ---------------------------------------------------------------- unfolding runs

  lemma {:induction false} RunConcat(rules: Rules, sys: System, first: seq<Step>, second: seq<Step>)
    ensures Run(rules, sys, first + second) == Run(rules, Run(rules, sys, first), second)
    decreases |first|
  {
    hide Apply;
    if first == [] {
      assert first + second == second;
    } else {
      assert (first + second)[1..] == first[1..] + second;
      RunConcat(rules, Apply(rules, sys, first[0]), first[1..], second);
    }
  }

  lemma RunThree(rules: Rules, sys: System, a: Step, b: Step, c: Step)
    ensures Run(rules, sys, [a, b, c]) == Apply(rules, Apply(rules, Apply(rules, sys, a), b), c)
  {
    hide Apply;
    assert [a, b, c][1..] == [b, c] && [b, c][1..] == [c] && [c][1..] == [];
    assert Run(rules, Apply(rules, sys, a), [b, c]) == Run(rules, Apply(rules, Apply(rules, sys, a), b), [c]);
  }

  lemma RunFour(rules: Rules, sys: System, a: Step, b: Step, c: Step, d: Step)
    ensures Run(rules, sys, [a, b, c, d]) == Apply(rules, Apply(rules, Apply(rules, Apply(rules, sys, a), b), c), d)
  {
    hide Apply;
    assert [a, b, c, d][1..] == [b, c, d];
    RunThree(rules, Apply(rules, sys, a), b, c, d);
  }
}
