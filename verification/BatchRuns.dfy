/** Batching over whole runs: no two open batches could have been one, and no batch grows too large. */
module BatchRuns {
  import opened Types
  import opened Batching
  import opened Transactions
  import opened Invariant
  import opened OrderSteps
  import opened Evolution
  import opened Dispatch
  import opened Guarantees

  function Members(s: State, b: Id): seq<OrderInfo>
    requires b in s.batches
  {
    Infos(s.orders, s.batches[b].orders)
  }

  // ---------------------------------------------------------------- steps that do not batch

  /** No batch opens, gains a member or sees a member's batching columns change. */
  ghost predicate SameBatching(s: State, s': State) {
    && s'.batches.Keys == s.batches.Keys
    && (forall b :: b in s.batches ==> Members(s', b) == Members(s, b))
    && (forall b :: CanClose(s', b) ==> CanClose(s, b))
  }

  lemma SameMembers(s: State, s': State)
    requires Refs(s) && s'.batches.Keys == s.batches.Keys
    requires forall b :: b in s.batches ==> s'.batches[b].orders == s.batches[b].orders
    requires forall o :: o in s.orders && s.orders[o].batchId.Some? ==>
        o in s'.orders && s'.orders[o].info == s.orders[o].info
    ensures forall b :: b in s.batches ==> Members(s', b) == Members(s, b)
  {
    forall b | b in s.batches ensures Members(s', b) == Members(s, b) {
      assert BatchRef(s, b);
      assert forall i :: 0 <= i < |s.batches[b].orders| ==> s.batches[b].orders[i] in s.batches[b].orders;
    }
  }

  lemma StopKeepsBatching(s: State, j: Id, k: Id, d: Id)
    requires Refs(s)
    ensures SameBatching(s, CompleteStop(s, j, k, d).state)
  {
    StopRows(s, j, k, d);
    hide Refs, CompleteStop;
    SameMembers(s, CompleteStop(s, j, k, d).state);
  }

  /** A stop touches no column that batching reads, and can only complete a batch. */
  lemma StopRows(s: State, j: Id, k: Id, d: Id)
    ensures SameBatchRows(s, CompleteStop(s, j, k, d).state)
  {
    hide Unfinished, StopDone, FinishJob, SameBatchRows;
    SameRowsAlready(s);
    if CanCompleteStop(s, j, k, d) {
      StopDoneRows(s, k);
      var done := StopDone(s, k);
      if CanFinish(done, j, d) {
        FinishRows(done, j, d);
        SameBatchRowsJoin(s, done, FinishJob(done, j, d));
      }
    }
  }

  ghost predicate SameBatchRows(s: State, s': State) {
    && s'.batches.Keys == s.batches.Keys && s'.orders.Keys == s.orders.Keys
    && (forall b :: b in s.batches ==> s'.batches[b].orders == s.batches[b].orders)
    && (forall o :: o in s.orders ==> s'.orders[o].info == s.orders[o].info)
    && (forall b :: CanClose(s', b) ==> CanClose(s, b))
  }

  lemma SameRowsAlready(s: State)
    ensures SameBatchRows(s, s)
  {
  }

  lemma SameBatchRowsJoin(s: State, t: State, u: State)
    requires SameBatchRows(s, t) && SameBatchRows(t, u)
    ensures SameBatchRows(s, u)
  {
  }

  lemma StopDoneRows(s: State, k: Id)
    requires k in s.stops
    ensures SameBatchRows(s, StopDone(s, k))
  {
  }

  lemma FinishRows(s: State, j: Id, d: Id)
    requires CanFinish(s, j, d)
    ensures SameBatchRows(s, FinishJob(s, j, d))
  {
  }

  lemma DirectKeepsBatching(rules: Rules, s: State, step: Step)
    requires Refs(s) && !step.Readied?
    ensures SameBatching(s, Direct(rules, s, step))
  {
    hide Refs, CompleteStop, StartJob, CreateOrder, VendorDecide, CloseBatch, Members, SameRows, SameBatching;
    hide Requeue, SetAvailability, AddDeliverer, Append;
    match step
    case StopCompleted(j, k, d) => StopKeepsBatching(s, j, k, d);
    case Placed(o, info) => PlacedKeepsBatching(s, o, info);
    case Decided(o, accept) => DecidedKeepsBatching(s, o, accept);
    case BatchClosed(b) => CloseKeepsBatching(s, b);
    case JobStart(j, d) => StartKeepsBatching(s, j, d);
    case _ =>
      DirectSameRows(rules, s, step);
      RowsKeepBatching(s, Direct(rules, s, step));
  }

  lemma DecidedKeepsBatching(s: State, o: Id, accept: bool)
    requires Refs(s)
    ensures SameBatching(s, VendorDecide(s, o, accept))
  {
    SameMembers(s, VendorDecide(s, o, accept));
  }

  lemma CloseKeepsBatching(s: State, b: Id)
    requires Refs(s)
    ensures SameBatching(s, CloseBatch(s, b))
  {
    SameMembers(s, CloseBatch(s, b));
  }

  lemma StartKeepsBatching(s: State, j: Id, d: Id)
    requires Refs(s)
    ensures SameBatching(s, StartJob(s, j, d).state)
  {
    SameMembers(s, StartJob(s, j, d).state);
  }

  lemma RowsKeepBatching(s: State, s': State)
    requires SameRows(s, s')
    ensures SameBatching(s, s')
  {
  }

  lemma PlacedKeepsBatching(s: State, o: Id, info: OrderInfo)
    requires Refs(s)
    ensures SameBatching(s, CreateOrder(s, o, info))
  {
    SameMembers(s, CreateOrder(s, o, info));
  }

  lemma RecoverKeepsBatching(s: State, e: Entry)
    requires Refs(s)
    ensures SameBatching(s, RecoverEntry(s, e))
  {
    hide Refs, Members;
    SameMembers(s, RecoverEntry(s, e));
  }

  lemma AssignKeepsBatching(s: State, b: Id, route: seq<Id>, d: Id, newJob: Id, base: Id)
    requires Refs(s)
    ensures SameBatching(s, Assign(s, b, route, d, newJob, base).state)
  {
    hide Refs, Members;
    SameMembers(s, Assign(s, b, route, d, newJob, base).state);
  }

  lemma StepKeepsBatching(rules: Rules, sys: System, step: Step)
    requires SysInv(sys) && !step.Readied?
    ensures SameBatching(sys.db, Apply(rules, sys, step).db)
  {
    hide Links, Statuses, Stops, Refs, Direct, Assign, RecoverEntry, Members;
    var s := sys.db;
    match step
    case AssignmentCommitted(w, newJob, base) =>
      if w in sys.workers {
        var snap := sys.workers[w];
        AssignKeepsBatching(s, snap.batchId, snap.route, snap.delivererId, newJob, base);
      }
    case SweepAdvanced => if sys.sweep != [] { RecoverKeepsBatching(s, sys.sweep[0]); }
    case SnapshotTaken(_, _, _, _) =>
    case PresenceChanged(_, _) =>
    case SweepBegun(_) =>
    case _ => DirectKeepsBatching(rules, s, step);
  }

  // ---------------------------------------------------------------- mark ready

  /** What a committed mark-ready does to the batches. */
  ghost predicate Batched(rules: Rules, s: State, s': State, order: OrderInfo, b: Id) {
    && s'.batches.Keys == s.batches.Keys + {b} && CanClose(s', b)
    && (forall c :: c in s.batches && c != b ==> Members(s', c) == Members(s, c))
    && (forall c :: CanClose(s', c) && c != b ==> CanClose(s, c))
    && (if b in s.batches
        then CanClose(s, b) && Eligible(rules, order, Members(s, b)) && Members(s', b) == Members(s, b) + [order]
        else
          && Members(s', b) == [order]
          && (forall c :: c in s.batches ==> c < b)
          && (forall c :: CanClose(s, c) ==> !Eligible(rules, order, Members(s, c))))
  }

  lemma {:induction false} FirstEligibleRefuses(rules: Rules, s: State, order: OrderInfo, open: seq<Id>)
    requires FirstEligible(rules, s, order, open).None?
    ensures forall b :: b in open ==> !BatchTakes(rules, s, order, b)
  {
    if open != [] {
      FirstEligibleRefuses(rules, s, order, open[1..]);
    }
  }

  function ReadyInfo(s: State, o: Id, hasFood: bool): OrderInfo
    requires o in s.orders
  {
    s.orders[o].info.(orderType := if hasFood then Food else Grocery)
  }

  lemma ReadyBatches(
    rules: Rules, s: State, o: Id, vendor: Id, hasFood: bool, now: int, open: seq<Id>, newBatch: Id)
    requires Inv(s) && OpenListing(s, open) && FreshBatchId(s, newBatch)
    requires o in s.orders && s.orders[o].info.vendorId == vendor && Readyable(s.orders[o].status)
    ensures var r := MarkReady(rules, s, o, vendor, hasFood, now, open, newBatch);
            r.batchId.Some? && Batched(rules, s, r.state, ReadyInfo(s, o, hasFood), r.batchId.value)
  {
    var r := MarkReady(rules, s, o, vendor, hasFood, now, open, newBatch);
    InvParts(s);
    hide *;
    MarkReadyEnters(rules, s, o, vendor, hasFood, now, open, newBatch);
    ReadyChoice(rules, s, o, vendor, hasFood, now, open, newBatch);
    InfoAfterReady(rules, s, o, vendor, hasFood, now, open, newBatch);
    ChoiceFits(rules, s, o, vendor, hasFood, now, open, newBatch);
    EnteredIsBatched(rules, s, r.state, o, r.batchId.value, ReadyInfo(s, o, hasFood));
  }

  /** The chosen batch is open and takes the order, or the new one is new and every open one refuses it. */
  ghost predicate Fits(rules: Rules, s: State, order: OrderInfo, b: Id) {
    if b in s.batches then CanClose(s, b) && Eligible(rules, order, Members(s, b))
    else
      && (forall c :: c in s.batches ==> c < b)
      && (forall c :: CanClose(s, c) ==> !Eligible(rules, order, Members(s, c)))
  }

  lemma ChoiceFits(
    rules: Rules, s: State, o: Id, vendor: Id, hasFood: bool, now: int, open: seq<Id>, newBatch: Id)
    requires Refs(s) && Statuses(s) && OpenListing(s, open) && FreshBatchId(s, newBatch)
    requires o in s.orders && s.orders[o].info.vendorId == vendor && Readyable(s.orders[o].status)
    ensures var claimed, order := ClaimReady(s, o, hasFood, now), ReadyInfo(s, o, hasFood);
      var choice := FirstEligible(rules, claimed, order, open);
      Fits(rules, s, order, if choice.Some? then choice.value else newBatch)
  {
    var claimed, order := ClaimReady(s, o, hasFood, now), ReadyInfo(s, o, hasFood);
    assert OrderPhase(s, o);
    hide Statuses, Eligible, FirstEligible;
    MembersAfterClaim(s, claimed, o);
    FirstEligibleIsListed(rules, claimed, order, open);
    if FirstEligible(rules, claimed, order, open).None? {
      AllRefuse(rules, s, claimed, order, open);
    }
  }

  lemma EnteredIsBatched(rules: Rules, s: State, s': State, o: Id, b: Id, order: OrderInfo)
    requires Refs(s) && Enters(s, s', o, b) && s'.orders[o].info == order && Fits(rules, s, order, b)
    ensures Batched(rules, s, s', order, b)
  {
    EnterMembers(s, s', o, b);
    hide Refs, Members, Eligible;
  }

  /** The batch a mark-ready uses, by the choice on the store in which its order is claimed. */
  lemma ReadyChoice(
    rules: Rules, s: State, o: Id, vendor: Id, hasFood: bool, now: int, open: seq<Id>, newBatch: Id)
    requires o in s.orders && s.orders[o].info.vendorId == vendor && Readyable(s.orders[o].status)
    requires MarkReady(rules, s, o, vendor, hasFood, now, open, newBatch).outcome == Committed
    ensures var choice := FirstEligible(rules, ClaimReady(s, o, hasFood, now), ReadyInfo(s, o, hasFood), open);
      MarkReady(rules, s, o, vendor, hasFood, now, open, newBatch).batchId
        == Some(if choice.Some? then choice.value else newBatch)
  {
    hide FirstEligible, ShouldClose;
  }

  lemma {:induction false} FirstEligibleIndex(rules: Rules, s: State, order: OrderInfo, open: seq<Id>) returns (k: nat)
    requires FirstEligible(rules, s, order, open).Some?
    ensures k < |open| && FirstEligible(rules, s, order, open) == Some(open[k])
    ensures forall i :: 0 <= i < k ==> !BatchTakes(rules, s, order, open[i])
  {
    if BatchTakes(rules, s, order, open[0]) {
      k := 0;
    } else {
      var l := FirstEligibleIndex(rules, s, order, open[1..]);
      k := l + 1;
    }
  }

  /** An order joins the oldest open batch that takes it: whatever is older has refused it. */
  lemma JoinsOldest(
    rules: Rules, s: State, o: Id, vendor: Id, hasFood: bool, now: int, open: seq<Id>, newBatch: Id, c: Id)
    requires Inv(s) && OpenListing(s, open) && FreshBatchId(s, newBatch)
    requires o in s.orders && s.orders[o].info.vendorId == vendor && Readyable(s.orders[o].status)
    requires CanClose(s, c)
    ensures var r := MarkReady(rules, s, o, vendor, hasFood, now, open, newBatch);
      && r.batchId.Some?
      && (r.batchId.value !in s.batches || s.batches[c].createdAt < s.batches[r.batchId.value].createdAt ==>
            !Eligible(rules, ReadyInfo(s, o, hasFood), Members(s, c)))
      && (r.batchId.value in s.batches ==>
            CanClose(s, r.batchId.value) && Eligible(rules, ReadyInfo(s, o, hasFood), Members(s, r.batchId.value)))
  {
    hide Links, Statuses, Stops, Eligible;
    ReadyBatches(rules, s, o, vendor, hasFood, now, open, newBatch);
    MarkReadyEnters(rules, s, o, vendor, hasFood, now, open, newBatch);
    var claimed := ClaimReady(s, o, hasFood, now);
    MembersAfterClaim(s, claimed, o);
    var order := ReadyInfo(s, o, hasFood);
    if FirstEligible(rules, claimed, order, open).Some? {
      var k := FirstEligibleIndex(rules, claimed, order, open);
      var i :| 0 <= i < |open| && open[i] == c;
      assert i < k ==> !BatchTakes(rules, claimed, order, c);
      assert k <= i ==> s.batches[open[k]].createdAt <= s.batches[c].createdAt;
    }
  }

  lemma AllRefuse(rules: Rules, s: State, claimed: State, order: OrderInfo, open: seq<Id>)
    requires claimed.batches == s.batches && OpenListing(claimed, open)
    requires forall b :: b in s.batches ==> Members(claimed, b) == Members(s, b)
    requires FirstEligible(rules, claimed, order, open).None?
    ensures forall c :: CanClose(s, c) ==> !Eligible(rules, order, Members(s, c))
  {
    hide Eligible;
    FirstEligibleRefuses(rules, claimed, order, open);
    forall c | CanClose(s, c) ensures !Eligible(rules, order, Members(s, c)) {
      assert c in open;
      assert !BatchTakes(rules, claimed, order, c);
    }
  }

  lemma InfoAfterReady(
    rules: Rules, s: State, o: Id, vendor: Id, hasFood: bool, now: int, open: seq<Id>, newBatch: Id)
    requires o in s.orders && s.orders[o].info.vendorId == vendor && Readyable(s.orders[o].status)
    requires MarkReady(rules, s, o, vendor, hasFood, now, open, newBatch).outcome == Committed
    ensures var s' := MarkReady(rules, s, o, vendor, hasFood, now, open, newBatch).state;
            o in s'.orders && s'.orders[o].info == ReadyInfo(s, o, hasFood)
  {
  }

  lemma MembersAfterClaim(s: State, claimed: State, o: Id)
    requires Refs(s) && o in s.orders && s.orders[o].batchId.None?
    requires claimed.batches == s.batches && o in claimed.orders && claimed.orders == s.orders[o := claimed.orders[o]]
    ensures forall b :: b in s.batches ==> Members(claimed, b) == Members(s, b)
  {
    forall b | b in s.batches ensures Members(claimed, b) == Members(s, b) {
      assert BatchRef(s, b);
      assert forall i :: 0 <= i < |s.batches[b].orders| ==> s.batches[b].orders[i] in s.batches[b].orders;
    }
  }

  lemma EnterMembers(s: State, s': State, o: Id, b: Id)
    requires Refs(s) && Enters(s, s', o, b)
    ensures forall c :: c in s.batches && c != b ==> Members(s', c) == Members(s, c)
    ensures Members(s', b) == (if b in s.batches then Members(s, b) else []) + [s'.orders[o].info]
  {
    forall c | c in s.batches ensures Infos(s'.orders, s.batches[c].orders) == Members(s, c) {
      assert BatchRef(s, c);
      assert forall i :: 0 <= i < |s.batches[c].orders| ==> s.batches[c].orders[i] in s.batches[c].orders;
    }
  }

  // ---------------------------------------------------------------- no duplicate open batches

  /** The founding order of every open batch is still refused by every older open batch. */
  ghost predicate NoDuplicateBatches(rules: Rules, s: State) {
    && (forall b :: b in s.batches ==> Members(s, b) != [])
    && (forall b, c :: CanClose(s, b) && CanClose(s, c) && b < c ==> !Eligible(rules, Members(s, c)[0], Members(s, b)))
  }

  lemma BatchedKeepsNoDuplicates(rules: Rules, s: State, s': State, order: OrderInfo, b: Id)
    requires Triangle(rules.dist) && NoDuplicateBatches(rules, s) && Batched(rules, s, s', order, b)
    ensures NoDuplicateBatches(rules, s')
  {
    hide Eligible;
    forall x, y | CanClose(s', x) && CanClose(s', y) && x < y
        ensures !Eligible(rules, Members(s', y)[0], Members(s', x)) {
      if x == b {
        assert b in s.batches;
        assert y in s.batches && CanClose(s, y);
        RefusalIsPermanent(rules, Members(s, y)[0], Members(s, b), [order]);
      } else if y == b && b in s.batches {
        assert Members(s', b)[0] == Members(s, b)[0];
      }
    }
  }

  lemma SameBatchingKeepsNoDuplicates(rules: Rules, s: State, s': State)
    requires NoDuplicateBatches(rules, s) && SameBatching(s, s')
    ensures NoDuplicateBatches(rules, s')
  {
    hide Eligible;
  }

  lemma StepKeepsNoDuplicates(rules: Rules, sys: System, step: Step)
    requires SysInv(sys) && Triangle(rules.dist) && NoDuplicateBatches(rules, sys.db)
    ensures NoDuplicateBatches(rules, Apply(rules, sys, step).db)
  {
    hide Inv, Eligible, NoDuplicateBatches, SameBatching, Batched, MarkReady;
    var s := sys.db;
    match step
    case Readied(o, vendor, hasFood, now, open, newBatch) =>
      if OpenListing(s, open) && FreshBatchId(s, newBatch) {
        if o in s.orders && s.orders[o].info.vendorId == vendor && Readyable(s.orders[o].status) {
          ReadyBatches(rules, s, o, vendor, hasFood, now, open, newBatch);
          var r := MarkReady(rules, s, o, vendor, hasFood, now, open, newBatch);
          BatchedKeepsNoDuplicates(rules, s, r.state, ReadyInfo(s, o, hasFood), r.batchId.value);
        } else {
          RefusedReady(rules, s, o, vendor, hasFood, now, open, newBatch);
        }
      }
    case _ =>
      StepKeepsBatching(rules, sys, step);
      SameBatchingKeepsNoDuplicates(rules, s, Apply(rules, sys, step).db);
  }

  lemma RefusedReady(
    rules: Rules, s: State, o: Id, vendor: Id, hasFood: bool, now: int, open: seq<Id>, newBatch: Id)
    requires !(o in s.orders && s.orders[o].info.vendorId == vendor && Readyable(s.orders[o].status))
    ensures MarkReady(rules, s, o, vendor, hasFood, now, open, newBatch).state == s
  {
  }

  lemma {:induction false} RunKeepsNoDuplicates(rules: Rules, sys: System, steps: seq<Step>)
    requires SysInv(sys) && Triangle(rules.dist) && NoDuplicateBatches(rules, sys.db)
    ensures NoDuplicateBatches(rules, Run(rules, sys, steps).db)
    decreases |steps|
  {
    hide SysInv, NoDuplicateBatches, Apply;
    if steps != [] {
      StepKeepsSysInv(rules, sys, steps[0]);
      StepKeepsNoDuplicates(rules, sys, steps[0]);
      RunKeepsNoDuplicates(rules, Apply(rules, sys, steps[0]), steps[1..]);
    }
  }

  /**
   Over any run, whatever closes when: of two open batches the younger one's founding order is refused
   by the older one as it stands now, so the two could not have been one.
   */
  lemma OpenBatchesDiffer(rules: Rules, sys: System, b: Id, c: Id)
    requires Reachable(rules, sys) && Triangle(rules.dist)
    requires CanClose(sys.db, b) && CanClose(sys.db, c) && b < c
    ensures Members(sys.db, c) != [] && !Eligible(rules, Members(sys.db, c)[0], Members(sys.db, b))
  {
    var steps :| sys == Run(rules, INITIAL, steps);
    InitialHolds();
    RunKeepsNoDuplicates(rules, INITIAL, steps);
  }

  // ---------------------------------------------------------------- capacity

  ghost predicate WithinCapacity(rules: Rules, members: seq<OrderInfo>) {
    && 1 <= |members| <= GROCERY_MAX_BATCH
    && (forall i :: 0 <= i < |members| && members[i].orderType == Food ==> i < FOOD_MAX_BATCH)
    && (!rules.multiVendor ==> forall i :: 0 <= i < |members| ==> members[i].vendorId == members[0].vendorId)
  }

  /** Every later member met the distance and detour thresholds against those that were there before it. */
  ghost predicate WithinReach(rules: Rules, members: seq<OrderInfo>) {
    forall i :: 0 < i < |members| ==>
      && rules.dist(PointOf(members[i].vendor), PointOf(members[0].vendor)) * 1000.0 <= rules.maxVendorDist
      && Delay(rules, members[i], members[..i]) <= rules.maxDelay
  }

  ghost predicate WithinLimits(rules: Rules, members: seq<OrderInfo>) {
    WithinCapacity(rules, members) && WithinReach(rules, members)
  }

  ghost predicate AllWithinLimits(rules: Rules, s: State) {
    forall b :: b in s.batches ==> WithinLimits(rules, Members(s, b))
  }

  lemma JoinStaysWithinLimits(rules: Rules, order: OrderInfo, members: seq<OrderInfo>)
    requires WithinLimits(rules, members) && Eligible(rules, order, members)
    ensures WithinLimits(rules, members + [order])
  {
    var joined := members + [order];
    forall i | 0 < i < |joined|
      ensures rules.dist(PointOf(joined[i].vendor), PointOf(joined[0].vendor)) * 1000.0 <= rules.maxVendorDist
      ensures Delay(rules, joined[i], joined[..i]) <= rules.maxDelay
    {
      if i < |members| {
        assert joined[..i] == members[..i];
      } else {
        assert joined[..i] == members;
      }
    }
  }

  lemma StepKeepsLimits(rules: Rules, sys: System, step: Step)
    requires SysInv(sys) && AllWithinLimits(rules, sys.db)
    ensures AllWithinLimits(rules, Apply(rules, sys, step).db)
  {
    hide Inv, Eligible, MarkReady, WithinLimits;
    var s := sys.db;
    match step
    case Readied(o, vendor, hasFood, now, open, newBatch) =>
      if OpenListing(s, open) && FreshBatchId(s, newBatch) {
        if o in s.orders && s.orders[o].info.vendorId == vendor && Readyable(s.orders[o].status) {
          ReadyBatches(rules, s, o, vendor, hasFood, now, open, newBatch);
          var r := MarkReady(rules, s, o, vendor, hasFood, now, open, newBatch);
          var b, order := r.batchId.value, ReadyInfo(s, o, hasFood);
          if b in s.batches {
            JoinStaysWithinLimits(rules, order, Members(s, b));
          } else {
            SingleWithinLimits(rules, order);
          }
        } else {
          RefusedReady(rules, s, o, vendor, hasFood, now, open, newBatch);
        }
      }
    case _ => StepKeepsBatching(rules, sys, step);
  }

  lemma SingleWithinLimits(rules: Rules, order: OrderInfo)
    ensures WithinLimits(rules, [order])
  {
  }

  lemma {:induction false} RunKeepsLimits(rules: Rules, sys: System, steps: seq<Step>)
    requires SysInv(sys) && AllWithinLimits(rules, sys.db)
    ensures AllWithinLimits(rules, Run(rules, sys, steps).db)
    decreases |steps|
  {
    hide SysInv, AllWithinLimits, Apply;
    if steps != [] {
      StepKeepsSysInv(rules, sys, steps[0]);
      StepKeepsLimits(rules, sys, steps[0]);
      RunKeepsLimits(rules, Apply(rules, sys, steps[0]), steps[1..]);
    }
  }

  /**
   Even when the close after a commit comes late or never: every batch has one to five orders, food
   orders are among the first three, with multi-vendor batching off all share a vendor, and each member
   but the first was near enough, and delayed little enough, when it joined.
   */
  lemma BatchesStaySmall(rules: Rules, sys: System, b: Id)
    requires Reachable(rules, sys) && b in sys.db.batches
    ensures WithinCapacity(rules, Members(sys.db, b)) && WithinReach(rules, Members(sys.db, b))
  {
    var steps :| sys == Run(rules, INITIAL, steps);
    InitialHolds();
    RunKeepsLimits(rules, INITIAL, steps);
  }

  // ---------------------------------------------------------------- prompt closing

  /** A batch that has reached its size limit: mark-ready has asked for it to be closed. */
  predicate Full(members: seq<OrderInfo>) {
    |members| >= (if HasFood(members) then FOOD_MAX_BATCH else GROCERY_MAX_BATCH)
  }

  /** Mark-ready raises the close flag exactly when the batch it used is full, or was joined past its window. */
  lemma FlagRaisedIff(
    rules: Rules, s: State, o: Id, vendor: Id, hasFood: bool, now: int, open: seq<Id>, newBatch: Id)
    requires Inv(s) && OpenListing(s, open) && FreshBatchId(s, newBatch)
    requires o in s.orders && s.orders[o].info.vendorId == vendor && Readyable(s.orders[o].status)
    ensures var r := MarkReady(rules, s, o, vendor, hasFood, now, open, newBatch);
      && r.batchId.Some? && r.batchId.value in r.state.batches
      && var b := r.batchId.value;
      && r.created == (b !in s.batches)
      && (r.close <==> Full(Members(r.state, b))
                       || (b in s.batches && now - s.batches[b].createdAt >= rules.windowMin * MS_PER_MIN))
  {
    hide Links, Statuses, Stops, Eligible;
    ReadyBatches(rules, s, o, vendor, hasFood, now, open, newBatch);
    MarkReadyEnters(rules, s, o, vendor, hasFood, now, open, newBatch);
    MembersAfterClaim(s, ClaimReady(s, o, hasFood, now), o);
  }

  /** Every close flag has been acted on before each mark-ready of the run. */
  ghost predicate PromptRun(rules: Rules, sys: System, steps: seq<Step>)
    decreases |steps|
  {
    steps != [] ==>
      && (steps[0].Readied? ==> forall b :: CanClose(sys.db, b) ==> !Full(Members(sys.db, b)))
      && PromptRun(rules, Apply(rules, sys, steps[0]), steps[1..])
  }

  ghost predicate FoodStaysSmall(s: State) {
    forall b :: b in s.batches && HasFood(Members(s, b)) ==> |Members(s, b)| <= FOOD_MAX_BATCH
  }

  /** The first listed batch that takes the order has food in it and is full, but has not been closed yet. */
  ghost predicate PicksFullFood(rules: Rules, s: State, o: Id, hasFood: bool, open: seq<Id>)
    requires o in s.orders
  {
    var choice := FirstEligible(rules, s, ReadyInfo(s, o, hasFood), open);
    choice.Some? && choice.value in s.batches
    && HasFood(Members(s, choice.value)) && Full(Members(s, choice.value))
  }

  lemma {:induction false} SameChoice(rules: Rules, s: State, view: State, order: OrderInfo, open: seq<Id>)
    requires forall b :: b in open ==> b in s.batches && b in view.batches && Members(view, b) == Members(s, b)
    ensures FirstEligible(rules, view, order, open) == FirstEligible(rules, s, order, open)
    decreases |open|
  {
    hide Eligible;
    if open != [] {
      SameChoice(rules, s, view, order, open[1..]);
    }
  }

  /** The batch a mark-ready joins is the first listed one that takes the order, or none does. */
  lemma ChoiceIsFirst(
    rules: Rules, s: State, o: Id, vendor: Id, hasFood: bool, now: int, open: seq<Id>, newBatch: Id)
    requires Inv(s) && OpenListing(s, open) && FreshBatchId(s, newBatch)
    requires o in s.orders && s.orders[o].info.vendorId == vendor && Readyable(s.orders[o].status)
    ensures var r := MarkReady(rules, s, o, vendor, hasFood, now, open, newBatch);
      FirstEligible(rules, s, ReadyInfo(s, o, hasFood), open)
        == if r.batchId.Some? && r.batchId.value in s.batches then r.batchId else None
  {
    hide Links, Stops, Eligible, ShouldClose;
    var claimed := ClaimReady(s, o, hasFood, now);
    assert OrderPhase(s, o);
    MembersAfterClaim(s, claimed, o);
    SameChoice(rules, s, claimed, ReadyInfo(s, o, hasFood), open);
    FirstEligibleIsListed(rules, claimed, ReadyInfo(s, o, hasFood), open);
  }

  /** A mark-ready leaves every batch with food at three or fewer exactly when it does not pick a full one. */
  lemma FoodStaysSmallIff(
    rules: Rules, s: State, o: Id, vendor: Id, hasFood: bool, now: int, open: seq<Id>, newBatch: Id)
    requires Inv(s) && OpenListing(s, open) && FreshBatchId(s, newBatch) && FoodStaysSmall(s)
    requires o in s.orders && s.orders[o].info.vendorId == vendor && Readyable(s.orders[o].status)
    ensures FoodStaysSmall(MarkReady(rules, s, o, vendor, hasFood, now, open, newBatch).state)
      <==> !PicksFullFood(rules, s, o, hasFood, open)
  {
    hide Inv, MarkReady, Eligible;
    var r := MarkReady(rules, s, o, vendor, hasFood, now, open, newBatch);
    ReadyBatches(rules, s, o, vendor, hasFood, now, open, newBatch);
    ChoiceIsFirst(rules, s, o, vendor, hasFood, now, open, newBatch);
    var b, order := r.batchId.value, ReadyInfo(s, o, hasFood);
    if b in s.batches {
      FoodAfterJoin(rules, order, Members(s, b));
    } else {
      assert |Members(r.state, b)| == 1;
    }
  }

  lemma FoodAfterJoin(rules: Rules, order: OrderInfo, members: seq<OrderInfo>)
    requires Eligible(rules, order, members) && (HasFood(members) ==> |members| <= FOOD_MAX_BATCH)
    ensures (HasFood(members + [order]) ==> |members + [order]| <= FOOD_MAX_BATCH)
      <==> !(HasFood(members) && Full(members))
  {
    if HasFood(members) {
      var i :| 0 <= i < |members| && members[i].orderType == Food;
      assert (members + [order])[i].orderType == Food;
    } else if HasFood(members + [order]) {
      var i :| 0 <= i < |members + [order]| && (members + [order])[i].orderType == Food;
      assert i == |members|;
    }
  }

  /** A mark-ready of this step commits into a full batch with food. */
  ghost predicate Overfills(rules: Rules, sys: System, step: Step) {
    step.Readied? && OpenListing(sys.db, step.open) && FreshBatchId(sys.db, step.newBatch)
    && step.o in sys.db.orders && sys.db.orders[step.o].info.vendorId == step.vendor
    && Readyable(sys.db.orders[step.o].status) && PicksFullFood(rules, sys.db, step.o, step.hasFood, step.open)
  }

  ghost predicate NeverOverfills(rules: Rules, sys: System, steps: seq<Step>)
    decreases |steps|
  {
    steps != [] ==> !Overfills(rules, sys, steps[0]) && NeverOverfills(rules, Apply(rules, sys, steps[0]), steps[1..])
  }

  lemma StepKeepsFoodSmallIff(rules: Rules, sys: System, step: Step)
    requires SysInv(sys) && FoodStaysSmall(sys.db)
    ensures FoodStaysSmall(Apply(rules, sys, step).db) <==> !Overfills(rules, sys, step)
  {
    hide Inv, MarkReady, PicksFullFood, Full;
    var s := sys.db;
    match step
    case Readied(o, vendor, hasFood, now, open, newBatch) =>
      if OpenListing(s, open) && FreshBatchId(s, newBatch) {
        if o in s.orders && s.orders[o].info.vendorId == vendor && Readyable(s.orders[o].status) {
          FoodStaysSmallIff(rules, s, o, vendor, hasFood, now, open, newBatch);
        } else {
          RefusedReady(rules, s, o, vendor, hasFood, now, open, newBatch);
        }
      }
    case _ => StepKeepsBatching(rules, sys, step);
  }

  /** Members never leave, so a batch that is too large stays so. */
  lemma OverfullStays(s: State, s': State)
    requires Refs(s) && Evolves(s, s') && !FoodStaysSmall(s)
    ensures !FoodStaysSmall(s')
  {
    var b :| b in s.batches && HasFood(Members(s, b)) && |Members(s, b)| > FOOD_MAX_BATCH;
    assert BatchEvolves(s, s', b) && BatchRef(s, b);
    var ids, ids' := s.batches[b].orders, s'.batches[b].orders;
    forall i | 0 <= i < |ids| ensures Members(s', b)[i] == Members(s, b)[i] {
      assert ids[i] == ids'[i] && ids[i] in ids;
      assert OrderEvolves(s, s', ids[i]);
    }
    var i :| 0 <= i < |ids| && Members(s, b)[i].orderType == Food;
    assert Members(s', b)[i].orderType == Food;
  }

  /** Over any run: a batch with food exceeds three exactly when some mark-ready picked a full one still open. */
  lemma {:induction false} FoodStaysSmallInRunIff(rules: Rules, sys: System, steps: seq<Step>)
    requires SysInv(sys) && FoodStaysSmall(sys.db)
    ensures FoodStaysSmall(Run(rules, sys, steps).db) <==> NeverOverfills(rules, sys, steps)
    decreases |steps|
  {
    hide Inv, FoodStaysSmall, Apply, Overfills, Evolves;
    if steps != [] {
      var next := Apply(rules, sys, steps[0]);
      StepKeepsSysInv(rules, sys, steps[0]);
      StepKeepsFoodSmallIff(rules, sys, steps[0]);
      if Overfills(rules, sys, steps[0]) {
        RunKeepsSysInv(rules, next, steps[1..]);
        InvParts(next.db);
        OverfullStays(next.db, Run(rules, next, steps[1..]).db);
      } else {
        FoodStaysSmallInRunIff(rules, next, steps[1..]);
      }
    }
  }

  lemma {:induction false} PromptNeverOverfills(rules: Rules, sys: System, steps: seq<Step>)
    requires SysInv(sys) && PromptRun(rules, sys, steps)
    ensures NeverOverfills(rules, sys, steps)
    decreases |steps|
  {
    hide Inv, Apply, Full;
    if steps != [] {
      StepKeepsSysInv(rules, sys, steps[0]);
      if Overfills(rules, sys, steps[0]) {
        FirstEligibleIsListed(rules, sys.db, ReadyInfo(sys.db, steps[0].o, steps[0].hasFood), steps[0].open);
      }
      PromptNeverOverfills(rules, Apply(rules, sys, steps[0]), steps[1..]);
    }
  }

  /** If each close flag is acted on before the next join, a batch with food never exceeds three. */
  lemma PromptClosingKeepsFoodSmall(rules: Rules, sys: System, steps: seq<Step>)
    requires SysInv(sys) && FoodStaysSmall(sys.db) && PromptRun(rules, sys, steps)
    ensures FoodStaysSmall(Run(rules, sys, steps).db)
  {
    PromptNeverOverfills(rules, sys, steps);
    FoodStaysSmallInRunIff(rules, sys, steps);
  }

  // ---------------------------------------------------------------- a run that overfills

  /** Four like orders, the first with food; nobody acts on a close flag. */
  function LateClose(info: OrderInfo): seq<Step> {
    [Placed(0, info), Placed(1, info), Placed(2, info), Placed(3, info)]
    + [Ready(info, 0, [], 0), Ready(info, 1, [0], 1), Ready(info, 2, [0], 1), Ready(info, 3, [0], 1)]
  }

  /** The food order comes first. */
  function Ready(info: OrderInfo, o: Id, open: seq<Id>, newBatch: Id): Step {
    Readied(o, info.vendorId, o == 0, 0, open, newBatch)
  }

  /** Going from a place to itself takes nothing, and the thresholds are not negative. */
  predicate AllNear(rules: Rules, info: OrderInfo) {
    && rules.maxVendorDist >= 0.0 && rules.maxDelay >= 0.0
    && rules.dist(PointOf(info.vendor), PointOf(info.vendor)) == 0.0
    && rules.dist(PointOf(info.customer), PointOf(info.customer)) == 0.0
  }

  function LikeOrders(info: OrderInfo, n: nat): seq<OrderInfo> {
    seq(n, i requires 0 <= i < n => info.(orderType := if i == 0 then Food else Grocery))
  }

  /** After the first stop the courier is already there. */
  lemma {:induction false} OnePlace(rules: Rules, info: OrderInfo, n: nat)
    requires AllNear(rules, info) && HasPoint(info.customer) && 1 <= n
    ensures var v, c := PointOf(info.vendor), PointOf(info.customer);
      RouteEnd(v, LikeOrders(info, n)) == c && RouteMinutes(rules, v, LikeOrders(info, n)) == Minutes(rules, v, c)
  {
    var stops, before := LikeOrders(info, n), LikeOrders(info, n - 1);
    assert stops[..n - 1] == before && stops[n - 1].customer == info.customer;
    if n == 1 {
      assert before == [];
    } else {
      OnePlace(rules, info, n - 1);
    }
  }

  lemma LikeOrdersFit(rules: Rules, info: OrderInfo, n: nat)
    requires AllNear(rules, info) && 1 <= n <= 3
    ensures Eligible(rules, info.(orderType := Grocery), LikeOrders(info, n))
  {
    if HasPoint(info.customer) {
      OnePlace(rules, info, n);
    }
  }

  /** Order `o` is placed and not yet marked ready. */
  predicate Awaiting(s: State, info: OrderInfo, o: Id) {
    && o in s.orders && Readyable(s.orders[o].status)
    && s.orders[o].info.(orderType := Empty) == info.(orderType := Empty)
  }

  /** `n` orders are in batch 0, the only one, and it is open. */
  ghost predicate OneOpen(s: State, info: OrderInfo, n: nat) {
    s.batches.Keys == {0} && CanClose(s, 0) && Members(s, 0) == LikeOrders(info, n)
  }

  /** In addition the rest of the four are still waiting for their vendor. */
  ghost predicate InOneBatch(sys: System, info: OrderInfo, n: nat) {
    && SysInv(sys) && OneOpen(sys.db, info, n)
    && forall o: Id :: n <= o < 4 ==> Awaiting(sys.db, info, o)
  }

  lemma JoinsBatchZero(rules: Rules, sys: System, info: OrderInfo, n: nat)
    requires AllNear(rules, info) && 1 <= n <= 3 && InOneBatch(sys, info, n)
    ensures InOneBatch(Apply(rules, sys, Ready(info, n, [0], 1)), info, n + 1)
  {
    var s, step := sys.db, Ready(info, n, [0], 1);
    InvParts(s);
    OnlyZeroListed(s);
    hide Inv, OneOpen, Awaiting, OpenListing, FreshBatchId, MarkReady;
    StepKeepsSysInv(rules, sys, step);
    ReadyIsMark(rules, sys, step);
    hide Apply, SysInv;
    LikeOrderJoins(rules, s, info, n);
    forall o: Id | n < o < 4 ensures Awaiting(MarkReady(rules, s, n, info.vendorId, false, 0, [0], 1).state, info, o) {
      StillAwaiting(rules, s, info, n, false, [0], 1, o);
    }
  }

  lemma OnlyZeroListed(s: State)
    requires s.batches.Keys == {0} && CanClose(s, 0)
    ensures OpenListing(s, [0]) && FreshBatchId(s, 1)
  {
  }

  lemma LikeOrderJoins(rules: Rules, s: State, info: OrderInfo, n: nat)
    requires Inv(s) && AllNear(rules, info) && 1 <= n <= 3 && OneOpen(s, info, n) && Awaiting(s, info, n)
    requires OpenListing(s, [0]) && FreshBatchId(s, 1)
    ensures OneOpen(MarkReady(rules, s, n, info.vendorId, false, 0, [0], 1).state, info, n + 1)
  {
    hide Inv, Eligible, MarkReady, OpenListing, FreshBatchId, LikeOrders, Members;
    LikeOrdersFit(rules, info, n);
    LikeOrdersGrow(info, n);
    assert ReadyInfo(s, n, false) == info.(orderType := Grocery);
    ReadyBatches(rules, s, n, info.vendorId, false, 0, [0], 1);
  }

  /** A mark-ready writes no other order. */
  lemma StillAwaiting(
    rules: Rules, s: State, info: OrderInfo, n: Id, hasFood: bool, open: seq<Id>, newBatch: Id, o: Id)
    requires Refs(s) && Links(s) && Statuses(s) && OpenListing(s, open) && FreshBatchId(s, newBatch)
    requires Awaiting(s, info, n) && Awaiting(s, info, o) && o != n
    ensures Awaiting(MarkReady(rules, s, n, info.vendorId, hasFood, 0, open, newBatch).state, info, o)
  {
    hide MarkReady, Statuses, Links, OpenListing;
    MarkReadyEnters(rules, s, n, info.vendorId, hasFood, 0, open, newBatch);
  }

  lemma ReadyIsMark(rules: Rules, sys: System, step: Step)
    requires step.Readied? && OpenListing(sys.db, step.open) && FreshBatchId(sys.db, step.newBatch)
    ensures Apply(rules, sys, step).db
      == MarkReady(rules, sys.db, step.o, step.vendor, step.hasFood, step.now, step.open, step.newBatch).state
  {
    hide MarkReady, OpenListing, FreshBatchId;
  }

  lemma LikeOrdersGrow(info: OrderInfo, n: nat)
    requires 1 <= n
    ensures LikeOrders(info, n) + [info.(orderType := Grocery)] == LikeOrders(info, n + 1)
  {
  }

  /** Orders `0` to `n - 1` are placed, and nothing is batched. */
  ghost predicate PlacedUpTo(s: State, info: OrderInfo, n: nat) {
    && s.batches == map[] && (forall o: Id :: o in s.orders <==> o < n)
    && forall o :: o in s.orders ==>
         s.orders[o].info == info.(orderType := Empty) && s.orders[o].status == PendingVendorConfirmation
  }

  lemma OneMorePlaced(rules: Rules, sys: System, info: OrderInfo, n: nat)
    requires PlacedUpTo(sys.db, info, n)
    ensures PlacedUpTo(Apply(rules, sys, Placed(n, info)).db, info, n + 1)
  {
  }

  lemma AllPlaced(rules: Rules, info: OrderInfo)
    ensures var sys := Run(rules, INITIAL, [Placed(0, info), Placed(1, info), Placed(2, info), Placed(3, info)]);
      PlacedUpTo(sys.db, info, 4)
  {
    assert PlacedUpTo(INITIAL.db, info, 0);
    hide *;
    RunFour(rules, INITIAL, Placed(0, info), Placed(1, info), Placed(2, info), Placed(3, info));
    OneMorePlaced(rules, INITIAL, info, 0);
    var one := Apply(rules, INITIAL, Placed(0, info));
    OneMorePlaced(rules, one, info, 1);
    var two := Apply(rules, one, Placed(1, info));
    OneMorePlaced(rules, two, info, 2);
    var three := Apply(rules, two, Placed(2, info));
    OneMorePlaced(rules, three, info, 3);
  }

  /** Four orders are waiting for their vendor and nothing has been batched. */
  ghost predicate NoneBatched(sys: System, info: OrderInfo) {
    SysInv(sys) && PlacedUpTo(sys.db, info, 4)
  }

  lemma FoundsBatchZero(rules: Rules, sys: System, info: OrderInfo)
    requires NoneBatched(sys, info)
    ensures InOneBatch(Apply(rules, sys, Ready(info, 0, [], 0)), info, 1)
  {
    var s, step := sys.db, Ready(info, 0, [], 0);
    InvParts(s);
    assert OpenListing(s, []) && FreshBatchId(s, 0) && forall o: Id :: 0 <= o < 4 ==> Awaiting(s, info, o);
    hide Inv, OneOpen, Awaiting, OpenListing, FreshBatchId, MarkReady;
    StepKeepsSysInv(rules, sys, step);
    ReadyIsMark(rules, sys, step);
    hide Apply, SysInv;
    FirstOrderFounds(rules, s, info);
    forall o: Id | 0 < o < 4 ensures Awaiting(MarkReady(rules, s, 0, info.vendorId, true, 0, [], 0).state, info, o) {
      StillAwaiting(rules, s, info, 0, true, [], 0, o);
    }
  }

  lemma FirstOrderFounds(rules: Rules, s: State, info: OrderInfo)
    requires Inv(s) && s.batches == map[] && Awaiting(s, info, 0) && OpenListing(s, []) && FreshBatchId(s, 0)
    ensures OneOpen(MarkReady(rules, s, 0, info.vendorId, true, 0, [], 0).state, info, 1)
  {
    FirstGetsFirstId(rules, s, 0, info.vendorId, true, 0);
    assert [ReadyInfo(s, 0, true)] == LikeOrders(info, 1);
    hide Inv, Eligible, MarkReady, OpenListing, FreshBatchId, LikeOrders, Members;
    ReadyBatches(rules, s, 0, info.vendorId, true, 0, [], 0);
  }

  lemma FirstGetsFirstId(rules: Rules, s: State, o: Id, vendor: Id, hasFood: bool, now: int)
    requires o in s.orders && s.orders[o].info.vendorId == vendor && Readyable(s.orders[o].status)
    ensures MarkReady(rules, s, o, vendor, hasFood, now, [], 0).batchId == Some(0)
  {
  }

  lemma FourPlaced(rules: Rules, info: OrderInfo) returns (sys: System)
    ensures Reachable(rules, sys) && NoneBatched(sys, info)
    ensures sys == Run(rules, INITIAL, [Placed(0, info), Placed(1, info), Placed(2, info), Placed(3, info)])
  {
    var places := [Placed(0, info), Placed(1, info), Placed(2, info), Placed(3, info)];
    sys := Run(rules, INITIAL, places);
    AllPlaced(rules, info);
    InitialHolds();
    RunKeepsSysInv(rules, INITIAL, places);
  }

  lemma FirstFounded(rules: Rules, info: OrderInfo) returns (sys: System)
    ensures Reachable(rules, sys) && InOneBatch(sys, info, 1)
  {
    hide Apply, Run;
    var placed := FourPlaced(rules, info);
    FoundsBatchZero(rules, placed, info);
    StepStaysReachable(rules, placed, Ready(info, 0, [], 0));
    sys := Apply(rules, placed, Ready(info, 0, [], 0));
  }

  /**
   The promptness is needed: in a run of four orders at one place, none of whose close flags is acted on,
   a batch that begins with food ends with four orders.
   */
  lemma LateCloseOverfills(rules: Rules, info: OrderInfo)
    requires AllNear(rules, info)
    ensures var s := Run(rules, INITIAL, LateClose(info)).db;
      && 0 in s.batches && HasFood(Members(s, 0)) && |Members(s, 0)| == 4 && !FoodStaysSmall(s)
  {
    hide Apply, Run;
    var places := [Placed(0, info), Placed(1, info), Placed(2, info), Placed(3, info)];
    var sys := FourPlaced(rules, info);
    var marks := [Ready(info, 0, [], 0), Ready(info, 1, [0], 1), Ready(info, 2, [0], 1), Ready(info, 3, [0], 1)];
    RunConcat(rules, INITIAL, places, marks);
    RunFour(rules, sys, marks[0], marks[1], marks[2], marks[3]);
    FoundsBatchZero(rules, sys, info);
    var one := Apply(rules, sys, marks[0]);
    JoinsBatchZero(rules, one, info, 1);
    var two := Apply(rules, one, marks[1]);
    JoinsBatchZero(rules, two, info, 2);
    var three := Apply(rules, two, marks[2]);
    JoinsBatchZero(rules, three, info, 3);
    assert LikeOrders(info, 4)[0].orderType == Food;
  }

  /** Whatever CITY_TYPE is set to, the thresholds admit such a run. */
  lemma EveryCityOverfills(city: string, dist: Metric, multiVendor: bool, info: OrderInfo)
    requires dist(PointOf(info.vendor), PointOf(info.vendor)) == 0.0
    requires dist(PointOf(info.customer), PointOf(info.customer)) == 0.0
    ensures var rules := CityRules(city, dist, multiVendor);
      !FoodStaysSmall(Run(rules, INITIAL, LateClose(info)).db)
  {
    var rules := CityRules(city, dist, multiVendor);
    assert AllNear(rules, info);
    hide Run, FoodStaysSmall, AllNear;
    LateCloseOverfills(rules, info);
  }
}
