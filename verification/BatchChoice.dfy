/**
 Which batch a mark-ready uses, told from the rows alone: counts, metres, kilometres and minutes. Both
 directions: an order is turned away only for one of the reasons, and a batch does fill up.
 */
module BatchChoice {
  import opened Types
  import opened Batching
  import opened Transactions
  import opened Invariant
  import opened OrderSteps
  import opened Dispatch
  import opened Guarantees
  import opened BatchRuns

  /** The point that the distance formula sees: a null column counts as zero. */
  function Seen(c: Coords): Point {
    match c
    case Coords(Some(lat), Some(lng)) => Point(lat, lng)
    case Coords(Some(lat), None) => Point(lat, 0.0)
    case Coords(None, Some(lng)) => Point(0.0, lng)
    case Coords(None, None) => Point(0.0, 0.0)
  }

  /** What stands between an order and a batch with these members. */
  ghost predicate TurnsAway(rules: Rules, order: OrderInfo, members: seq<OrderInfo>) {
    members != [] &&
    (
      || (!rules.multiVendor && exists m :: m in members && m.vendorId != order.vendorId)
      || |members| >= (if order.orderType == Food then 3 else 5)
      || 1000.0 * rules.dist(Seen(order.vendor), Seen(members[0].vendor)) > rules.maxVendorDist
      || 2.0 * DetourKm(rules.dist, order.vendor, order.customer, members) > rules.maxDelay
    )
  }

  lemma EligibleIff(rules: Rules, order: OrderInfo, members: seq<OrderInfo>)
    ensures Eligible(rules, order, members) <==> !TurnsAway(rules, order, members)
  {
    DelayInKm(rules, order, members);
    assert forall m :: m in members <==> exists i :: 0 <= i < |members| && members[i] == m;
    hide Delay, DetourKm;
  }

  /** The same between the rows of an order that is being marked ready and of an open batch. */
  ghost predicate NoRoom(rules: Rules, s: State, o: Id, hasFood: bool, b: Id)
    requires o in s.orders && b in s.batches
  {
    var order, members := s.orders[o].info, s.batches[b].orders;
    || (!rules.multiVendor && exists p :: p in members && p in s.orders && s.orders[p].info.vendorId != order.vendorId)
    || |members| >= (if hasFood then 3 else 5)
    || (members != [] && members[0] in s.orders
        && 1000.0 * rules.dist(Seen(order.vendor), Seen(s.orders[members[0]].info.vendor)) > rules.maxVendorDist)
    || 2.0 * DetourKm(rules.dist, order.vendor, order.customer, Members(s, b)) > rules.maxDelay
  }

  lemma NoRoomIff(rules: Rules, s: State, o: Id, hasFood: bool, b: Id)
    requires Refs(s) && o in s.orders && b in s.batches
    ensures NoRoom(rules, s, o, hasFood, b) <==> !Eligible(rules, ReadyInfo(s, o, hasFood), Members(s, b))
  {
    EligibleIff(rules, ReadyInfo(s, o, hasFood), Members(s, b));
    assert BatchRef(s, b);
    var ids, members := s.batches[b].orders, Members(s, b);
    assert forall i :: 0 <= i < |ids| ==> ids[i] in ids && members[i] == s.orders[ids[i]].info && members[i] in members;
    assert forall p :: p in ids ==> s.orders[p].info in members;
    hide Eligible, DetourKm;
  }

  /**
   A mark-ready founds a batch exactly when every open one has no room, and otherwise joins one that has, while
   every strictly older one has none.
   */
  lemma FoundsIff(
    rules: Rules, s: State, o: Id, vendor: Id, hasFood: bool, now: int, open: seq<Id>, newBatch: Id)
    requires Inv(s) && OpenListing(s, open) && FreshBatchId(s, newBatch)
    requires o in s.orders && s.orders[o].info.vendorId == vendor && Readyable(s.orders[o].status)
    ensures var r := MarkReady(rules, s, o, vendor, hasFood, now, open, newBatch);
      && r.outcome == Committed && r.batchId.Some? && r.batchId.value in r.state.batches
      && (r.created <==> forall b :: CanClose(s, b) ==> NoRoom(rules, s, o, hasFood, b))
      && (if r.created
          then r.state.batches == s.batches[newBatch := Batch(JobStatus.Pending, None, now, [o])]
          else
            && var b := r.batchId.value;
            && CanClose(s, b) && !NoRoom(rules, s, o, hasFood, b)
            && (forall c :: CanClose(s, c) && s.batches[c].createdAt < s.batches[b].createdAt ==>
                  NoRoom(rules, s, o, hasFood, c))
            && r.state.batches == s.batches[b := s.batches[b].(orders := s.batches[b].orders + [o])])
  {
    var r := MarkReady(rules, s, o, vendor, hasFood, now, open, newBatch);
    InvParts(s);
    MarkReadyEnters(rules, s, o, vendor, hasFood, now, open, newBatch);
    WhatIsWritten(rules, s, o, vendor, hasFood, now, open, newBatch);
    ReadyBatches(rules, s, o, vendor, hasFood, now, open, newBatch);
    hide Inv, MarkReady, NoRoom, Eligible, Members, OpenListing, Links, Statuses, Stops, Refs;
    forall b | CanClose(s, b) ensures NoRoom(rules, s, o, hasFood, b) <==>
        !Eligible(rules, ReadyInfo(s, o, hasFood), Members(s, b)) {
      NoRoomIff(rules, s, o, hasFood, b);
    }
    forall c | CanClose(s, c) && r.batchId.value in s.batches
        && s.batches[c].createdAt < s.batches[r.batchId.value].createdAt
      ensures NoRoom(rules, s, o, hasFood, c)
    {
      JoinsOldest(rules, s, o, vendor, hasFood, now, open, newBatch, c);
    }
  }

  lemma WhatIsWritten(
    rules: Rules, s: State, o: Id, vendor: Id, hasFood: bool, now: int, open: seq<Id>, newBatch: Id)
    requires MarkReady(rules, s, o, vendor, hasFood, now, open, newBatch).outcome == Committed
    requires FreshBatchId(s, newBatch)
    ensures var r := MarkReady(rules, s, o, vendor, hasFood, now, open, newBatch);
      && r.batchId.Some? && (r.created <==> r.batchId.value !in s.batches)
      && (if r.created then r.state.batches == s.batches[newBatch := Batch(JobStatus.Pending, None, now, [o])]
          else
            && r.batchId.value in s.batches
            && var b := r.batchId.value;
               r.state.batches == s.batches[b := s.batches[b].(orders := s.batches[b].orders + [o])])
  {
    hide FirstEligible, Infos, ShouldClose;
  }

  /** Some order of the list, as the rows stand, has food. */
  ghost predicate SomeFood(s: State, ids: seq<Id>) {
    exists p :: p in ids && p in s.orders && s.orders[p].info.orderType == Food
  }

  /** The batch is asked to be closed exactly when it was joined full, or joined a window or more after it opened. */
  lemma FlagIff(
    rules: Rules, s: State, o: Id, vendor: Id, hasFood: bool, now: int, open: seq<Id>, newBatch: Id)
    requires Inv(s) && OpenListing(s, open) && FreshBatchId(s, newBatch)
    requires o in s.orders && s.orders[o].info.vendorId == vendor && Readyable(s.orders[o].status)
    ensures var r := MarkReady(rules, s, o, vendor, hasFood, now, open, newBatch);
      && r.batchId.Some? && r.batchId.value in r.state.batches
      && var b := r.batchId.value;
      && var ids := r.state.batches[b].orders;
      && (r.close <==>
            && b in s.batches
            && (|ids| >= (if SomeFood(r.state, ids) then 3 else 5)
                || now - s.batches[b].createdAt >= rules.windowMin * 60000))
  {
    var r := MarkReady(rules, s, o, vendor, hasFood, now, open, newBatch);
    InvParts(s);
    MarkReadyKeepsInv(rules, s, o, vendor, hasFood, now, open, newBatch);
    MarkReadyEnters(rules, s, o, vendor, hasFood, now, open, newBatch);
    FlagRaisedIff(rules, s, o, vendor, hasFood, now, open, newBatch);
    WhatIsWritten(rules, s, o, vendor, hasFood, now, open, newBatch);
    FullIff(r.state, r.batchId.value);
    hide Inv, MarkReady, Members, OpenListing, Refs, Links, Statuses, Stops, Full, SomeFood;
  }

  lemma FullIff(s: State, b: Id)
    requires Inv(s) && b in s.batches
    ensures var ids := s.batches[b].orders;
      Full(Members(s, b)) <==> |ids| >= (if SomeFood(s, ids) then 3 else 5)
  {
    assert BatchRef(s, b);
    var ids, members := s.batches[b].orders, Members(s, b);
    assert forall i :: 0 <= i < |ids| ==> ids[i] in ids && members[i] == s.orders[ids[i]].info;
  }

  // ---------------------------------------------------------------- a batch that fills up

  /** Orders of one shop for one place; going nowhere takes nothing, and the thresholds are not negative. */
  predicate OnePlaceOrders(rules: Rules, info: OrderInfo) {
    && rules.maxVendorDist >= 0.0 && rules.maxDelay >= 0.0
    && rules.dist(Seen(info.vendor), Seen(info.vendor)) == 0.0
    && rules.dist(Seen(info.customer), Seen(info.customer)) == 0.0
  }

  function Placing(info: OrderInfo, n: nat): seq<Step> {
    if n == 0 then [] else Placing(info, n - 1) + [Placed(n - 1, info)]
  }

  /** The first one founds batch 0, the others find it open. */
  function Mark(info: OrderInfo, hasFood: bool, o: nat): Step {
    if o == 0 then Readied(0, info.vendorId, hasFood, 0, [], 0) else Readied(o, info.vendorId, hasFood, 0, [0], 1)
  }

  function Marking(info: OrderInfo, hasFood: bool, n: nat): seq<Step> {
    if n == 0 then [] else Marking(info, hasFood, n - 1) + [Mark(info, hasFood, n - 1)]
  }

  lemma RunLast(rules: Rules, sys: System, steps: seq<Step>, last: Step)
    ensures Run(rules, sys, steps + [last]) == Apply(rules, Run(rules, sys, steps), last)
  {
    hide Apply;
    RunConcat(rules, sys, steps, [last]);
    assert [last][1..] == [];
    assert Run(rules, Run(rules, sys, steps), [last]) == Run(rules, Apply(rules, Run(rules, sys, steps), last), []);
  }

  lemma {:induction false} AllPlacedFirst(rules: Rules, info: OrderInfo, n: nat)
    ensures PlacedUpTo(Run(rules, INITIAL, Placing(info, n)).db, info, n)
    decreases n
  {
    hide Apply, PlacedUpTo;
    if n == 0 {
      NothingPlaced(info);
    } else {
      AllPlacedFirst(rules, info, n - 1);
      OneMorePlaced(rules, Run(rules, INITIAL, Placing(info, n - 1)), info, n - 1);
      RunLast(rules, INITIAL, Placing(info, n - 1), Placed(n - 1, info));
    }
  }

  lemma NothingPlaced(info: OrderInfo)
    ensures PlacedUpTo(INITIAL.db, info, 0)
  {
  }

  /** The first `n` orders are the same but for their ids. */
  ghost predicate AllLike(s: State, info: OrderInfo, hasFood: bool, n: nat) {
    forall o: Id :: 0 <= o < n ==>
      o in s.orders && s.orders[o].info == info.(orderType := if hasFood then Food else Grocery)
  }

  /** After `n` marks: the first `n` of `total` orders are in batch 0, in order, and the rest wait. */
  ghost predicate Filled(sys: System, info: OrderInfo, hasFood: bool, n: nat, total: nat) {
    && SysInv(sys)
    && (forall o: Id :: n <= o < total ==> Awaiting(sys.db, info, o))
    && (if n == 0 then sys.db.batches == map[]
        else
          && sys.db.batches == map[0 := Batch(JobStatus.Pending, None, 0, seq(n, i => i))]
          && AllLike(sys.db, info, hasFood, n))
  }

  /** A tour that only ever goes to where it is going is no detour. */
  lemma {:induction false} StraightTour(dist: Metric, at: Point, stops: seq<OrderInfo>)
    requires dist(at, at) == 0.0 && forall x :: x in stops ==> x.customer == Coords(Some(at.lat), Some(at.lng))
    ensures Tour(dist, at, stops, at) == 0.0
    decreases |stops|
  {
    if stops != [] {
      assert stops[0] in stops;
      StraightTour(dist, at, stops[1..]);
    }
  }

  lemma NoDetour(rules: Rules, info: OrderInfo, stops: seq<OrderInfo>)
    requires OnePlaceOrders(rules, info) && forall x :: x in stops ==> x.customer == info.customer
    ensures DetourKm(rules.dist, info.vendor, info.customer, stops) == 0.0
  {
    if HasPoint(info.vendor) && HasPoint(info.customer) && stops != [] {
      assert stops[0] in stops;
      StraightTour(rules.dist, Seen(info.customer), stops[1..]);
    }
  }

  lemma LikeHasRoom(rules: Rules, sys: System, info: OrderInfo, hasFood: bool, n: nat, total: nat)
    requires OnePlaceOrders(rules, info) && Filled(sys, info, hasFood, n, total)
    requires 1 <= n < total <= (if hasFood then 3 else 5)
    ensures n in sys.db.orders && 0 in sys.db.batches && !NoRoom(rules, sys.db, n, hasFood, 0)
  {
    assert Awaiting(sys.db, info, n);
    var members := Members(sys.db, 0);
    assert forall i :: 0 <= i < n ==> members[i].customer == info.customer;
    NoDetour(rules, info, members);
    hide SysInv, DetourKm, Members;
  }

  lemma MarkKeepsRest(rules: Rules, sys: System, info: OrderInfo, hasFood: bool, n: nat, total: nat)
    requires Filled(sys, info, hasFood, n, total) && n < total
    ensures var step := Mark(info, hasFood, n);
      && OpenListing(sys.db, step.open) && FreshBatchId(sys.db, step.newBatch) && Awaiting(sys.db, info, n)
      && SysInv(Apply(rules, sys, step))
      && Apply(rules, sys, step).db
           == MarkReady(rules, sys.db, n, info.vendorId, hasFood, 0, step.open, step.newBatch).state
      && forall o: Id :: n < o < total ==> Awaiting(Apply(rules, sys, step).db, info, o)
  {
    var step := Mark(info, hasFood, n);
    assert Awaiting(sys.db, info, n);
    assert OpenListing(sys.db, step.open) && FreshBatchId(sys.db, step.newBatch);
    InvParts(sys.db);
    hide Inv, Awaiting, OpenListing, FreshBatchId, MarkReady, EntryHolds, SnapshotHolds;
    StepKeepsSysInv(rules, sys, step);
    ReadyIsMark(rules, sys, step);
    hide Apply, SysInv;
    forall o: Id | n < o < total ensures Awaiting(Apply(rules, sys, step).db, info, o) {
      StillAwaiting(rules, sys.db, info, n, hasFood, step.open, step.newBatch, o);
    }
  }

  /** The close flag of the mark that puts order `n` into the batch. */
  ghost function FlagOf(rules: Rules, sys: System, info: OrderInfo, hasFood: bool, n: nat): bool {
    var step := Mark(info, hasFood, n);
    MarkReady(rules, sys.db, n, info.vendorId, hasFood, 0, step.open, step.newBatch).close
  }

  lemma OneMoreFilled(rules: Rules, sys: System, info: OrderInfo, hasFood: bool, n: nat, total: nat)
    requires OnePlaceOrders(rules, info) && Filled(sys, info, hasFood, n, total)
    requires n < total <= (if hasFood then 3 else 5)
    ensures Filled(Apply(rules, sys, Mark(info, hasFood, n)), info, hasFood, n + 1, total)
    ensures rules.windowMin > 0 ==> (FlagOf(rules, sys, info, hasFood, n) <==> n + 1 == (if hasFood then 3 else 5))
  {
    MarkKeepsRest(rules, sys, info, hasFood, n, total);
    FilledIsNextUp(rules, sys, info, hasFood, n, total);
    hide *;
    FilledRows(rules, sys.db, info, hasFood, n);
    if rules.windowMin > 0 { FlagOfLast(rules, sys, info, hasFood, n); }
    FilledByParts(Apply(rules, sys, Mark(info, hasFood, n)), info, hasFood, n, total);
  }

  lemma FilledIsNextUp(rules: Rules, sys: System, info: OrderInfo, hasFood: bool, n: nat, total: nat)
    requires OnePlaceOrders(rules, info) && Filled(sys, info, hasFood, n, total)
    requires n < total <= (if hasFood then 3 else 5)
    ensures NextUp(rules, sys.db, info, hasFood, n)
  {
    MarkKeepsRest(rules, sys, info, hasFood, n, total);
    if n > 0 { LikeHasRoom(rules, sys, info, hasFood, n, total); }
    hide Inv, NoRoom, OpenListing, FreshBatchId, MarkReady, Apply;
  }

  lemma FlagOfLast(rules: Rules, sys: System, info: OrderInfo, hasFood: bool, n: nat)
    requires NextUp(rules, sys.db, info, hasFood, n) && rules.windowMin > 0 && n < (if hasFood then 3 else 5)
    ensures FlagOf(rules, sys, info, hasFood, n) <==> n + 1 == (if hasFood then 3 else 5)
  {
    hide NextUp, MarkReady;
    FilledFlag(rules, sys.db, info, hasFood, n);
  }

  lemma FilledByParts(next: System, info: OrderInfo, hasFood: bool, n: nat, total: nat)
    requires SysInv(next) && AllLike(next.db, info, hasFood, n + 1)
    requires next.db.batches == map[0 := Batch(JobStatus.Pending, None, 0, seq(n, i => i) + [n])]
    requires forall o: Id :: n < o < total ==> Awaiting(next.db, info, o)
    ensures Filled(next, info, hasFood, n + 1, total)
  {
    hide SysInv, AllLike, Awaiting;
    assert seq(n, i => i) + [n] == seq(n + 1, i => i);
  }

  /** Order `n` is next, after `n` orders in batch 0 that leave room for it. */
  ghost predicate NextUp(rules: Rules, s: State, info: OrderInfo, hasFood: bool, n: nat) {
    var step := Mark(info, hasFood, n);
    && Inv(s) && Awaiting(s, info, n) && OpenListing(s, step.open) && FreshBatchId(s, step.newBatch)
    && (if n == 0 then s.batches == map[]
        else s.batches == map[0 := Batch(JobStatus.Pending, None, 0, seq(n, i => i))]
             && !NoRoom(rules, s, n, hasFood, 0) && AllLike(s, info, hasFood, n))
  }

  /** What the mark writes. */
  lemma FilledRows(rules: Rules, s: State, info: OrderInfo, hasFood: bool, n: nat)
    requires NextUp(rules, s, info, hasFood, n)
    ensures var step := Mark(info, hasFood, n);
            var r := MarkReady(rules, s, n, info.vendorId, hasFood, 0, step.open, step.newBatch);
      && r.batchId == Some(0)
      && r.state.batches == map[0 := Batch(JobStatus.Pending, None, 0, seq(n, i => i) + [n])]
      && AllLike(r.state, info, hasFood, n + 1)
  {
    hide *;
    FilledBatches(rules, s, info, hasFood, n);
    FilledInfos(rules, s, info, hasFood, n);
  }

  lemma FilledBatches(rules: Rules, s: State, info: OrderInfo, hasFood: bool, n: nat)
    requires NextUp(rules, s, info, hasFood, n)
    ensures var step := Mark(info, hasFood, n);
            var r := MarkReady(rules, s, n, info.vendorId, hasFood, 0, step.open, step.newBatch);
      && r.batchId == Some(0)
      && r.state.batches == map[0 := Batch(JobStatus.Pending, None, 0, seq(n, i => i) + [n])]
  {
    hide Inv, MarkReady, NoRoom, OpenListing, FreshBatchId, AllLike;
    var step := Mark(info, hasFood, n);
    FoundsIff(rules, s, n, info.vendorId, hasFood, 0, step.open, step.newBatch);
    if n > 0 { assert CanClose(s, 0); }
    assert seq(0, i => i) + [0] == [0];
  }

  lemma FilledInfos(rules: Rules, s: State, info: OrderInfo, hasFood: bool, n: nat)
    requires NextUp(rules, s, info, hasFood, n)
    ensures var step := Mark(info, hasFood, n);
      AllLike(MarkReady(rules, s, n, info.vendorId, hasFood, 0, step.open, step.newBatch).state, info, hasFood, n + 1)
  {
    hide Inv, MarkReady, NoRoom, OpenListing, FreshBatchId;
    var step := Mark(info, hasFood, n);
    InvParts(s);
    MarkReadyEnters(rules, s, n, info.vendorId, hasFood, 0, step.open, step.newBatch);
    InfoAfterReady(rules, s, n, info.vendorId, hasFood, 0, step.open, step.newBatch);
    hide Refs, Links, Statuses, Stops;
  }

  lemma FilledFlag(rules: Rules, s: State, info: OrderInfo, hasFood: bool, n: nat)
    requires NextUp(rules, s, info, hasFood, n) && rules.windowMin > 0
    ensures var step := Mark(info, hasFood, n);
            var r := MarkReady(rules, s, n, info.vendorId, hasFood, 0, step.open, step.newBatch);
      r.close <==> n > 0 && n + 1 >= (if hasFood then 3 else 5)
  {
    hide Inv, MarkReady, NoRoom, OpenListing, FreshBatchId, SomeFood;
    var step := Mark(info, hasFood, n);
    var r := MarkReady(rules, s, n, info.vendorId, hasFood, 0, step.open, step.newBatch);
    FlagIff(rules, s, n, info.vendorId, hasFood, 0, step.open, step.newBatch);
    FilledRows(rules, s, info, hasFood, n);
    var ids := seq(n, i => i) + [n];
    assert forall i :: 0 <= i <= n ==> ids[i] == i;
    FoodOfAll(r.state, ids, hasFood);
  }

  lemma FoodOfAll(s: State, ids: seq<Id>, hasFood: bool)
    requires ids != [] && forall p :: p in ids ==>
      p in s.orders && s.orders[p].info.orderType == if hasFood then Food else Grocery
    ensures SomeFood(s, ids) <==> hasFood
  {
    assert ids[0] in ids;
  }

  lemma {:induction false} MarksFill(rules: Rules, info: OrderInfo, hasFood: bool, n: nat, total: nat)
    requires OnePlaceOrders(rules, info) && n <= total <= (if hasFood then 3 else 5)
    ensures Filled(Run(rules, INITIAL, Placing(info, total) + Marking(info, hasFood, n)), info, hasFood, n, total)
    decreases n
  {
    hide Apply, Filled, Run;
    if n == 0 {
      assert Placing(info, total) + Marking(info, hasFood, 0) == Placing(info, total);
      NoneFilled(rules, info, hasFood, total);
    } else {
      MarksFill(rules, info, hasFood, n - 1, total);
      var before := Placing(info, total) + Marking(info, hasFood, n - 1);
      OneMoreFilled(rules, Run(rules, INITIAL, before), info, hasFood, n - 1, total);
      RunLast(rules, INITIAL, before, Mark(info, hasFood, n - 1));
      assert before + [Mark(info, hasFood, n - 1)] == Placing(info, total) + Marking(info, hasFood, n);
    }
  }

  lemma NoneFilled(rules: Rules, info: OrderInfo, hasFood: bool, total: nat)
    ensures Filled(Run(rules, INITIAL, Placing(info, total)), info, hasFood, 0, total)
  {
    AllPlacedFirst(rules, info, total);
    InitialHolds();
    RunKeepsSysInv(rules, INITIAL, Placing(info, total));
    hide SysInv, Run;
  }

  /**
   The limits are reached: a run of five like orders ends with all five in one batch, or three if they have
   food, and the mark of the last one, and of no earlier one, asks for the batch to be closed.
   */
  lemma BatchFills(rules: Rules, info: OrderInfo, hasFood: bool)
    requires OnePlaceOrders(rules, info) && rules.windowMin > 0
    ensures var most := if hasFood then 3 else 5;
      && Run(rules, INITIAL, Placing(info, most) + Marking(info, hasFood, most)).db.batches
           == map[0 := Batch(JobStatus.Pending, None, 0, if hasFood then [0, 1, 2] else [0, 1, 2, 3, 4])]
      && forall n: nat :: n < most ==>
           (FlagOf(rules, Run(rules, INITIAL, Placing(info, most) + Marking(info, hasFood, n)), info, hasFood, n)
            <==> n == most - 1)
  {
    var most := if hasFood then 3 else 5;
    MarksFill(rules, info, hasFood, most, most);
    assert seq(3, i => i) == [0, 1, 2] && seq(5, i => i) == [0, 1, 2, 3, 4];
    forall n: nat | n < most
      ensures FlagOf(rules, Run(rules, INITIAL, Placing(info, most) + Marking(info, hasFood, n)), info, hasFood, n)
        <==> n == most - 1
    {
      hide *;
      MarksFill(rules, info, hasFood, n, most);
      var before := Run(rules, INITIAL, Placing(info, most) + Marking(info, hasFood, n));
      OneMoreFilled(rules, before, info, hasFood, n, most);
    }
  }
}
