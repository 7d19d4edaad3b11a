/**
 A vendor's decision as the two separate statements it is: a check of the order's status, and later an
 update without a condition. Anything may land in between.
 */
module VendorRaces {
  import opened Types
  import opened Batching
  import opened Transactions
  import opened Invariant
  import opened Evolution
  import opened OrderSteps
  import opened Dispatch
  import opened Guarantees

  /** A call whose check has passed and whose write is still to come. */
  datatype Check = Check(order: Id, accept: bool)

  datatype Shop = Shop(sys: System, checks: map<Id, Check>)

  datatype Move =
    | Does(step: Step)
    | Checks(v: Id, vendor: Id, o: Id, accept: bool)
    | Writes(v: Id)

  const OPENING := Shop(INITIAL, map[])

  /** The check passes for the order's own vendor; the write goes through whatever has happened since. */
  ghost function Act(rules: Rules, shop: Shop, move: Move): Shop {
    match move
    case Does(step) => if step.Decided? then shop else shop.(sys := Apply(rules, shop.sys, step))
    case Checks(v, vendor, o, accept) =>
      if CanDecide(shop.sys.db, o) && shop.sys.db.orders[o].info.vendorId == vendor
      then shop.(checks := shop.checks[v := Check(o, accept)]) else shop
    case Writes(v) =>
      if v !in shop.checks then shop
      else
        var check := shop.checks[v];
        Shop(shop.sys.(db := WriteDecision(shop.sys.db, check.order, check.accept)), shop.checks - {v})
  }

  ghost function Play(rules: Rules, shop: Shop, moves: seq<Move>): Shop
    decreases |moves|
  {
    if moves == [] then shop else Play(rules, Act(rules, shop, moves[0]), moves[1..])
  }

  /** A write that finds its order in no batch. */
  ghost predicate Timely(shop: Shop, move: Move) {
    move.Writes? && move.v in shop.checks ==>
      var o := shop.checks[move.v].order;
      o in shop.sys.db.orders ==> shop.sys.db.orders[o].batchId.None?
  }

  ghost predicate TimelyPlay(rules: Rules, shop: Shop, moves: seq<Move>)
    decreases |moves|
  {
    moves != [] ==> Timely(shop, moves[0]) && TimelyPlay(rules, Act(rules, shop, moves[0]), moves[1..])
  }

  lemma TimelyMoveStaysReachable(rules: Rules, shop: Shop, move: Move)
    requires Reachable(rules, shop.sys) && Timely(shop, move)
    ensures Reachable(rules, Act(rules, shop, move).sys)
  {
    hide Reachable, Run;
    match move
    case Does(step) => StepStaysReachable(rules, shop.sys, step);
    case Checks(_, _, _, _) =>
    case Writes(v) =>
      if v in shop.checks {
        var check := shop.checks[v];
        StepStaysReachable(rules, shop.sys, Decided(check.order, check.accept));
        assert Apply(rules, shop.sys, Decided(check.order, check.accept)).db
            == WriteDecision(shop.sys.db, check.order, check.accept);
      }
  }

  lemma {:induction false} TimelyPlayStaysReachable(rules: Rules, shop: Shop, moves: seq<Move>)
    requires Reachable(rules, shop.sys) && TimelyPlay(rules, shop, moves)
    ensures Reachable(rules, Play(rules, shop, moves).sys)
    decreases |moves|
  {
    hide Reachable, Act, Timely;
    if moves != [] {
      TimelyMoveStaysReachable(rules, shop, moves[0]);
      TimelyPlayStaysReachable(rules, Act(rules, shop, moves[0]), moves[1..]);
    }
  }

  /**
   However long after its check each write lands: as long as it finds its order in no batch, the system
   is in a state that the dispatch runs reach, so every guarantee about those holds of it.
   */
  lemma TimelyWritesAreHarmless(rules: Rules, moves: seq<Move>)
    requires TimelyPlay(rules, OPENING, moves)
    ensures Reachable(rules, Play(rules, OPENING, moves).sys)
  {
    assert INITIAL == Run(rules, INITIAL, []);
    TimelyPlayStaysReachable(rules, OPENING, moves);
  }

  /** One move keeps the invariant exactly when it is not a write to an order that has been batched since. */
  lemma MoveIsSafeIff(rules: Rules, shop: Shop, move: Move)
    requires Reachable(rules, shop.sys)
    ensures Inv(Act(rules, shop, move).sys.db) <==> Timely(shop, move)
  {
    ReachableHolds(rules, shop.sys);
    if Timely(shop, move) {
      TimelyMoveStaysReachable(rules, shop, move);
      ReachableHolds(rules, Act(rules, shop, move).sys);
    } else {
      hide Inv, Apply;
      var check := shop.checks[move.v];
      LateVendorWriteIsSafeIff(shop.sys.db, check.order, if check.accept then VendorAccepted else VendorRejected);
    }
  }

  /** The vendor rejects while marking ready: checked before, written after the order went into a batch. */
  function LateMoves(info: OrderInfo): seq<Move> {
    [Does(Placed(0, info)), Checks(0, info.vendorId, 0, false),
     Does(Readied(0, info.vendorId, false, 0, [], 0)), Writes(0)]
  }

  /** Such a run exists: it leaves a rejected order in an open batch. */
  lemma LateWriteHappens(rules: Rules, info: OrderInfo)
    ensures var shop := Play(rules, OPENING, LateMoves(info));
      && 0 in shop.sys.db.orders && shop.sys.db.orders[0].status == VendorRejected
      && shop.sys.db.orders[0].batchId == Some(0) && CanClose(shop.sys.db, 0)
      && !Inv(shop.sys.db)
  {
    var moves := LateMoves(info);
    var ready := BatchedBetween(rules, info);
    var end := Act(rules, ready, Writes(0));
    PlayFour(rules, OPENING, moves[0], moves[1], moves[2], moves[3]);
    assert !OrderPhase(end.sys.db, 0);
  }

  lemma PlayFour(rules: Rules, shop: Shop, a: Move, b: Move, c: Move, d: Move)
    ensures Play(rules, shop, [a, b, c, d])
      == Act(rules, Act(rules, Act(rules, Act(rules, shop, a), b), c), d)
  {
    hide Act;
    assert [a, b, c, d][1..] == [b, c, d] && [b, c, d][1..] == [c, d] && [c, d][1..] == [d] && [d][1..] == [];
    var two := Act(rules, Act(rules, shop, a), b);
    assert Play(rules, two, [c, d]) == Play(rules, Act(rules, two, c), [d]);
    assert Play(rules, shop, [a, b, c, d]) == Play(rules, two, [c, d]);
  }

  /** Everything before the write: the order is ready and in batch 0, and the check still stands. */
  lemma BatchedBetween(rules: Rules, info: OrderInfo) returns (shop: Shop)
    ensures var first := Act(rules, Act(rules, OPENING, LateMoves(info)[0]), LateMoves(info)[1]);
      shop == Act(rules, first, LateMoves(info)[2])
    ensures shop.checks == map[0 := Check(0, false)] && 0 in shop.sys.db.orders
    ensures shop.sys.db.orders[0].batchId == Some(0)
    ensures shop.sys.db.batches == map[0 := Batch(JobStatus.Pending, None, 0, [0])]
  {
    var placed := Act(rules, OPENING, LateMoves(info)[0]);
    assert placed.sys.db.batches == map[] && CanDecide(placed.sys.db, 0);
    var checked := Act(rules, placed, LateMoves(info)[1]);
    assert OpenListing(checked.sys.db, []) && FreshBatchId(checked.sys.db, 0);
    shop := Act(rules, checked, LateMoves(info)[2]);
  }

  // ---------------------------------------------------------------- a late accept

  /**
   A late write to an order of a closed batch lets mark-ready take the order again exactly when it accepts; the
   order then leaves the closed batch for another one.
   */
  lemma LateAcceptReopens(
    rules: Rules, s: State, o: Id, accept: bool, hasFood: bool, now: int, open: seq<Id>, newBatch: Id)
    requires o in s.orders && s.orders[o].batchId.Some? && Closed(s, s.orders[o].batchId.value)
    requires OpenListing(s, open) && FreshBatchId(s, newBatch)
    ensures var t := WriteDecision(s, o, accept);
            var r := MarkReady(rules, t, o, s.orders[o].info.vendorId, hasFood, now, open, newBatch);
      && OpenListing(t, open) && FreshBatchId(t, newBatch)
      && (r.outcome == Committed <==> accept)
      && (accept ==>
            && o in r.state.orders && r.state.orders[o].batchId == r.batchId
            && r.batchId.Some? && r.batchId != s.orders[o].batchId && !Evolves(s, r.state))
  {
    var t := WriteDecision(s, o, accept);
    var claimed := ClaimReady(t, o, hasFood, now);
    hide Eligible, Infos, ShouldClose;
    LeavesClosed(rules, claimed, o, open, newBatch, now);
    hide FirstEligible, PlaceInBatch;
  }

  lemma LeavesClosed(rules: Rules, s: State, o: Id, open: seq<Id>, newBatch: Id, now: int)
    requires o in s.orders && s.orders[o].batchId.Some? && Closed(s, s.orders[o].batchId.value)
    requires OpenListing(s, open) && FreshBatchId(s, newBatch)
    ensures var r := PlaceInBatch(rules, s, o, open, newBatch, now);
      && r.outcome == Committed && r.batchId.Some? && r.batchId != s.orders[o].batchId
      && o in r.state.orders && r.state.orders[o].batchId == r.batchId
  {
    FirstEligibleIsListed(rules, s, s.orders[o].info, open);
    hide FirstEligible, Infos, ShouldClose;
  }

  lemma {:induction false} PlayConcat(rules: Rules, shop: Shop, first: seq<Move>, second: seq<Move>)
    ensures Play(rules, shop, first + second) == Play(rules, Play(rules, shop, first), second)
    decreases |first|
  {
    hide Act;
    if first == [] {
      assert first + second == second;
    } else {
      assert (first + second)[1..] == first[1..] + second;
      PlayConcat(rules, Act(rules, shop, first[0]), first[1..], second);
    }
  }

  /** The vendor accepts while marking ready: the batch is closed, and then the accept is written. */
  function AcceptMoves(info: OrderInfo): seq<Move> {
    [Does(Placed(0, info)), Checks(0, info.vendorId, 0, true), Does(Readied(0, info.vendorId, false, 0, [], 0)),
     Does(BatchClosed(0))]
  }

  /** Such a run exists: the order ends in batch 1 although batch 0 was closed with it. */
  lemma LateAcceptHappens(rules: Rules, info: OrderInfo)
    ensures var closed := Play(rules, OPENING, AcceptMoves(info)).sys.db;
            var moves := AcceptMoves(info) + [Writes(0), Does(Readied(0, info.vendorId, false, 1, [], 1))];
            var end := Play(rules, OPENING, moves).sys.db;
      && Closed(closed, 0) && 0 in closed.orders && closed.orders[0].batchId == Some(0)
      && Closed(end, 0) && 0 in end.orders && end.orders[0].batchId == Some(1) && !Evolves(closed, end)
  {
    var shop := Play(rules, OPENING, AcceptMoves(info));
    ClosedBetween(rules, info);
    var write, again := Writes(0), Does(Readied(0, info.vendorId, false, 1, [], 1));
    var written := Act(rules, shop, write);
    PlayConcat(rules, OPENING, AcceptMoves(info), [write, again]);
    PlayTwo(rules, shop, write, again);
    assert written.sys.db == WriteDecision(shop.sys.db, 0, true);
    assert OpenListing(written.sys.db, []) && FreshBatchId(written.sys.db, 1);
    var r := MarkReady(rules, written.sys.db, 0, info.vendorId, false, 1, [], 1);
    assert r.state.orders[0].batchId == Some(1);
    assert Act(rules, written, again).sys.db == r.state;
  }

  lemma PlayTwo(rules: Rules, shop: Shop, a: Move, b: Move)
    ensures Play(rules, shop, [a, b]) == Act(rules, Act(rules, shop, a), b)
  {
    hide Act;
    assert [a, b][1..] == [b] && [b][1..] == [];
    assert Play(rules, Act(rules, shop, a), [b]) == Play(rules, Act(rules, Act(rules, shop, a), b), []);
  }

  lemma ClosedBetween(rules: Rules, info: OrderInfo)
    ensures var shop := Play(rules, OPENING, AcceptMoves(info));
      && shop.checks == map[0 := Check(0, true)] && 0 in shop.sys.db.orders
      && shop.sys.db.orders[0].batchId == Some(0) && shop.sys.db.orders[0].info.vendorId == info.vendorId
      && shop.sys.db.batches == map[0 := Batch(JobStatus.InProgress, None, 0, [0])]
  {
    var moves := AcceptMoves(info);
    PlayFour(rules, OPENING, moves[0], moves[1], moves[2], moves[3]);
    var placed := Act(rules, OPENING, moves[0]);
    assert placed.sys.db.batches == map[] && CanDecide(placed.sys.db, 0);
    var checked := Act(rules, placed, moves[1]);
    assert OpenListing(checked.sys.db, []) && FreshBatchId(checked.sys.db, 0);
    var ready := Act(rules, checked, moves[2]);
    assert ready.sys.db.batches == map[0 := Batch(JobStatus.Pending, None, 0, [0])];
  }
}
