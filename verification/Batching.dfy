/**
 The pure part of src/order/order.service.ts: which open batch may take an order, and when a batch
 is full. The metric is a parameter; only the triangle inequality is ever assumed of it.
 */
module Batching {
  import opened Types

  const FOOD_MAX_BATCH := 3
  const GROCERY_MAX_BATCH := 5
  /** 30 km per hour, in kilometres per minute. */
  const SPEED_KM_PER_MIN: real := 0.5
  const MS_PER_MIN := 60000

  datatype Point = Point(lat: real, lng: real)

  type Metric = (Point, Point) -> real

  datatype Rules = Rules(
    dist: Metric, maxVendorDist: real, maxDelay: real, windowMin: nat, multiVendor: bool)

  /** CITY_RULES, with the fall-back to MEDIUM for an unknown city type. */
  function CityRules(city: string, dist: Metric, multiVendor: bool): Rules {
    if city == "SMALL" then Rules(dist, 120.0, 7.0, 3, multiVendor)
    else if city == "LARGE" then Rules(dist, 20.0, 3.0, 3, multiVendor)
    else Rules(dist, 60.0, 5.0, 4, multiVendor)
  }

  /** The thresholds of the three kinds of city; any other name counts as MEDIUM. */
  lemma CityThresholds(city: string, dist: Metric, multiVendor: bool)
    ensures var r := CityRules(city, dist, multiVendor);
      && r.dist == dist && r.multiVendor == multiVendor
      && (city == "SMALL" ==> r.maxVendorDist == 120.0 && r.maxDelay == 7.0 && r.windowMin == 3)
      && (city == "MEDIUM" ==> r.maxVendorDist == 60.0 && r.maxDelay == 5.0 && r.windowMin == 4)
      && (city == "LARGE" ==> r.maxVendorDist == 20.0 && r.maxDelay == 3.0 && r.windowMin == 3)
      && (city !in {"SMALL", "LARGE"} ==> r == CityRules("MEDIUM", dist, multiVendor))
  {
  }

  ghost predicate Triangle(dist: Metric) {
    forall a, b, c :: dist(a, c) <= dist(a, b) + dist(b, c)
  }

  predicate HasPoint(c: Coords) {
    c.lat.Some? && c.lng.Some?
  }

  /** A null column counts as zero in the distance formula. */
  function PointOf(c: Coords): Point {
    Point(if c.lat.Some? then c.lat.value else 0.0, if c.lng.Some? then c.lng.value else 0.0)
  }

  function Minutes(rules: Rules, a: Point, b: Point): real {
    rules.dist(a, b) / SPEED_KM_PER_MIN
  }

  /** Where a courier stands after leaving `start` and serving every stop that has coordinates. */
  function RouteEnd(start: Point, stops: seq<OrderInfo>): Point {
    if stops == [] then start
    else if HasPoint(stops[|stops| - 1].customer) then PointOf(stops[|stops| - 1].customer)
    else RouteEnd(start, stops[..|stops| - 1])
  }

  function RouteMinutes(rules: Rules, start: Point, stops: seq<OrderInfo>): real {
    if stops == [] then 0.0
    else
      var before := stops[..|stops| - 1];
      var last := stops[|stops| - 1].customer;
      if HasPoint(last)
      then RouteMinutes(rules, start, before) + Minutes(rules, RouteEnd(start, before), PointOf(last))
      else RouteMinutes(rules, start, before)
  }

  /** Extra minutes for `order` when it is served after all of `stops` instead of directly. */
  function Delay(rules: Rules, order: OrderInfo, stops: seq<OrderInfo>): real {
    if !HasPoint(order.vendor) || !HasPoint(order.customer) then 0.0
    else
      var vendor, customer := PointOf(order.vendor), PointOf(order.customer);
      RouteMinutes(rules, vendor, stops) + Minutes(rules, RouteEnd(vendor, stops), customer)
      - Minutes(rules, vendor, customer)
  }

  /** Kilometres from `from` past every stop that has coordinates, in order, to `to`. */
  function Tour(dist: Metric, from: Point, stops: seq<OrderInfo>, to: Point): real
    decreases |stops|
  {
    if stops == [] then dist(from, to)
    else
      match stops[0].customer
      case Coords(Some(lat), Some(lng)) => dist(from, Point(lat, lng)) + Tour(dist, Point(lat, lng), stops[1..], to)
      case _ => Tour(dist, from, stops[1..], to)
  }

  lemma {:induction false} TourToLast(dist: Metric, from: Point, before: seq<OrderInfo>, last: OrderInfo, to: Point)
    ensures Tour(dist, from, before + [last], to) ==
      match last.customer
      case Coords(Some(lat), Some(lng)) => Tour(dist, from, before, Point(lat, lng)) + dist(Point(lat, lng), to)
      case _ => Tour(dist, from, before, to)
    decreases |before|
  {
    if before == [] {
      assert [] + [last] == [last] && [last][1..] == [];
    } else {
      assert (before + [last])[1..] == before[1..] + [last];
      match before[0].customer {
        case Coords(Some(lat), Some(lng)) => TourToLast(dist, Point(lat, lng), before[1..], last, to);
        case _ => TourToLast(dist, from, before[1..], last, to);
      }
    }
  }

  /** At 30 km per hour a kilometre takes two minutes. */
  lemma {:induction false} TourTakes(rules: Rules, start: Point, stops: seq<OrderInfo>, to: Point)
    ensures RouteMinutes(rules, start, stops) + Minutes(rules, RouteEnd(start, stops), to)
      == 2.0 * Tour(rules.dist, start, stops, to)
    decreases |stops|
  {
    if stops != [] {
      var before, last := stops[..|stops| - 1], stops[|stops| - 1];
      assert before + [last] == stops;
      TourToLast(rules.dist, start, before, last, to);
      match last.customer {
        case Coords(Some(lat), Some(lng)) => TourTakes(rules, start, before, Point(lat, lng));
        case _ => TourTakes(rules, start, before, to);
      }
    }
  }

  /** The detour in kilometres; without both ends of the trip there is none. */
  function DetourKm(dist: Metric, vendor: Coords, customer: Coords, stops: seq<OrderInfo>): real {
    match (vendor, customer)
    case (Coords(Some(a), Some(b)), Coords(Some(x), Some(y))) =>
      Tour(dist, Point(a, b), stops, Point(x, y)) - dist(Point(a, b), Point(x, y))
    case _ => 0.0
  }

  /** The estimated delay is the time that the kilometres of the detour take at 30 km per hour. */
  lemma DelayInKm(rules: Rules, order: OrderInfo, stops: seq<OrderInfo>)
    ensures 30.0 * Delay(rules, order, stops) == 60.0 * DetourKm(rules.dist, order.vendor, order.customer, stops)
  {
    if HasPoint(order.vendor) && HasPoint(order.customer) {
      TourTakes(rules, PointOf(order.vendor), stops, PointOf(order.customer));
    }
  }

  /** With one order served before, in full. */
  lemma DelayPastOne(rules: Rules, order: OrderInfo, first: OrderInfo, v: Point, x: Point, c: Point)
    requires order.vendor == Coords(Some(v.lat), Some(v.lng)) && order.customer == Coords(Some(c.lat), Some(c.lng))
    requires first.customer == Coords(Some(x.lat), Some(x.lng))
    ensures Delay(rules, order, [first]) == 2.0 * (rules.dist(v, x) + rules.dist(x, c) - rules.dist(v, c))
  {
    DelayInKm(rules, order, [first]);
    assert [first][1..] == [];
    assert Tour(rules.dist, x, [], c) == rules.dist(x, c);
  }

  method EstimateDelay(rules: Rules, order: OrderInfo, stops: seq<OrderInfo>) returns (delay: real)
    ensures delay == Delay(rules, order, stops)
    ensures 30.0 * delay == 60.0 * DetourKm(rules.dist, order.vendor, order.customer, stops)
  {
    DelayInKm(rules, order, stops);
    if !HasPoint(order.vendor) || !HasPoint(order.customer) {
      return 0.0;
    }
    var vendor, customer := PointOf(order.vendor), PointOf(order.customer);
    var soloTime := rules.dist(vendor, customer) / SPEED_KM_PER_MIN;
    var routeTime := 0.0;
    var currentPoint := vendor;
    for i := 0 to |stops|
      invariant routeTime == RouteMinutes(rules, vendor, stops[..i])
      invariant currentPoint == RouteEnd(vendor, stops[..i])
    {
      assert stops[..i + 1][..i] == stops[..i];
      if !HasPoint(stops[i].customer) {
        continue;
      }
      var stopPoint := PointOf(stops[i].customer);
      routeTime := routeTime + rules.dist(currentPoint, stopPoint) / SPEED_KM_PER_MIN;
      currentPoint := stopPoint;
    }
    assert stops[..|stops|] == stops;
    routeTime := routeTime + rules.dist(currentPoint, customer) / SPEED_KM_PER_MIN;
    delay := routeTime - soloTime;
  }

  function MaxSize(orderType: OrderType): nat {
    if orderType == Food then FOOD_MAX_BATCH else GROCERY_MAX_BATCH
  }

  predicate Eligible(rules: Rules, order: OrderInfo, members: seq<OrderInfo>) {
    if members == [] then true
    else if !rules.multiVendor && exists i :: 0 <= i < |members| && members[i].vendorId != order.vendorId then false
    else if |members| >= MaxSize(order.orderType) then false
    else if rules.dist(PointOf(order.vendor), PointOf(members[0].vendor)) * 1000.0 > rules.maxVendorDist then false
    else Delay(rules, order, members) <= rules.maxDelay
  }

  predicate HasFood(members: seq<OrderInfo>) {
    exists i :: 0 <= i < |members| && members[i].orderType == Food
  }

  /** `now` and `createdAt` are in milliseconds. */
  predicate ShouldClose(rules: Rules, now: int, createdAt: int, members: seq<OrderInfo>) {
    now - createdAt >= rules.windowMin * MS_PER_MIN
    || |members| >= (if HasFood(members) then FOOD_MAX_BATCH else GROCERY_MAX_BATCH)
  }

  /** Serving one more stop first never makes the detour shorter. */
  lemma DelayGrows(rules: Rules, order: OrderInfo, stops: seq<OrderInfo>, next: OrderInfo)
    requires Triangle(rules.dist)
    ensures Delay(rules, order, stops) <= Delay(rules, order, stops + [next])
  {
    assert (stops + [next])[..|stops|] == stops;
    if HasPoint(order.vendor) && HasPoint(order.customer) && HasPoint(next.customer) {
      var at := RouteEnd(PointOf(order.vendor), stops);
      var via, customer := PointOf(next.customer), PointOf(order.customer);
      assert rules.dist(at, customer) <= rules.dist(at, via) + rules.dist(via, customer);
    }
  }

  /** A batch that refuses an order keeps refusing it however many orders join later. */
  lemma {:induction false} RefusalIsPermanent(
    rules: Rules, order: OrderInfo, members: seq<OrderInfo>, joined: seq<OrderInfo>)
    requires Triangle(rules.dist)
    requires !Eligible(rules, order, members)
    ensures !Eligible(rules, order, members + joined)
    decreases |joined|
  {
    if joined == [] {
      assert members + joined == members;
    } else {
      var next := joined[0];
      var bigger := members + [next];
      DelayGrows(rules, order, members, next);
      assert forall i :: 0 <= i < |members| ==> bigger[i] == members[i];
      RefusalIsPermanent(rules, order, bigger, joined[1..]);
      assert bigger + joined[1..] == members + joined;
    }
  }

  /** The estimated delay is never negative. */
  lemma {:induction false} DelayIsNonNegative(rules: Rules, order: OrderInfo, stops: seq<OrderInfo>)
    requires Triangle(rules.dist)
    ensures Delay(rules, order, stops) >= 0.0
  {
    if stops != [] {
      var before := stops[..|stops| - 1];
      DelayIsNonNegative(rules, order, before);
      DelayGrows(rules, order, before, stops[|stops| - 1]);
      assert before + [stops[|stops| - 1]] == stops;
    }
  }
}
