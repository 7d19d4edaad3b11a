/**
 Deliverer positions: a cache with expiry in front of the profile's coordinates, and the choice of the
 nearest deliverer by the freshest position known.
 */
module Locations {
  import opened Types
  import opened Batching

  /** `TTL_SECONDS`, in milliseconds. */
  const CACHE_MS := 30000

  datatype Cached = Cached(at: Point, expiresAt: int)

  /** A deliverer as the availability query returned it, with the coordinates its row had then. */
  datatype Candidate = Candidate(id: Id, coords: Coords)

  // ---------------------------------------------------------------- the freshest position

  predicate CacheLive(cache: map<Id, Cached>, now: int, id: Id) {
    id in cache && now < cache[id].expiresAt
  }

  function RowPosition(rows: map<Id, Coords>, id: Id): Option<Point> {
    if id in rows && HasPoint(rows[id]) then Some(PointOf(rows[id])) else None
  }

  /** Cache first, then the row. */
  function Freshest(cache: map<Id, Cached>, rows: map<Id, Coords>, now: int, id: Id): Option<Point> {
    if CacheLive(cache, now, id) then Some(cache[id].at) else RowPosition(rows, id)
  }

  function CoordsAt(p: Point): Coords {
    Coords(Some(p.lat), Some(p.lng))
  }

  /** A cached position is the one for thirty seconds; then, or without one, it is the row's, if that is complete. */
  lemma CacheLastsHalfAMinute(rows: map<Id, Coords>, id: Id, p: Point, at: int, now: int)
    ensures var cache := map[id := Cached(p, at + CACHE_MS)];
      && (now < at + 30000 ==> Freshest(cache, rows, now, id) == Some(p))
      && (now >= at + 30000 ==>
            Freshest(cache, rows, now, id) ==
              if id !in rows then None
              else match rows[id] case Coords(Some(lat), Some(lng)) => Some(Point(lat, lng)) case _ => None)
  {
  }

  // ---------------------------------------------------------------- the nearest

  predicate Located(d: Candidate) {
    HasPoint(d.coords)
  }

  function DistanceTo(dist: Metric, pickup: Point, d: Candidate): real {
    dist(pickup, PointOf(d.coords))
  }

  /** `k` is the first of `ds` at minimal distance among those with a position. */
  ghost predicate IsClosest(ds: seq<Candidate>, dist: Metric, pickup: Point, k: nat) {
    && k < |ds| && Located(ds[k])
    && (forall j :: 0 <= j < |ds| && Located(ds[j]) ==>
          DistanceTo(dist, pickup, ds[k]) <= DistanceTo(dist, pickup, ds[j]))
    && (forall j :: 0 <= j < k && Located(ds[j]) ==>
          DistanceTo(dist, pickup, ds[k]) < DistanceTo(dist, pickup, ds[j]))
  }

  lemma ClosestIsUnique(ds: seq<Candidate>, dist: Metric, pickup: Point, j: nat, k: nat)
    requires IsClosest(ds, dist, pickup, j) && IsClosest(ds, dist, pickup, k)
    ensures j == k
  {
    assert DistanceTo(dist, pickup, ds[j]) == DistanceTo(dist, pickup, ds[k]);
  }

  /** The loop of findClosestDeliverer; no minimum yet stands for its initial Infinity. */
  method FindClosest(ds: seq<Candidate>, dist: Metric, pickup: Point) returns (closest: Option<nat>)
    ensures closest.None? <==> forall j :: 0 <= j < |ds| ==> !Located(ds[j])
    ensures closest.Some? ==> IsClosest(ds, dist, pickup, closest.value)
    ensures closest.Some? ==>
      && closest.value < |ds|
      && forall j, lat, lng, x, y ::
           0 <= j < |ds| && ds[j].coords == Coords(Some(lat), Some(lng))
           && ds[closest.value].coords == Coords(Some(x), Some(y)) ==>
             dist(pickup, Point(x, y)) <= dist(pickup, Point(lat, lng))
  {
    closest := None;
    var minDistance := 0.0;
    for i := 0 to |ds|
      invariant closest.None? <==> forall j :: 0 <= j < i ==> !Located(ds[j])
      invariant closest.Some? ==>
        closest.value < i && IsClosest(ds[..i], dist, pickup, closest.value)
        && minDistance == DistanceTo(dist, pickup, ds[closest.value])
    {
      assert ds[..i + 1] == ds[..i] + [ds[i]];
      if !Located(ds[i]) {
        continue;
      }
      var d := DistanceTo(dist, pickup, ds[i]);
      if closest.None? || d < minDistance {
        minDistance := d;
        closest := Some(i);
      }
    }
    assert ds[..|ds|] == ds;
  }

  /** The candidate with the freshest position in place of its own coordinates, where there is one. */
  function Refreshed(cache: map<Id, Cached>, rows: map<Id, Coords>, now: int, d: Candidate): Candidate {
    var latest := Freshest(cache, rows, now, d.id);
    if latest.Some? then d.(coords := CoordsAt(latest.value)) else d
  }

  function AllRefreshed(
    cache: map<Id, Cached>, rows: map<Id, Coords>, now: int, ds: seq<Candidate>): (r: seq<Candidate>)
    ensures |r| == |ds|
  {
    seq(|ds|, i requires 0 <= i < |ds| => Refreshed(cache, rows, now, ds[i]))
  }

  // ---------------------------------------------------------------- the service

  class DelivererLocationService {
    var now: int
    var cache: map<Id, Cached>
    var rows: map<Id, Coords>

    constructor (rows: map<Id, Coords>)
      ensures cache == map[] && this.rows == rows
    {
      now, cache, this.rows := 0, map[], rows;
    }

    function Position(id: Id): Option<Point>
      reads this
    {
      Freshest(cache, rows, now, id)
    }

    method Update(id: Id, p: Point)
      modifies this`cache
      ensures cache == old(cache)[id := Cached(p, now + CACHE_MS)]
      ensures Position(id) == Some(p)
      ensures forall k: Id :: k != id ==> Position(k) == old(Position(k))
    {
      cache := cache[id := Cached(p, now + CACHE_MS)];
    }

    method CacheGet(id: Id) returns (p: Option<Point>)
      ensures p == if CacheLive(cache, now, id) then Some(cache[id].at) else None
    {
      p := if id in cache && now < cache[id].expiresAt then Some(cache[id].at) else None;
    }

    method Get(id: Id) returns (p: Option<Point>)
      ensures p == Position(id)
    {
      p := CacheGet(id);
      if p.None? && id in rows && HasPoint(rows[id]) {
        p := Some(PointOf(rows[id]));
      }
    }

    /** `findMany` over a list of ids: each matching row once, in any order. */
    method FindMany(ids: seq<Id>) returns (found: seq<Candidate>)
      ensures forall i :: 0 <= i < |found| ==>
        found[i].id in ids && found[i].id in rows && found[i].coords == rows[found[i].id]
      ensures forall i, j :: 0 <= i < j < |found| ==> found[i].id != found[j].id
      ensures forall id :: id in ids && id in rows ==> Candidate(id, rows[id]) in found
    {
      found := [];
      var left := set id | id in ids && id in rows;
      while left != {}
        invariant left <= set id | id in ids && id in rows
        invariant forall i :: 0 <= i < |found| ==> found[i].id !in left
        invariant forall i :: 0 <= i < |found| ==>
          found[i].id in ids && found[i].id in rows && found[i].coords == rows[found[i].id]
        invariant forall i, j :: 0 <= i < j < |found| ==> found[i].id != found[j].id
        invariant forall id :: id in ids && id in rows && id !in left ==> Candidate(id, rows[id]) in found
      {
        var id :| id in left;
        left := left - {id};
        found := found + [Candidate(id, rows[id])];
      }
    }

    /** For every id asked for, however often, exactly what a single `Get` answers, and nothing else. */
    method GetMany(ids: seq<Id>) returns (result: map<Id, Point>)
      ensures forall id :: id in result <==> id in ids && Position(id).Some?
      ensures forall id :: id in result ==> Position(id) == Some(result[id])
    {
      result := map[];
      var missing: seq<Id> := [];
      for i := 0 to |ids|
        invariant forall id :: id in result <==> id in ids[..i] && CacheLive(cache, now, id)
        invariant forall id :: id in result ==> result[id] == cache[id].at
        invariant forall id :: id in missing <==> id in ids[..i] && !CacheLive(cache, now, id)
      {
        assert ids[..i + 1] == ids[..i] + [ids[i]];
        var cached := CacheGet(ids[i]);
        if cached.Some? {
          result := result[ids[i] := cached.value];
        } else {
          missing := missing + [ids[i]];
        }
      }
      assert ids[..|ids|] == ids;
      if |missing| > 0 {
        var found := FindMany(missing);
        ghost var cached := result;
        for i := 0 to |found|
          invariant forall id :: id in result <==>
            id in cached || exists j :: 0 <= j < i && found[j].id == id && HasPoint(found[j].coords)
          invariant forall id :: id in cached ==> id in result && result[id] == cached[id]
          invariant forall j :: 0 <= j < i && HasPoint(found[j].coords) ==>
            found[j].id in result && result[found[j].id] == PointOf(found[j].coords)
        {
          if HasPoint(found[i].coords) {
            result := result[found[i].id := PointOf(found[i].coords)];
          }
        }
        forall id ensures id in result <==> id in ids && Position(id).Some? {
          if id in missing && id in rows {
            assert Candidate(id, rows[id]) in found;
          }
        }
      }
    }

    /** Copies a live cached position to the row; the update fails when there is no row. */
    method FlushToDb(id: Id) returns (ok: bool)
      modifies this`rows
      ensures ok <==> !CacheLive(cache, now, id) || id in old(rows)
      ensures rows.Keys == old(rows).Keys
      ensures forall k: Id :: k in rows ==>
        rows[k] == if k == id && CacheLive(cache, now, k) then CoordsAt(cache[k].at) else old(rows)[k]
      ensures forall k: Id :: Position(k) == old(Position(k))
    {
      ok := true;
      var p := CacheGet(id);
      if p.Some? {
        if id in rows {
          rows := rows[id := CoordsAt(p.value)];
        } else {
          ok := false;
        }
      }
    }

    /**
     updateProfile: a coordinate that is not given is written back as it was read, some time before. Where
     the cache is live nobody moves.
     */
    method UpdateProfile(id: Id, lat: Option<real>, lng: Option<real>, read: Coords)
      modifies this`rows
      ensures rows.Keys == old(rows).Keys
      ensures forall k: Id :: k in rows && k != id ==> rows[k] == old(rows)[k]
      ensures id in rows ==>
          rows[id] == Coords(if lat.Some? then lat else read.lat, if lng.Some? then lng else read.lng)
      ensures forall k: Id :: k != id || CacheLive(cache, now, k) ==> Position(k) == old(Position(k))
    {
      if id in rows {
        rows := rows[id := Coords(if lat.Some? then lat else read.lat, if lng.Some? then lng else read.lng)];
      }
    }

    /** Flushes every key found in the cache, in any order, skipping failures. */
    method FlushAll()
      modifies this`rows
      ensures rows == Flushed(cache, old(rows), now)
    {
      var keys := cache.Keys;
      ghost var before := rows;
      while keys != {}
        invariant keys <= cache.Keys && rows.Keys == before.Keys
        invariant forall k :: k in rows ==>
          rows[k] == if k !in keys && CacheLive(cache, now, k) then CoordsAt(cache[k].at) else before[k]
      {
        var k :| k in keys;
        keys := keys - {k};
        var _ := FlushToDb(k);
      }
      assert rows == Flushed(cache, before, now);
    }

    /**
     The whole choice: the first nearest by the freshest position, or the list's head when nobody has
     one.
     */
    method Choose(available: seq<Candidate>, dist: Metric, pickup: Point) returns (chosen: nat)
      requires |available| > 0
      ensures chosen < |available|
      ensures var refreshed := AllRefreshed(cache, rows, now, available);
        forall i :: 0 <= i < |available| ==>
          && refreshed[i].id == available[i].id
          && refreshed[i].coords ==
            match Position(available[i].id)
            case Some(p) => Coords(Some(p.lat), Some(p.lng))
            case None => available[i].coords
      ensures var refreshed := AllRefreshed(cache, rows, now, available);
        if exists j :: 0 <= j < |refreshed| && Located(refreshed[j])
        then IsClosest(refreshed, dist, pickup, chosen)
        else chosen == 0
    {
      var ids := seq(|available|, i requires 0 <= i < |available| => available[i].id);
      var latest := GetMany(ids);
      var withLocation := [];
      for i := 0 to |available|
        invariant |withLocation| == i
        invariant forall j :: 0 <= j < i ==> withLocation[j] == Refreshed(cache, rows, now, available[j])
      {
        var d := available[i];
        assert ids[i] == d.id;
        if d.id in latest {
          d := d.(coords := CoordsAt(latest[d.id]));
        }
        withLocation := withLocation + [d];
      }
      assert withLocation == AllRefreshed(cache, rows, now, available);
      var closest := FindClosest(withLocation, dist, pickup);
      chosen := if closest.Some? then closest.value else 0;
    }
  }

  // ---------------------------------------------------------------- cache and rows

  /** The rows after a flush. */
  function Flushed(cache: map<Id, Cached>, rows: map<Id, Coords>, now: int): map<Id, Coords> {
    map k | k in rows :: if CacheLive(cache, now, k) then CoordsAt(cache[k].at) else rows[k]
  }

  /**
   A flush loses nothing: until the next update every deliverer with a profile stays where it was, even
   after the cache has expired. A cached position without a profile lasts only as long as the cache.
   */
  lemma FlushOutlivesCache(cache: map<Id, Cached>, rows: map<Id, Coords>, now: int, later: int, id: Id)
    requires now <= later
    ensures id in rows ==>
      Freshest(cache, Flushed(cache, rows, now), later, id) == Freshest(cache, rows, now, id)
    ensures id !in rows ==>
      Freshest(cache, Flushed(cache, rows, now), later, id)
        == if CacheLive(cache, later, id) then Freshest(cache, rows, now, id) else None
  {
    var rows' := Flushed(cache, rows, now);
    assert id in rows' <==> id in rows;
    if CacheLive(cache, now, id) && id in rows {
      assert PointOf(rows'[id]) == cache[id].at;
    }
  }
}
