/**
 The Redis rate limiter. One `increment` is a series of separate commands, so concurrent calls interleave
 between them; EXPIRE follows only the INCR that answered 1, and may be lost with the process that owed it.
 */
module Throttler {
  import opened Types

  /** Durations in milliseconds, as the caller passes them. */
  datatype Limits = Limits(ttl: int, limit: nat, blockDuration: int)

  datatype Counter = Counter(value: nat, expiresAt: Option<int>)
  datatype Block = Block(until: int, expiresAt: int)

  datatype Record = Record(totalHits: nat, timeToExpire: int, isBlocked: bool, timeToBlockExpire: int)

  /** Where one call is: the next command it sends, and the INCR it made (an index into the history). */
  datatype Phase =
    | Refusing
    | Counting
    | Expiring(hit: nat)
    | Timing(hit: nat)
    | Deciding(hit: nat, timeToExpire: int)
    | Counted(hit: nat, record: Record)
    | Refused(record: Record)
    | Lost

  /** History of one INCR: when it ran, in which lifetime of the key, and what it answered. */
  datatype Incr = Incr(at: int, life: nat, value: nat)

  /** Redis, the calls in flight or done, and the history: every INCR, and when each lifetime began. */
  datatype System = System(
    now: int, hits: Option<Counter>, block: Option<Block>, calls: map<Id, Phase>, incrs: seq<Incr>, lives: seq<int>)

  datatype Action =
    | Tick(millis: nat)
    | Exists(call: Id)
    | GetBlock(call: Id)
    | IncrHits(call: Id)
    | Expire(call: Id)
    | Ttl(call: Id)
    | Finish(call: Id)
    | Crash(call: Id)

  const QUIET: System := System(0, None, None, map[], [], [])

  // ---------------------------------------------------------------- commands

  /** `Math.ceil(ms / 1000)`. */
  function Seconds(ms: int): (s: int)
    ensures 1000 * s >= ms > 1000 * (s - 1)
  {
    -((-ms) / 1000)
  }

  /** In whole seconds, rounded up. */
  function Window(l: Limits): (w: int)
    ensures w % 1000 == 0 && l.ttl <= w < l.ttl + 1000
  {
    1000 * Seconds(l.ttl)
  }

  predicate HitsLive(s: System) {
    s.hits.Some? && (s.hits.value.expiresAt.None? || s.now < s.hits.value.expiresAt.value)
  }

  predicate BlockLive(s: System) {
    s.block.Some? && s.now < s.block.value.expiresAt
  }

  /** INCR creates an absent key without an expiry and otherwise keeps the expiry it has. */
  function AfterIncr(s: System): Counter {
    if HitsLive(s) then s.hits.value.(value := s.hits.value.value + 1) else Counter(1, None)
  }

  /** The TTL reply, rounded to the nearest second: -2 for no key, -1 for no expiry. */
  function TtlReply(s: System): int {
    if !HitsLive(s) then -2
    else if s.hits.value.expiresAt.None? then -1
    else (s.hits.value.expiresAt.value - s.now + 500) / 1000
  }

  function TimeToExpire(l: Limits, s: System): int {
    if TtlReply(s) > 0 then TtlReply(s) else Seconds(l.ttl)
  }

  /** A call that found the block key reads it, and copes with its having expired in between. */
  function RefusedRecord(l: Limits, s: System): Record {
    Record(l.limit + 1, 0, true,
      if BlockLive(s) then Seconds(s.block.value.until - s.now) else Seconds(l.blockDuration))
  }

  predicate MustBlock(l: Limits, value: nat) {
    value > l.limit && l.blockDuration > 0
  }

  function CountedRecord(l: Limits, value: nat, timeToExpire: int): Record {
    if MustBlock(l, value) then Record(value, timeToExpire, true, Seconds(l.blockDuration))
    else Record(value, timeToExpire, false, 0)
  }

  function NewBlock(l: Limits, now: int): Block {
    Block(now + l.blockDuration, now + 1000 * Seconds(l.blockDuration))
  }

  // ---------------------------------------------------------------- interleavings

  predicate In(s: System, call: Id, phase: Phase) {
    call in s.calls && s.calls[call] == phase
  }

  function Move(s: System, call: Id, phase: Phase): System {
    s.(calls := s.calls[call := phase])
  }

  function DoIncr(s: System, call: Id): System {
    var counter := AfterIncr(s);
    var lives := if HitsLive(s) && |s.lives| > 0 then s.lives else s.lives + [s.now];
    var hit := |s.incrs|;
    s.(hits := Some(counter), lives := lives,
       incrs := s.incrs + [Incr(s.now, |lives| - 1, counter.value)],
       calls := s.calls[call := if counter.value == 1 then Expiring(hit) else Timing(hit)])
  }

  function DoExpire(l: Limits, s: System, call: Id, hit: nat): System {
    var next := Move(s, call, Timing(hit));
    if HitsLive(s) then next.(hits := Some(s.hits.value.(expiresAt := Some(s.now + Window(l))))) else next
  }

  function DoFinish(l: Limits, s: System, call: Id, hit: nat, timeToExpire: int): System {
    if hit >= |s.incrs| then s
    else
      var value := s.incrs[hit].value;
      var next := Move(s, call, Counted(hit, CountedRecord(l, value, timeToExpire)));
      if MustBlock(l, value) then next.(block := Some(NewBlock(l, s.now))) else next
  }

  /** One command of one call; an action its call is not ready for does nothing. */
  function Exec(l: Limits, s: System, a: Action): System {
    match a
    case Tick(millis) => s.(now := s.now + millis)
    case Exists(c) =>
      if c in s.calls then s else Move(s, c, if BlockLive(s) then Refusing else Counting)
    case GetBlock(c) =>
      if In(s, c, Refusing) then Move(s, c, Refused(RefusedRecord(l, s))) else s
    case IncrHits(c) =>
      if In(s, c, Counting) then DoIncr(s, c) else s
    case Expire(c) =>
      if c in s.calls && s.calls[c].Expiring? then DoExpire(l, s, c, s.calls[c].hit) else s
    case Ttl(c) =>
      if c in s.calls && s.calls[c].Timing?
      then Move(s, c, Deciding(s.calls[c].hit, TimeToExpire(l, s))) else s
    case Finish(c) =>
      if c in s.calls && s.calls[c].Deciding?
      then DoFinish(l, s, c, s.calls[c].hit, s.calls[c].timeToExpire) else s
    case Crash(c) =>
      if c in s.calls && !s.calls[c].Counted? && !s.calls[c].Refused? then Move(s, c, Lost) else s
  }

  function Run(l: Limits, s: System, actions: seq<Action>): System
    decreases |actions|
  {
    if actions == [] then s else Exec(l, Run(l, s, actions[..|actions| - 1]), actions[|actions| - 1])
  }

  // ---------------------------------------------------------------- invariant

  predicate HasHit(p: Phase) {
    p.Expiring? || p.Timing? || p.Deciding? || p.Counted?
  }

  predicate Unblocked(p: Phase) {
    p.Counted? && !p.record.isBlocked
  }

  /** Lifetimes are at least a window apart: the next begins only after an EXPIRE of this one ran out. */
  ghost predicate LivesApart(l: Limits, lives: seq<int>, now: int) {
    && (forall i :: 0 <= i < |lives| ==> lives[i] <= now)
    && (forall i, j :: 0 <= i < j < |lives| ==> lives[i] <= lives[j] && lives[i] + Window(l) <= lives[j])
  }

  /** Every INCR ran inside its lifetime, the first at its beginning. */
  ghost predicate InsideLives(incrs: seq<Incr>, lives: seq<int>, now: int) {
    && (forall i :: 0 <= i < |incrs| ==> incrs[i].life < |lives| && lives[incrs[i].life] <= incrs[i].at <= now)
    && (forall i, j :: 0 <= i < |incrs| && incrs[i].life < j < |lives| ==> incrs[i].at <= lives[j])
    && (forall i :: 0 <= i < |incrs| && incrs[i].value == 1 ==> incrs[i].at == lives[incrs[i].life])
  }

  /** Within one lifetime the answers strictly grow. */
  ghost predicate Growing(incrs: seq<Incr>) {
    && (forall i :: 0 <= i < |incrs| ==> 1 <= incrs[i].value)
    && (forall i, j :: 0 <= i < j < |incrs| && incrs[i].life == incrs[j].life ==> incrs[i].value < incrs[j].value)
  }

  /** The key holds the latest lifetime; with an expiry it ends a window or more after that began. */
  ghost predicate CurrentKey(l: Limits, hits: Option<Counter>, lives: seq<int>, now: int) {
    && (hits.Some? <==> lives != [])
    && (hits.Some? ==> 1 <= hits.value.value)
    && (hits.Some? && hits.value.expiresAt.Some? ==>
          lives[|lives| - 1] + Window(l) <= hits.value.expiresAt.value <= now + Window(l))
  }

  /** No INCR of the latest lifetime answered more than the key holds. */
  ghost predicate CountsAll(hits: Option<Counter>, incrs: seq<Incr>, lives: seq<int>) {
    hits.Some? ==>
      forall i :: 0 <= i < |incrs| && incrs[i].life == |lives| - 1 ==> incrs[i].value <= hits.value.value
  }

  /** Each call made its own INCR. */
  ghost predicate OwnHits(calls: map<Id, Phase>, incrs: seq<Incr>) {
    && (forall c :: c in calls && HasHit(calls[c]) ==> calls[c].hit < |incrs|)
    && (forall c, d :: c in calls && d in calls && c != d && HasHit(calls[c]) && HasHit(calls[d]) ==>
          calls[c].hit != calls[d].hit)
  }

  /** A call that still owes EXPIRE owes it to the current key, which has no expiry until then. */
  ghost predicate OwedExpiry(calls: map<Id, Phase>, incrs: seq<Incr>, lives: seq<int>, hits: Option<Counter>) {
    forall c :: c in calls && calls[c].Expiring? && calls[c].hit < |incrs| ==>
      && incrs[calls[c].hit].value == 1
      && incrs[calls[c].hit].life == |lives| - 1
      && hits.Some? && hits.value.expiresAt.None?
  }

  ghost predicate Answers(l: Limits, calls: map<Id, Phase>, incrs: seq<Incr>) {
    forall c :: c in calls && Unblocked(calls[c]) && calls[c].hit < |incrs| ==> !MustBlock(l, incrs[calls[c].hit].value)
  }

  ghost predicate Expiries(l: Limits, calls: map<Id, Phase>) {
    forall c :: c in calls ==>
      && (calls[c].Deciding? ==> 1 <= calls[c].timeToExpire <= Seconds(l.ttl))
      && (calls[c].Counted? ==> 1 <= calls[c].record.timeToExpire <= Seconds(l.ttl))
  }

  ghost predicate KeyInv(l: Limits, s: System) {
    && LivesApart(l, s.lives, s.now)
    && InsideLives(s.incrs, s.lives, s.now)
    && Growing(s.incrs)
    && CurrentKey(l, s.hits, s.lives, s.now)
    && CountsAll(s.hits, s.incrs, s.lives)
  }

  ghost predicate CallInv(l: Limits, s: System) {
    && OwnHits(s.calls, s.incrs)
    && OwedExpiry(s.calls, s.incrs, s.lives, s.hits)
    && Answers(l, s.calls, s.incrs)
    && (Seconds(l.ttl) >= 1 ==> Expiries(l, s.calls))
  }

  ghost predicate Inv(l: Limits, s: System) {
    KeyInv(l, s) && CallInv(l, s)
  }

  // INCR on the key.

  lemma IncrLives(l: Limits, s: System, c: Id)
    requires LivesApart(l, s.lives, s.now) && CurrentKey(l, s.hits, s.lives, s.now)
    ensures LivesApart(l, DoIncr(s, c).lives, s.now) && CurrentKey(l, DoIncr(s, c).hits, DoIncr(s, c).lives, s.now)
  {
    hide Seconds, Window;
  }

  lemma IncrInside(l: Limits, s: System, c: Id)
    requires KeyInv(l, s)
    ensures InsideLives(DoIncr(s, c).incrs, DoIncr(s, c).lives, s.now)
  {
    hide Seconds, Window, Growing, CountsAll;
    var s' := DoIncr(s, c);
    forall i | 0 <= i < |s'.incrs| ensures
        && s'.incrs[i].life < |s'.lives| && s'.lives[s'.incrs[i].life] <= s'.incrs[i].at <= s'.now
        && (s'.incrs[i].value == 1 ==> s'.incrs[i].at == s'.lives[s'.incrs[i].life])
    {
    }
  }

  lemma IncrGrows(l: Limits, s: System, c: Id)
    requires KeyInv(l, s)
    ensures Growing(DoIncr(s, c).incrs) && CountsAll(DoIncr(s, c).hits, DoIncr(s, c).incrs, DoIncr(s, c).lives)
  {
    hide Seconds, Window, LivesApart;
  }

  // One call moving on.

  lemma MoveKeepsHits(calls: map<Id, Phase>, incrs: seq<Incr>, c: Id, phase: Phase)
    requires OwnHits(calls, incrs) && c in calls
    requires HasHit(phase) ==> HasHit(calls[c]) && phase.hit == calls[c].hit
    ensures OwnHits(calls[c := phase], incrs)
  {
  }

  lemma IncrKeepsInv(l: Limits, s: System, c: Id)
    requires Inv(l, s) && In(s, c, Counting)
    ensures Inv(l, DoIncr(s, c))
  {
    IncrLives(l, s, c);
    IncrInside(l, s, c);
    IncrGrows(l, s, c);
    IncrKeepsCalls(l, s, c);
  }

  lemma IncrKeepsCalls(l: Limits, s: System, c: Id)
    requires KeyInv(l, s) && CallInv(l, s) && In(s, c, Counting)
    ensures CallInv(l, DoIncr(s, c))
  {
    hide Seconds, Window, LivesApart, InsideLives, Growing, CountsAll;
    var s' := DoIncr(s, c);
    assert OwnHits(s'.calls, s'.incrs);
    assert OwedExpiry(s'.calls, s'.incrs, s'.lives, s'.hits);
    assert Answers(l, s'.calls, s'.incrs);
    assert Seconds(l.ttl) >= 1 ==> Expiries(l, s'.calls);
  }

  lemma ExpireKeepsInv(l: Limits, s: System, c: Id)
    requires Inv(l, s) && c in s.calls && s.calls[c].Expiring?
    ensures Inv(l, DoExpire(l, s, c, s.calls[c].hit))
  {
    hide Seconds, Window, InsideLives;
    var s' := DoExpire(l, s, c, s.calls[c].hit);
    MoveKeepsHits(s.calls, s.incrs, c, Timing(s.calls[c].hit));
    OnlyOneOwes(l, s, c);
    assert KeyInv(l, s');
    assert OwedExpiry(s'.calls, s'.incrs, s'.lives, s'.hits);
  }

  lemma SameAnswer(incrs: seq<Incr>, i: nat, j: nat)
    requires Growing(incrs) && i < |incrs| && j < |incrs|
    requires incrs[i].life == incrs[j].life && incrs[i].value == incrs[j].value
    ensures i == j
  {
  }

  lemma OnlyOneOwes(l: Limits, s: System, c: Id)
    requires Growing(s.incrs) && OwnHits(s.calls, s.incrs) && OwedExpiry(s.calls, s.incrs, s.lives, s.hits)
    requires c in s.calls && s.calls[c].Expiring?
    ensures forall d :: d in s.calls && s.calls[d].Expiring? ==> d == c
  {
    forall d | d in s.calls && s.calls[d].Expiring? ensures d == c {
      SameAnswer(s.incrs, s.calls[c].hit, s.calls[d].hit);
    }
  }

  lemma FinishKeepsInv(l: Limits, s: System, c: Id)
    requires Inv(l, s) && c in s.calls && s.calls[c].Deciding?
    ensures Inv(l, DoFinish(l, s, c, s.calls[c].hit, s.calls[c].timeToExpire))
  {
    hide Seconds, Window, NewBlock, LivesApart, InsideLives, Growing, CurrentKey, CountsAll;
    var hit := s.calls[c].hit;
    var phase := Counted(hit, CountedRecord(l, s.incrs[hit].value, s.calls[c].timeToExpire));
    var s' := DoFinish(l, s, c, hit, s.calls[c].timeToExpire);
    MoveKeepsHits(s.calls, s.incrs, c, phase);
    assert s'.calls == s.calls[c := phase];
    assert OwedExpiry(s'.calls, s'.incrs, s'.lives, s'.hits);
    assert Answers(l, s'.calls, s'.incrs);
  }

  lemma TtlInWindow(l: Limits, s: System)
    requires CurrentKey(l, s.hits, s.lives, s.now) && Seconds(l.ttl) >= 1
    ensures 1 <= TimeToExpire(l, s) <= Seconds(l.ttl)
  {
  }

  lemma TtlKeepsInv(l: Limits, s: System, c: Id)
    requires Inv(l, s) && c in s.calls && s.calls[c].Timing?
    ensures Inv(l, Move(s, c, Deciding(s.calls[c].hit, TimeToExpire(l, s))))
  {
    if Seconds(l.ttl) >= 1 { TtlInWindow(l, s); }
    hide Seconds, Window, LivesApart, InsideLives, Growing, CurrentKey, CountsAll, TimeToExpire;
    MoveKeepsHits(s.calls, s.incrs, c, Deciding(s.calls[c].hit, TimeToExpire(l, s)));
  }

  /** A call without an INCR moving to another phase without one. */
  lemma HitlessMoveKeepsInv(l: Limits, s: System, c: Id, phase: Phase)
    requires Inv(l, s) && !HasHit(phase)
    ensures Inv(l, Move(s, c, phase))
  {
    hide Seconds, Window, LivesApart, InsideLives, Growing, CurrentKey, CountsAll;
    assert OwnHits(Move(s, c, phase).calls, s.incrs);
  }

  lemma TickKeepsInv(l: Limits, s: System, millis: nat)
    requires Inv(l, s)
    ensures Inv(l, s.(now := s.now + millis))
  {
    hide Seconds, Window, OwnHits, OwedExpiry, Answers, Expiries;
  }

  lemma StepKeepsInv(l: Limits, s: System, a: Action)
    requires Inv(l, s)
    ensures Inv(l, Exec(l, s, a))
  {
    hide Inv, DoIncr, DoExpire, DoFinish, Seconds;
    match a
    case Tick(millis) => TickKeepsInv(l, s, millis);
    case Exists(c) => HitlessMoveKeepsInv(l, s, c, if BlockLive(s) then Refusing else Counting);
    case GetBlock(c) => HitlessMoveKeepsInv(l, s, c, Refused(RefusedRecord(l, s)));
    case IncrHits(c) => if In(s, c, Counting) { IncrKeepsInv(l, s, c); }
    case Expire(c) => if c in s.calls && s.calls[c].Expiring? { ExpireKeepsInv(l, s, c); }
    case Ttl(c) => if c in s.calls && s.calls[c].Timing? { TtlKeepsInv(l, s, c); }
    case Finish(c) => if c in s.calls && s.calls[c].Deciding? { FinishKeepsInv(l, s, c); }
    case Crash(c) => HitlessMoveKeepsInv(l, s, c, Lost);
  }

  lemma {:induction false} RunKeepsInv(l: Limits, s: System, actions: seq<Action>)
    requires Inv(l, s)
    ensures Inv(l, Run(l, s, actions))
    decreases |actions|
  {
    if actions != [] {
      RunKeepsInv(l, s, actions[..|actions| - 1]);
      StepKeepsInv(l, Run(l, s, actions[..|actions| - 1]), actions[|actions| - 1]);
    }
  }

  // ---------------------------------------------------------------- bounds

  lemma {:induction false} InjectionBound(ids: set<Id>, f: map<Id, nat>, lo: nat, hi: nat)
    requires ids <= f.Keys && lo <= hi + 1
    requires forall c :: c in ids ==> lo <= f[c] <= hi
    requires forall c, d :: c in ids && d in ids && c != d ==> f[c] != f[d]
    ensures |ids| <= hi + 1 - lo
    decreases hi + 1 - lo
  {
    if lo == hi + 1 {
      assert ids == {};
    } else if c :| c in ids && f[c] == lo {
      InjectionBound(ids - {c}, f, lo + 1, hi);
    } else {
      InjectionBound(ids, f, lo + 1, hi);
    }
  }

  predicate UnblockedHit(s: System, c: Id) {
    c in s.calls && Unblocked(s.calls[c]) && s.calls[c].hit < |s.incrs|
  }

  function HitOf(s: System, c: Id): Incr
    requires UnblockedHit(s, c)
  {
    s.incrs[s.calls[c].hit]
  }

  /** The calls that came back unblocked with an INCR in this lifetime of the hits key. */
  function UnblockedInLife(s: System, life: nat): set<Id> {
    set c | c in s.calls && UnblockedHit(s, c) && HitOf(s, c).life == life
  }

  /** The calls that came back unblocked with an INCR in `[from, from + Window)`. */
  function UnblockedInWindow(l: Limits, s: System, from: int): set<Id> {
    set c | c in s.calls && UnblockedHit(s, c) && from <= HitOf(s, c).at < from + Window(l)
  }

  lemma HitsDiffer(l: Limits, s: System, ids: set<Id>, life: nat, lo: nat)
    requires Inv(l, s) && l.blockDuration > 0 && lo <= l.limit + 1
    requires forall c :: c in ids ==> UnblockedHit(s, c) && HitOf(s, c).life == life && lo <= HitOf(s, c).value
    ensures |ids| <= l.limit + 1 - lo
  {
    hide Window, Seconds, InsideLives, LivesApart, CurrentKey, CountsAll, OwedExpiry, Expiries;
    var f := map c | c in ids :: HitOf(s, c).value;
    forall c, d | c in ids && d in ids && c != d ensures f[c] != f[d] {
      assert s.calls[c].hit != s.calls[d].hit;
    }
    InjectionBound(ids, f, lo, l.limit);
  }

  lemma {:induction false} UnionBound(a: set<Id>, b: set<Id>)
    ensures |a + b| <= |a| + |b|
  {
    assert a + b == a + (b - a);
    assert |b - a| <= |b| by {
      assert b == (b - a) + (b * a);
    }
  }

  lemma ValuesArePositive(l: Limits, s: System)
    requires Inv(l, s)
    ensures forall c :: UnblockedHit(s, c) ==> 1 <= HitOf(s, c).value
  {
    assert Growing(s.incrs);
  }

  lemma ReachedHolds(l: Limits, actions: seq<Action>)
    ensures Inv(l, Run(l, QUIET, actions))
  {
    QuietHolds(l);
    hide *;
    RunKeepsInv(l, QUIET, actions);
  }

  lemma QuietHolds(l: Limits)
    ensures Inv(l, QUIET)
  {
    QuietCalls(l);
    hide KeyInv, CallInv;
    EmptyKey(l, QUIET);
  }

  lemma EmptyKey(l: Limits, s: System)
    requires |s.lives| == 0 && |s.incrs| == 0 && s.hits == None
    ensures KeyInv(l, s)
  {
    hide Window;
    assert LivesApart(l, s.lives, s.now) && Growing(s.incrs) && CountsAll(s.hits, s.incrs, s.lives);
  }

  lemma QuietCalls(l: Limits)
    ensures CallInv(l, QUIET)
  {
    hide MustBlock, Seconds;
    assert QUIET.calls == map[];
  }

  lemma LifeBound(l: Limits, s: System, life: nat)
    requires Inv(l, s) && l.blockDuration > 0
    ensures |UnblockedInLife(s, life)| <= l.limit
  {
    ValuesArePositive(l, s);
    hide Inv;
    HitsDiffer(l, s, UnblockedInLife(s, life), life, 1);
  }

  /** However the commands interleave, one lifetime of the key lets through at most `limit` calls. */
  lemma AtMostLimitPerLifetime(l: Limits, actions: seq<Action>, life: nat)
    requires l.blockDuration > 0
    ensures |UnblockedInLife(Run(l, QUIET, actions), life)| <= l.limit
  {
    hide *;
    ReachedHolds(l, actions);
    LifeBound(l, Run(l, QUIET, actions), life);
  }

  /** The earliest lifetime among a set of hits. */
  lemma {:induction false} FirstLife(s: System, ids: set<Id>) returns (first: Id)
    requires ids != {} && forall c :: c in ids ==> UnblockedHit(s, c)
    ensures first in ids && forall c :: c in ids ==> HitOf(s, first).life <= HitOf(s, c).life
    decreases |ids|
  {
    first :| first in ids;
    var rest := ids - {first};
    assert ids == {first} + rest;
    if rest != {} {
      var other := FirstLife(s, rest);
      if HitOf(s, other).life < HitOf(s, first).life {
        first := other;
      }
    }
  }

  lemma FarLives(l: Limits, lives: seq<int>, now: int, i: nat, j: nat)
    requires LivesApart(l, lives, now)
    ensures i < j < |lives| ==> lives[i] + Window(l) <= lives[j]
  {
    hide Window;
  }

  /** Hits closer together than a window are in one lifetime or in two that follow each other. */
  lemma LivesInWindow(l: Limits, s: System, i: nat, j: nat, from: int)
    requires Inv(l, s) && i < |s.incrs| && j < |s.incrs| && s.incrs[i].life <= s.incrs[j].life
    requires from <= s.incrs[i].at && s.incrs[j].at < from + Window(l)
    ensures s.incrs[j].life <= s.incrs[i].life + 1
    ensures s.incrs[i].value == 1 ==> s.incrs[j].life == s.incrs[i].life
  {
    hide Window, CallInv, Growing, CurrentKey, CountsAll;
    var m, k := s.incrs[i].life, s.incrs[j].life;
    FarLives(l, s.lives, s.now, m, k);
    FarLives(l, s.lives, s.now, m + 1, k);
    assert s.lives[k] <= s.incrs[j].at;
    assert m < k ==> s.incrs[i].at <= s.lives[m + 1];
  }

  /** The number of calls a half-open window of the configured length can let through. */
  function WindowBound(l: Limits): int {
    if l.limit == 0 then 0 else 2 * l.limit - 1
  }

  lemma WindowSplits(l: Limits, s: System, from: int)
    requires Inv(l, s) && l.blockDuration > 0
    ensures |UnblockedInWindow(l, s, from)| <= WindowBound(l)
  {
    hide Inv, Window, HitOf, UnblockedHit;
    var ids := UnblockedInWindow(l, s, from);
    if ids == {} { return; }
    var first := FirstLife(s, ids);
    var m := HitOf(s, first).life;
    var early, late := HitsIn(s, ids, m), ids - HitsIn(s, ids, m);
    assert ids == early + late && first in early;
    UnionBound(early, late);
    LateBound(l, s, from, ids, first);
    EarlyBound(l, s, from, ids, first);
  }

  function HitsIn(s: System, ids: set<Id>, life: nat): set<Id>
    requires forall c :: c in ids ==> UnblockedHit(s, c)
  {
    set c | c in ids && HitOf(s, c).life == life
  }

  /** What is not in the first lifetime of the window is in the next one. */
  lemma LateBound(l: Limits, s: System, from: int, ids: set<Id>, first: Id)
    requires Inv(l, s) && l.blockDuration > 0 && ids == UnblockedInWindow(l, s, from) && first in ids
    requires forall c :: c in ids ==> HitOf(s, first).life <= HitOf(s, c).life
    ensures |ids - HitsIn(s, ids, HitOf(s, first).life)| <= l.limit
  {
    ValuesArePositive(l, s);
    hide Inv, Window;
    var m := HitOf(s, first).life;
    var late := ids - HitsIn(s, ids, m);
    forall d | d in late ensures HitOf(s, d).life == m + 1 {
      LivesInWindow(l, s, s.calls[first].hit, s.calls[d].hit, from);
    }
    HitsDiffer(l, s, late, m + 1, 1);
  }

  /** The first lifetime has a whole limit, or one less when the window reaches into the next one. */
  lemma EarlyBound(l: Limits, s: System, from: int, ids: set<Id>, first: Id)
    requires Inv(l, s) && l.blockDuration > 0 && ids == UnblockedInWindow(l, s, from) && first in ids
    requires forall c :: c in ids ==> HitOf(s, first).life <= HitOf(s, c).life
    ensures var early := HitsIn(s, ids, HitOf(s, first).life);
      1 <= |early| <= l.limit && (ids != early ==> 1 <= l.limit && |early| <= l.limit - 1)
  {
    ValuesArePositive(l, s);
    hide Inv, Window;
    var m := HitOf(s, first).life;
    var early := HitsIn(s, ids, m);
    assert first in early;
    HitsDiffer(l, s, early, m, 1);
    if d :| d in ids && d !in early {
      forall c | c in early ensures HitOf(s, c).value != 1 {
        LivesInWindow(l, s, s.calls[c].hit, s.calls[d].hit, from);
      }
      NoFirstHit(l, s, early, m, first);
    }
  }

  lemma NoFirstHit(l: Limits, s: System, ids: set<Id>, life: nat, some: Id)
    requires Inv(l, s) && l.blockDuration > 0 && some in ids
    requires forall c :: c in ids ==> UnblockedHit(s, c) && HitOf(s, c).life == life && HitOf(s, c).value != 1
    ensures 1 <= l.limit && |ids| <= l.limit - 1
  {
    ValuesArePositive(l, s);
    assert Answers(l, s.calls, s.incrs);
    hide Inv;
    assert HitOf(s, some).value <= l.limit;
    HitsDiffer(l, s, ids, life, 2);
  }

  /** However the commands interleave, any window of the configured length lets through under twice the limit. */
  lemma UnderTwiceLimitPerWindow(l: Limits, actions: seq<Action>, from: int)
    requires l.blockDuration > 0
    ensures |UnblockedInWindow(l, Run(l, QUIET, actions), from)| <= WindowBound(l)
  {
    hide *;
    ReachedHolds(l, actions);
    WindowSplits(l, Run(l, QUIET, actions), from);
  }

  // ---------------------------------------------------------------- a lost EXPIRE

  /** The key has no expiry and nobody is left to give it one. */
  ghost predicate Endless(s: System) {
    && s.hits.Some? && s.hits.value.expiresAt.None?
    && forall c :: c in s.calls ==> !s.calls[c].Expiring?
  }

  /** Since `s`, every INCR was in the same lifetime and answered more than the key held then. */
  ghost predicate SameLifeSince(s: System, s': System) {
    && Endless(s') && s'.lives == s.lives && s.lives != []
    && s.hits.Some? && 1 <= s.hits.value.value <= s'.hits.value.value
    && |s.incrs| <= |s'.incrs|
    && forall i :: |s.incrs| <= i < |s'.incrs| ==>
         s'.incrs[i].life == |s.lives| - 1 && s.hits.value.value < s'.incrs[i].value
  }

  lemma {:induction false} EndlessForever(l: Limits, s: System, actions: seq<Action>)
    requires Endless(s) && s.lives != [] && 1 <= s.hits.value.value
    ensures SameLifeSince(s, Run(l, s, actions))
    decreases |actions|
  {
    hide Seconds, RefusedRecord, CountedRecord, NewBlock, TimeToExpire;
    if actions != [] {
      EndlessForever(l, s, actions[..|actions| - 1]);
    }
  }

  /** A lost EXPIRE only makes the limit stricter: from then on, for ever, only what was left of it gets through. */
  lemma LostExpireIsStricter(l: Limits, before: seq<Action>, after: seq<Action>)
    requires l.blockDuration > 0 && Endless(Run(l, QUIET, before))
    ensures var s, s' := Run(l, QUIET, before), Run(l, Run(l, QUIET, before), after);
      |set c | c in s'.calls && UnblockedHit(s', c) && |s.incrs| <= s'.calls[c].hit|
        <= if s.hits.value.value < l.limit then l.limit - s.hits.value.value else 0
  {
    ReachedHolds(l, before);
    hide Exec, Inv;
    var s := Run(l, QUIET, before);
    assert s.lives != [] && 1 <= s.hits.value.value by { HitsStarted(l, s); }
    EndlessForever(l, s, after);
    RunKeepsInv(l, s, after);
    var s' := Run(l, s, after);
    var ids := set c | c in s'.calls && UnblockedHit(s', c) && |s.incrs| <= s'.calls[c].hit;
    if s.hits.value.value <= l.limit {
      HitsDiffer(l, s', ids, |s.lives| - 1, s.hits.value.value + 1);
    } else {
      HitsDiffer(l, s', ids, |s.lives| - 1, l.limit + 1);
    }
  }

  lemma HitsStarted(l: Limits, s: System)
    requires Inv(l, s) && s.hits.Some?
    ensures s.lives != [] && 1 <= s.hits.value.value
  {
  }

  // ---------------------------------------------------------------- the bounds are exact

  /** Every command of one call, in order; those it does not need do nothing. */
  function Commands(c: Id): seq<Action> {
    [Exists(c)] + [GetBlock(c)] + [IncrHits(c)] + [Expire(c)] + [Ttl(c)] + [Finish(c)]
  }

  /** One call with nobody in between. */
  function Alone(l: Limits, s: System, c: Id): System {
    var s1 := Exec(l, Exec(l, s, Exists(c)), GetBlock(c));
    var s2 := Exec(l, Exec(l, s1, IncrHits(c)), Expire(c));
    Exec(l, Exec(l, s2, Ttl(c)), Finish(c))
  }

  lemma {:induction false} RunConcat(l: Limits, s: System, a: seq<Action>, b: seq<Action>)
    ensures Run(l, s, a + b) == Run(l, Run(l, s, a), b)
    decreases |b|
  {
    hide Exec;
    if b == [] {
      assert a + b == a;
    } else {
      RunConcat(l, s, a, b[..|b| - 1]);
      assert (a + b)[..|a + b| - 1] == a + b[..|b| - 1];
    }
  }

  lemma RunThen(l: Limits, s: System, a: seq<Action>, last: Action)
    ensures Run(l, s, a + [last]) == Exec(l, Run(l, s, a), last)
  {
    hide Exec;
    assert (a + [last])[..|a + [last]| - 1] == a;
  }

  lemma RunCommands(l: Limits, s: System, c: Id)
    ensures Run(l, s, Commands(c)) == Alone(l, s, c)
  {
    hide Exec;
    assert [Exists(c)] == [] + [Exists(c)];
    RunThen(l, s, [], Exists(c));
    RunThen(l, s, [Exists(c)], GetBlock(c));
    RunThen(l, s, [Exists(c)] + [GetBlock(c)], IncrHits(c));
    RunThen(l, s, [Exists(c)] + [GetBlock(c)] + [IncrHits(c)], Expire(c));
    RunThen(l, s, [Exists(c)] + [GetBlock(c)] + [IncrHits(c)] + [Expire(c)], Ttl(c));
    RunThen(l, s, [Exists(c)] + [GetBlock(c)] + [IncrHits(c)] + [Expire(c)] + [Ttl(c)], Finish(c));
  }

  predicate FreshFrom(s: System, first: Id) {
    forall c :: c in s.calls ==> c < first
  }

  /** `c` got through: unblocked, by an INCR made at `at` in lifetime `life`. */
  predicate GotThrough(s: System, c: Id, at: int, life: nat) {
    UnblockedHit(s, c) && HitOf(s, c).at == at && HitOf(s, c).life == life
  }

  predicate AllGotThrough(s: System, first: Id, n: nat, at: int, life: nat) {
    forall c: Id :: first <= c < first + n ==> GotThrough(s, c, at, life)
  }

  /** What a step that only adds calls leaves alone. */
  predicate Extends(s: System, s': System) {
    && s'.now == s.now && s'.block == s.block && s.incrs <= s'.incrs
    && forall c :: c in s.calls ==> c in s'.calls && s'.calls[c] == s.calls[c]
  }

  function HitsAfterAlone(l: Limits, s: System): Counter {
    if AfterIncr(s).value == 1 then Counter(1, Some(s.now + Window(l))) else AfterIncr(s)
  }

  function LivesAfterAlone(s: System): seq<int> {
    if HitsLive(s) && |s.lives| > 0 then s.lives else s.lives + [s.now]
  }

  /** The whole effect of a call that finds no block and has nobody in between. */
  lemma AloneCounts(l: Limits, s: System, c: Id)
    requires c !in s.calls && !BlockLive(s)
    ensures var value, counter, lives := AfterIncr(s).value, HitsAfterAlone(l, s), LivesAfterAlone(s);
      var timeToExpire := TimeToExpire(l, s.(hits := Some(counter)));
      Alone(l, s, c) == System(
        s.now, Some(counter), if MustBlock(l, value) then Some(NewBlock(l, s.now)) else s.block,
        s.calls[c := Counted(|s.incrs|, CountedRecord(l, value, timeToExpire))],
        s.incrs + [Incr(s.now, |lives| - 1, value)], lives)
  {
    AloneDecides(l, s, c);
    hide Window, Seconds, RefusedRecord, CountedRecord, NewBlock, MustBlock, TimeToExpire, AfterIncr;
    hide HitsAfterAlone, LivesAfterAlone, DoIncr, DoExpire, BlockLive;
    var timeToExpire := TimeToExpire(l, s.(hits := Some(HitsAfterAlone(l, s))));
    var phase := Counted(|s.incrs|, CountedRecord(l, AfterIncr(s).value, timeToExpire));
    assert s.calls[c := Deciding(|s.incrs|, timeToExpire)][c := phase] == s.calls[c := phase];
  }

  /** The call up to its decision. */
  lemma AloneDecides(l: Limits, s: System, c: Id)
    requires c !in s.calls && !BlockLive(s)
    ensures var lives := LivesAfterAlone(s);
      var timeToExpire := TimeToExpire(l, s.(hits := Some(HitsAfterAlone(l, s))));
      var s2 := Exec(l, Exec(l, Exec(l, Exec(l, s, Exists(c)), GetBlock(c)), IncrHits(c)), Expire(c));
      Exec(l, s2, Ttl(c)) == System(
        s.now, Some(HitsAfterAlone(l, s)), s.block, s.calls[c := Deciding(|s.incrs|, timeToExpire)],
        s.incrs + [Incr(s.now, |lives| - 1, AfterIncr(s).value)], lives)
  {
    hide Window, Seconds, RefusedRecord, CountedRecord, NewBlock, MustBlock, TtlReply;
    var s1 := Move(s, c, Counting);
    assert Exec(l, Exec(l, s, Exists(c)), GetBlock(c)) == s1;
    var s2 := DoIncr(s1, c);
    assert Exec(l, s1, IncrHits(c)) == s2;
    var s3 := Exec(l, s2, Expire(c));
    assert s3.hits == Some(HitsAfterAlone(l, s)) && s3.calls == s.calls[c := Timing(|s.incrs|)];
    SameTtl(s3, s.(hits := Some(HitsAfterAlone(l, s))));
    var timeToExpire := TimeToExpire(l, s.(hits := Some(HitsAfterAlone(l, s))));
    assert s3.calls[c := Deciding(|s.incrs|, timeToExpire)] == s.calls[c := Deciding(|s.incrs|, timeToExpire)];
  }

  lemma SameTtl(s: System, t: System)
    requires s.now == t.now && s.hits == t.hits
    ensures TtlReply(s) == TtlReply(t)
  {
  }

  lemma AloneIsRefused(l: Limits, s: System, c: Id)
    requires c !in s.calls && BlockLive(s)
    ensures Alone(l, s, c) == Move(s, c, Refused(RefusedRecord(l, s)))
  {
    hide Seconds, DoIncr, DoExpire, DoFinish, TimeToExpire;
    var s1 := Move(Move(s, c, Refusing), c, Refused(RefusedRecord(l, s)));
    assert Exec(l, Exec(l, s, Exists(c)), GetBlock(c)) == s1;
    assert s1.calls == s.calls[c := Refused(RefusedRecord(l, s))];
  }

  lemma AloneGetsThrough(l: Limits, s: System, c: Id)
    requires FreshFrom(s, c) && !BlockLive(s) && !MustBlock(l, AfterIncr(s).value) && (HitsLive(s) ==> s.lives != [])
    ensures var s' := Alone(l, s, c);
      && Extends(s, s') && FreshFrom(s', c + 1) && GotThrough(s', c, s.now, |s'.lives| - 1)
      && s'.lives == (if HitsLive(s) then s.lives else s.lives + [s.now]) && s'.hits == Some(HitsAfterAlone(l, s))
  {
    AloneCounts(l, s, c);
    hide Alone, Window, TimeToExpire, MustBlock;
  }

  /** `n` calls one after the other. */
  function Burst(first: Id, n: nat): seq<Action> {
    if n == 0 then [] else Burst(first, n - 1) + Commands(first + n - 1)
  }

  lemma ThroughStays(s: System, s': System, first: Id, n: nat, at: int, life: nat)
    requires AllGotThrough(s, first, n, at, life) && Extends(s, s')
    ensures AllGotThrough(s', first, n, at, life)
  {
    forall c: Id | first <= c < first + n ensures GotThrough(s', c, at, life) {
      assert GotThrough(s, c, at, life);
    }
  }

  lemma ExtendsTransitive(s: System, s': System, s'': System)
    requires Extends(s, s') && Extends(s', s'')
    ensures Extends(s, s'')
  {
  }

  /** `n` calls have got through on top of `s`, in the lifetime that was live there. */
  predicate BurstDone(s: System, s': System, first: Id, n: nat)
    requires HitsLive(s) && s.lives != []
  {
    && Extends(s, s') && FreshFrom(s', first + n) && s'.lives == s.lives
    && s'.hits == Some(s.hits.value.(value := s.hits.value.value + n))
    && AllGotThrough(s', first, n, s.now, |s.lives| - 1)
  }

  lemma BurstGrows(l: Limits, s: System, mid: System, first: Id, n: nat)
    requires HitsLive(s) && s.lives != [] && 1 <= s.hits.value.value && !BlockLive(s) && BurstDone(s, mid, first, n)
    requires l.blockDuration <= 0 || s.hits.value.value + n < l.limit
    ensures BurstDone(s, Alone(l, mid, first + n), first, n + 1)
  {
    BurstGoesOn(l, s, mid, first, n);
    var next := Alone(l, mid, first + n);
    assert next == Alone(l, mid, first + n);
    hide *;
    AloneGetsThrough(l, mid, first + n);
    BurstExtends(s, mid, next, first, n);
  }

  /** After a burst the next call is still within the limit. */
  lemma BurstGoesOn(l: Limits, s: System, mid: System, first: Id, n: nat)
    requires HitsLive(s) && s.lives != [] && 1 <= s.hits.value.value && !BlockLive(s) && BurstDone(s, mid, first, n)
    requires l.blockDuration <= 0 || s.hits.value.value + n < l.limit
    ensures !BlockLive(mid) && HitsLive(mid) && mid.now == s.now && mid.lives == s.lives && FreshFrom(mid, first + n)
    ensures !MustBlock(l, AfterIncr(mid).value)
    ensures HitsAfterAlone(l, mid) == s.hits.value.(value := s.hits.value.value + n + 1)
  {
    BurstLeavesLive(s, mid, first, n);
    hide FreshFrom, BurstDone, Window;
  }

  lemma BurstLeavesLive(s: System, mid: System, first: Id, n: nat)
    requires HitsLive(s) && s.lives != [] && 1 <= s.hits.value.value && !BlockLive(s) && BurstDone(s, mid, first, n)
    ensures !BlockLive(mid) && HitsLive(mid) && mid.now == s.now && mid.lives == s.lives && FreshFrom(mid, first + n)
    ensures AfterIncr(mid) == s.hits.value.(value := s.hits.value.value + n + 1)
  {
    hide AllGotThrough;
  }

  lemma BurstExtends(s: System, mid: System, next: System, first: Id, n: nat)
    requires HitsLive(s) && s.lives != [] && BurstDone(s, mid, first, n)
    requires Extends(mid, next) && FreshFrom(next, first + n + 1) && next.lives == s.lives
    requires next.hits == Some(s.hits.value.(value := s.hits.value.value + n + 1))
    requires GotThrough(next, first + n, s.now, |s.lives| - 1)
    ensures BurstDone(s, next, first, n + 1)
  {
    hide Extends, GotThrough, HitsLive, FreshFrom;
    ExtendsTransitive(s, mid, next);
    ThroughStays(mid, next, first, n, s.now, |s.lives| - 1);
  }

  lemma {:induction false} BurstGetsThrough(l: Limits, s: System, first: Id, n: nat)
    requires FreshFrom(s, first) && !BlockLive(s) && HitsLive(s) && s.lives != [] && 1 <= s.hits.value.value
    requires l.blockDuration <= 0 || s.hits.value.value + n <= l.limit
    ensures BurstDone(s, Run(l, s, Burst(first, n)), first, n)
  {
    if n == 0 {
      NothingRuns(l, s);
      hide Run, Exec, GotThrough;
    } else {
      hide BurstDone, Commands, Alone, MustBlock, Run, Exec, BlockLive, FreshFrom;
      BurstGetsThrough(l, s, first, n - 1);
      var mid := Run(l, s, Burst(first, n - 1));
      RunConcat(l, s, Burst(first, n - 1), Commands(first + n - 1));
      RunCommands(l, mid, first + n - 1);
      BurstGrows(l, s, mid, first, n - 1);
    }
  }

  lemma {:induction false} RangeFits(first: Id, n: nat, ids: set<Id>)
    requires forall c: Id :: first <= c < first + n ==> c in ids
    ensures n <= |ids|
  {
    if n > 0 {
      RangeFits(first, n - 1, ids - {first + n - 1});
    }
  }

  /** A first caller that loses its EXPIRE. */
  lemma Opening(l: Limits) returns (actions: seq<Action>)
    ensures var s := Run(l, QUIET, actions);
      && s.hits == Some(Counter(1, None)) && s.lives == [0] && FreshFrom(s, 1) && !BlockLive(s)
  {
    hide Run, Exec;
    actions := [] + [Exists(0)] + [IncrHits(0)] + [Crash(0)];
    NothingRuns(l, QUIET);
    RunThen(l, QUIET, [], Exists(0));
    RunThen(l, QUIET, [] + [Exists(0)], IncrHits(0));
    RunThen(l, QUIET, [] + [Exists(0)] + [IncrHits(0)], Crash(0));
    OpeningState(l);
  }

  lemma OpeningState(l: Limits)
    ensures Exec(l, Exec(l, Exec(l, QUIET, Exists(0)), IncrHits(0)), Crash(0))
      == System(0, Some(Counter(1, None)), None, map[0 := Lost], [Incr(0, 0, 1)], [0])
  {
    var s1 := QUIET.(calls := map[0 := Counting]);
    assert Exec(l, QUIET, Exists(0)) == s1;
    var s2 := System(0, Some(Counter(1, None)), None, map[0 := Expiring(0)], [Incr(0, 0, 1)], [0]);
    assert Exec(l, s1, IncrHits(0)) == s2 by { assert s1.calls[0 := Expiring(0)] == s2.calls; }
    assert Exec(l, s2, Crash(0)) == Move(s2, 0, Lost);
    assert s2.calls[0 := Lost] == map[0 := Lost];
  }

  lemma NothingRuns(l: Limits, s: System)
    ensures Run(l, s, []) == s
  {
  }

  /** With no block duration nothing is ever refused: any number of calls gets through in one lifetime. */
  lemma WithoutBlockingUnbounded(l: Limits, n: nat) returns (actions: seq<Action>)
    requires l.blockDuration <= 0
    ensures n <= |UnblockedInLife(Run(l, QUIET, actions), 0)|
  {
    var opening := Opening(l);
    var s := Run(l, QUIET, opening);
    BurstGetsThrough(l, s, 1, n);
    actions := opening + Burst(1, n);
    RunConcat(l, QUIET, opening, Burst(1, n));
    hide Run, Exec;
    var s' := Run(l, QUIET, actions);
    var ids := UnblockedInLife(s', 0);
    forall c: Id | 1 <= c < 1 + n ensures c in ids {
      assert GotThrough(s', c, s.now, 0);
    }
    RangeFits(1, n, ids);
  }

  /** The limit is kept in every run exactly when a positive block duration is configured. */
  lemma LimitHoldsIff(l: Limits)
    ensures (forall actions, life: nat :: |UnblockedInLife(Run(l, QUIET, actions), life)| <= l.limit)
      <==> l.blockDuration > 0
  {
    if l.blockDuration > 0 {
      forall actions, life: nat ensures |UnblockedInLife(Run(l, QUIET, actions), life)| <= l.limit {
        AtMostLimitPerLifetime(l, actions, life);
      }
    } else {
      var actions := WithoutBlockingUnbounded(l, l.limit + 1);
    }
  }

  /** From the first call on: the rest of the limit gets through just before the lifetime ends. */
  lemma RestOfLifetime(l: Limits, s1: System)
    requires l.blockDuration > 0 && Window(l) > 1 && l.limit >= 1
    requires s1.now == 0 && s1.hits == Some(Counter(1, Some(Window(l)))) && s1.lives == [0] && s1.block == None
    requires FreshFrom(s1, 1)
    ensures var s := Run(l, s1, [Tick(Window(l) - 1)] + Burst(1, l.limit - 1) + [Tick(1)]);
      && FreshFrom(s, l.limit) && s.now == Window(l) && !HitsLive(s) && s.lives == [0] && s.block == None
      && AllGotThrough(s, 1, l.limit - 1, Window(l) - 1, 0)
  {
    var w := Window(l);
    var s2, burst := s1.(now := w - 1), Burst(1, l.limit - 1);
    WaitThenBurst(l, s1, w, burst);
    hide Run, Burst, Window;
    BurstGetsThrough(l, s2, 1, l.limit - 1);
    var s3 := Run(l, s2, burst);
    SameHits(s3, s3.(now := w), 1, l.limit - 1, w - 1, 0);
  }

  lemma WaitThenBurst(l: Limits, s: System, w: int, burst: seq<Action>)
    requires s.now == 0 && w > 1
    ensures var end := Run(l, s.(now := w - 1), burst);
      Run(l, s, [Tick(w - 1)] + burst + [Tick(1)]) == end.(now := end.now + 1)
  {
    NothingRuns(l, s);
    RunThen(l, s, [], Tick(w - 1));
    assert [] + [Tick(w - 1)] == [Tick(w - 1)];
    RunConcat(l, s, [Tick(w - 1)], burst);
    RunThen(l, s, [Tick(w - 1)] + burst, Tick(1));
    hide Run;
  }

  lemma SameHits(s: System, s': System, first: Id, n: nat, at: int, life: nat)
    requires AllGotThrough(s, first, n, at, life) && s'.calls == s.calls && s'.incrs == s.incrs
    ensures AllGotThrough(s', first, n, at, life)
  {
    forall c: Id | first <= c < first + n ensures GotThrough(s', c, at, life) {
      assert GotThrough(s, c, at, life);
    }
  }

  lemma FirstCall(l: Limits)
    requires l.limit >= 1
    ensures var s := Run(l, QUIET, Commands(0));
      && s.now == 0 && s.hits == Some(Counter(1, Some(Window(l)))) && s.lives == [0] && s.block == None
      && FreshFrom(s, 1)
  {
    hide Run, Exec, Window, Commands;
    RunCommands(l, QUIET, 0);
    AloneGetsThrough(l, QUIET, 0);
    hide Alone, GotThrough;
  }

  /** Up to the last millisecond of the first lifetime: one call at 0, the rest of the limit just before its end. */
  lemma FirstLifetimeFull(l: Limits) returns (actions: seq<Action>)
    requires l.blockDuration > 0 && Seconds(l.ttl) >= 1 && l.limit >= 1
    ensures var s := Run(l, QUIET, actions);
      && FreshFrom(s, l.limit) && s.now == Window(l) && !HitsLive(s) && s.lives == [0] && s.block == None
      && AllGotThrough(s, 1, l.limit - 1, Window(l) - 1, 0)
  {
    FirstCall(l);
    assert Window(l) > 1;
    hide *;
    var s1 := Run(l, QUIET, Commands(0));
    RestOfLifetime(l, s1);
    var rest := [Tick(Window(l) - 1)] + Burst(1, l.limit - 1) + [Tick(1)];
    RunConcat(l, QUIET, Commands(0), rest);
    actions := Commands(0) + rest;
  }

  /** The window bound is reached: no smaller one holds of every run. */
  lemma WindowBoundIsReached(l: Limits) returns (actions: seq<Action>)
    requires l.blockDuration > 0 && Seconds(l.ttl) >= 1 && l.limit >= 1
    ensures |UnblockedInWindow(l, Run(l, QUIET, actions), Window(l) - 1)| == WindowBound(l)
  {
    var full := FirstLifetimeFull(l);
    assert Window(l) > 1;
    hide Window, Seconds, Exec, Alone, Commands;
    var s, n := Run(l, QUIET, full), l.limit;
    SecondLifetimeFull(l, s);
    var rest := Commands(n) + Burst(n + 1, n - 1);
    actions := full + rest;
    RunConcat(l, QUIET, full, rest);
    hide Run, Burst;
    var s' := Run(l, QUIET, actions);
    CountTwo(l, s', n, Window(l) - 1);
    UnderTwiceLimitPerWindow(l, actions, Window(l) - 1);
  }

  lemma CountTwo(l: Limits, s: System, n: nat, from: int)
    requires n >= 1 && Window(l) > 1
    requires AllGotThrough(s, 1, n - 1, from, 0) && AllGotThrough(s, n, n, from + 1, 1)
    ensures 2 * n - 1 <= |UnblockedInWindow(l, s, from)|
  {
    hide Window;
    var ids := UnblockedInWindow(l, s, from);
    forall c: Id | 1 <= c < 1 + (2 * n - 1) ensures c in ids {
      assert if c < n then GotThrough(s, c, from, 0) else GotThrough(s, c, from + 1, 1);
    }
    RangeFits(1, 2 * n - 1, ids);
  }

  lemma JoinThrough(s: System, first: Id, n: nat, at: int, life: nat)
    requires AllGotThrough(s, first, 1, at, life) && AllGotThrough(s, first + 1, n, at, life)
    ensures AllGotThrough(s, first, n + 1, at, life)
  {
    hide GotThrough;
  }

  /** The first call after the lifetime's end opens the next one. */
  lemma NextLifetimeOpens(l: Limits, s: System)
    requires l.blockDuration > 0 && Window(l) > 1 && l.limit >= 1
    requires FreshFrom(s, l.limit) && s.now == Window(l) && !HitsLive(s) && s.lives == [0] && s.block == None
    ensures var s' := Run(l, s, Commands(l.limit));
      && Extends(s, s') && FreshFrom(s', l.limit + 1) && s'.lives == [0, Window(l)]
      && s'.hits == Some(Counter(1, Some(Window(l) + Window(l)))) && AllGotThrough(s', l.limit, 1, Window(l), 1)
  {
    hide Window, Commands, Run, Exec;
    AloneGetsThrough(l, s, l.limit);
    RunCommands(l, s, l.limit);
    hide GotThrough, Extends, Alone;
  }

  /** As soon as the first lifetime is over, a whole limit gets through again. */
  lemma SecondLifetimeFull(l: Limits, s: System)
    requires l.blockDuration > 0 && Window(l) > 1 && l.limit >= 1
    requires FreshFrom(s, l.limit) && s.now == Window(l) && !HitsLive(s) && s.lives == [0] && s.block == None
    requires AllGotThrough(s, 1, l.limit - 1, Window(l) - 1, 0)
    ensures var s' := Run(l, s, Commands(l.limit) + Burst(l.limit + 1, l.limit - 1));
      && AllGotThrough(s', 1, l.limit - 1, Window(l) - 1, 0)
      && AllGotThrough(s', l.limit, l.limit, Window(l), 1)
  {
    hide Window, Commands, Run, Exec, Burst, AllGotThrough, GotThrough;
    var n, w := l.limit, Window(l);
    NextLifetimeOpens(l, s);
    var s1 := Run(l, s, Commands(n));
    RunConcat(l, s, Commands(n), Burst(n + 1, n - 1));
    assert s1.now == w && s1.block == None;
    BurstGetsThrough(l, s1, n + 1, n - 1);
    var s' := Run(l, s1, Burst(n + 1, n - 1));
    assert Extends(s1, s') && AllGotThrough(s', n + 1, n - 1, w, 1);
    hide Extends;
    ThroughStays(s, s1, 1, n - 1, w - 1, 0);
    ThroughStays(s1, s', 1, n - 1, w - 1, 0);
    ThroughStays(s1, s', n, 1, w, 1);
    JoinThrough(s', n, n - 1, w, 1);
  }

  // ---------------------------------------------------------------- the storage

  /** The storage for one key of one throttler. */
  class RedisThrottlerStorage {
    var now: int
    var hits: Option<Counter>
    var block: Option<Block>
    /** The machine these fields belong to, with its history and every call's progress. */
    ghost var machine: System

    ghost predicate Valid()
      reads this
    {
      now == machine.now && hits == machine.hits && block == machine.block
    }

    constructor ()
      ensures Valid() && machine == QUIET
    {
      now, hits, block, machine := 0, None, None, QUIET;
    }

    method BlockExists() returns (found: bool)
      requires Valid()
      ensures found <==> BlockLive(machine)
    {
      found := block.Some? && now < block.value.expiresAt;
    }

    method IncrWithExpire(window: int) returns (value: nat)
      requires Valid()
      modifies this`hits
      ensures value == AfterIncr(machine).value
      ensures hits == Some(if value == 1 then Counter(1, Some(now + window)) else AfterIncr(machine))
    {
      if hits.Some? && (hits.value.expiresAt.None? || now < hits.value.expiresAt.value) {
        hits := Some(hits.value.(value := hits.value.value + 1));
      } else {
        hits := Some(Counter(1, None));
      }
      value := hits.value.value;
      if value == 1 {
        hits := Some(hits.value.(expiresAt := Some(now + window)));
      }
    }

    method GetTtl() returns (ttl: int)
      ensures ttl == TtlReply(System(now, hits, block, map[], [], []))
      ensures hits.None? ==> ttl == -2
      ensures hits.Some? && hits.value.expiresAt.None? ==> ttl == -1
      ensures hits.Some? && hits.value.expiresAt.Some? ==>
        var left := hits.value.expiresAt.value - now;
        if left <= 0 then ttl == -2 else left - 500 < 1000 * ttl <= left + 500
    {
      if hits.None? || (hits.value.expiresAt.Some? && now >= hits.value.expiresAt.value) {
        ttl := -2;
      } else if hits.value.expiresAt.None? {
        ttl := -1;
      } else {
        ttl := (hits.value.expiresAt.value - now + 500) / 1000;
      }
    }

    /** One whole call is one run of its commands in the machine, and answers by what the key held before it. */
    method Increment(l: Limits, ghost call: Id) returns (record: Record)
      requires Valid() && call !in machine.calls
      modifies this
      ensures Valid() && machine == Run(l, old(machine), Commands(call))
      ensures call in machine.calls && (machine.calls[call].Counted? || machine.calls[call].Refused?)
      ensures machine.calls[call].record == record
      ensures record.isBlocked <==> BlockLive(old(machine)) || MustBlock(l, AfterIncr(old(machine)).value)
      ensures BlockLive(old(machine)) ==> hits == old(hits) && block == old(block)
      ensures BlockLive(old(machine)) ==>
        && block.Some? && record.totalHits == l.limit + 1 && record.timeToExpire == 0
        && block.value.until - now <= 1000 * record.timeToBlockExpire < block.value.until - now + 1000
      ensures !BlockLive(old(machine)) ==>
        && hits.Some? && record.totalHits == hits.value.value
        && if hits.value.expiresAt.Some? && hits.value.expiresAt.value - now >= 500
           then -500 < 1000 * record.timeToExpire - (hits.value.expiresAt.value - now) <= 500
           else l.ttl <= 1000 * record.timeToExpire < l.ttl + 1000
      ensures !BlockLive(old(machine)) && record.isBlocked ==>
        && block.Some? && block.value.until == now + l.blockDuration
        && now + l.blockDuration <= block.value.expiresAt < now + l.blockDuration + 1000
        && l.blockDuration <= 1000 * record.timeToBlockExpire < l.blockDuration + 1000
      ensures !record.isBlocked ==> block == old(block) && record.timeToBlockExpire == 0
      ensures !BlockLive(old(machine)) && HitsLive(old(machine)) && old(hits).value.value > 0 ==>
        hits == Some(Counter(old(hits).value.value + 1, old(hits).value.expiresAt))
      ensures !BlockLive(old(machine)) && !HitsLive(old(machine)) ==>
        && hits.Some? && hits.value.value == 1 && hits.value.expiresAt.Some?
        && now + l.ttl <= hits.value.expiresAt.value < now + l.ttl + 1000
    {
      hide Seconds, Run, Alone;
      RunCommands(l, machine, call);
      var blocked := BlockExists();
      if blocked {
        AloneIsRefused(l, machine, call);
        record := Record(l.limit + 1, 0, true, Seconds(block.value.until - now));
      } else {
        AloneCounts(l, machine, call);
        var value := IncrWithExpire(1000 * Seconds(l.ttl));
        var remaining := GetTtl();
        SameTtl(machine.(hits := hits), System(now, hits, block, map[], [], []));
        var timeToExpire := if remaining > 0 then remaining else Seconds(l.ttl);
        if value > l.limit && l.blockDuration > 0 {
          block := Some(Block(now + l.blockDuration, now + 1000 * Seconds(l.blockDuration)));
          record := Record(value, timeToExpire, true, Seconds(l.blockDuration));
        } else {
          record := Record(value, timeToExpire, false, 0);
        }
      }
      machine := Run(l, machine, Commands(call));
    }
  }
}
