/**
 The expiry sweep in time. Runs of the dispatch system get a clock and a sweep that lists the PENDING
 batches past their window and closes them one by one; timers are never relied on.
 */
module ExpirySweep {
  import opened Types
  import opened Batching
  import opened Transactions
  import opened Evolution
  import opened Dispatch

  /** `sweptAt` is when the latest sweep read the clock, `expired` what it has left, `failed` what it skipped. */
  datatype Timed = Timed(sys: System, now: int, sweptAt: Option<int>, expired: seq<Id>, failed: set<Id>)

  datatype TimedStep =
    | Later(millis: nat)
    | Does(step: Step)
    | SweepStarts(expired: seq<Id>)
    | Closes
    | CloseFails

  const START := Timed(INITIAL, 0, None, [], {})

  function Cutoff(rules: Rules, now: int): int {
    now - (rules.windowMin + 1) * MS_PER_MIN
  }

  predicate Expired(rules: Rules, s: State, b: Id, now: int) {
    CanClose(s, b) && s.batches[b].createdAt < Cutoff(rules, now)
  }

  /** A step on the store reads the current clock; the sweep's list is exact when it is taken. */
  ghost function TimedApply(rules: Rules, t: Timed, step: TimedStep): Timed {
    match step
    case Later(millis) => t.(now := t.now + millis)
    case Does(s) => if s.Readied? && s.now != t.now then t else t.(sys := Apply(rules, t.sys, s))
    case SweepStarts(expired) =>
      if t.expired == [] && forall b :: b in expired <==> Expired(rules, t.sys.db, b, t.now)
      then t.(sweptAt := Some(t.now), expired := expired, failed := {}) else t
    case Closes =>
      if t.expired == [] then t
      else t.(sys := Apply(rules, t.sys, BatchClosed(t.expired[0])), expired := t.expired[1..])
    case CloseFails =>
      if t.expired == [] then t else t.(failed := t.failed + {t.expired[0]}, expired := t.expired[1..])
  }

  ghost function TimedRun(rules: Rules, t: Timed, steps: seq<TimedStep>): Timed
    decreases |steps|
  {
    if steps == [] then t else TimedRun(rules, TimedApply(rules, t, steps[0]), steps[1..])
  }

  /** What is still open is young, or waits to be closed by the sweep that saw it, or that sweep failed on it. */
  ghost predicate OpenIsYoung(rules: Rules, t: Timed) {
    t.sweptAt.Some? ==>
      && t.sweptAt.value <= t.now
      && forall b :: CanClose(t.sys.db, b) ==>
           b in t.failed || b in t.expired || t.sys.db.batches[b].createdAt >= Cutoff(rules, t.sweptAt.value)
  }

  lemma OnlyReadyOpensBatches(rules: Rules, s: State, step: Step)
    ensures forall b :: b in Direct(rules, s, step).batches && b !in s.batches ==>
      step.Readied? && Direct(rules, s, step).batches[b].createdAt == step.now
  {
    hide BatchTakes, FirstEligible, OpenListing, FreshBatchId, ShouldClose;
  }

  lemma OthersOpenNone(rules: Rules, sys: System, step: Step)
    ensures forall b :: b in Apply(rules, sys, step).db.batches && b !in sys.db.batches ==>
      step.Readied? && Apply(rules, sys, step).db.batches[b].createdAt == step.now
  {
    OnlyReadyOpensBatches(rules, sys.db, step);
    hide Direct;
  }

  /** A step by a clock reading of now opens only batches of now and reopens none. */
  lemma StepKeepsYoung(rules: Rules, t: Timed, step: Step)
    requires SysInv(t.sys) && OpenIsYoung(rules, t) && (step.Readied? ==> step.now == t.now)
    ensures OpenIsYoung(rules, t.(sys := Apply(rules, t.sys, step)))
  {
    StepKeepsSysInv(rules, t.sys, step);
    OthersOpenNone(rules, t.sys, step);
    hide Apply, SysInv;
    var s, s' := t.sys.db, Apply(rules, t.sys, step).db;
    if t.sweptAt.Some? {
      forall b | CanClose(s', b)
        ensures b in t.failed || b in t.expired || s'.batches[b].createdAt >= Cutoff(rules, t.sweptAt.value)
      {
        if b in s.batches {
          assert BatchEvolves(s, s', b);
        }
      }
    }
  }

  lemma ClosingKeepsYoung(rules: Rules, t: Timed)
    requires SysInv(t.sys) && OpenIsYoung(rules, t) && t.expired != []
    ensures OpenIsYoung(rules, TimedApply(rules, t, Closes))
  {
    var b := t.expired[0];
    StepKeepsYoung(rules, t, BatchClosed(b));
    assert forall c :: c in t.expired ==> c == b || c in t.expired[1..];
    assert !CanClose(CloseBatch(t.sys.db, b), b);
  }

  lemma TimedStepKeeps(rules: Rules, t: Timed, step: TimedStep)
    requires SysInv(t.sys) && OpenIsYoung(rules, t)
    ensures SysInv(TimedApply(rules, t, step).sys) && OpenIsYoung(rules, TimedApply(rules, t, step))
  {
    hide SysInv, Apply;
    match step
    case Later(_) =>
    case Does(s) =>
      StepKeepsSysInv(rules, t.sys, s);
      if s.Readied? ==> s.now == t.now { StepKeepsYoung(rules, t, s); }
    case SweepStarts(_) =>
    case Closes =>
      if t.expired != [] {
        StepKeepsSysInv(rules, t.sys, BatchClosed(t.expired[0]));
        ClosingKeepsYoung(rules, t);
      }
    case CloseFails =>
      assert t.expired != [] ==> forall c :: c in t.expired ==> c == t.expired[0] || c in t.expired[1..];
  }

  lemma {:induction false} TimedRunKeeps(rules: Rules, t: Timed, steps: seq<TimedStep>)
    requires SysInv(t.sys) && OpenIsYoung(rules, t)
    ensures SysInv(TimedRun(rules, t, steps).sys) && OpenIsYoung(rules, TimedRun(rules, t, steps))
    decreases |steps|
  {
    hide SysInv, OpenIsYoung, TimedApply;
    if steps != [] {
      TimedStepKeeps(rules, t, steps[0]);
      TimedRunKeeps(rules, TimedApply(rules, t, steps[0]), steps[1..]);
    }
  }

  /**
   With every timer lost: once a sweep has gone through its list, and until a minute has passed since it
   began, no batch it did not fail to close is both PENDING and older than the window plus two minutes.
   */
  lemma PendingAgeIsBounded(rules: Rules, steps: seq<TimedStep>, b: Id)
    requires var t := TimedRun(rules, START, steps);
      && t.sweptAt.Some? && t.expired == [] && t.now <= t.sweptAt.value + 60000
      && CanClose(t.sys.db, b) && b !in t.failed
    ensures var t := TimedRun(rules, START, steps);
      t.now - t.sys.db.batches[b].createdAt <= (rules.windowMin + 2) * 60000
  {
    InitialHolds();
    TimedRunKeeps(rules, START, steps);
  }

  /** The bound is reached: a batch exactly a minute past its window is not yet expired and waits another minute. */
  lemma AgeBoundIsReached(rules: Rules, info: OrderInfo) returns (steps: seq<TimedStep>)
    ensures var t := TimedRun(rules, START, steps);
      && t.sweptAt.Some? && t.expired == [] && t.now == t.sweptAt.value + MS_PER_MIN && t.failed == {}
      && CanClose(t.sys.db, 0)
      && t.now - t.sys.db.batches[0].createdAt == (rules.windowMin + 2) * 60000
  {
    var ready := Readied(0, info.vendorId, false, 0, [], 0);
    var wait := [Later((rules.windowMin + 1) * MS_PER_MIN), SweepStarts([]), Later(MS_PER_MIN)];
    steps := [Does(Placed(0, info))] + ([Does(ready)] + wait);
    var t := FirstBatch(rules, info);
    hide TimedApply;
    assert steps[1..] == [Does(ready)] + wait && ([Does(ready)] + wait)[1..] == wait;
    assert TimedRun(rules, START, steps) == TimedRun(rules, t, wait);
    BatchWaits(rules, t);
  }

  lemma FirstBatch(rules: Rules, info: OrderInfo) returns (t: Timed)
    ensures t == TimedApply(rules, TimedApply(rules, START, Does(Placed(0, info))),
                            Does(Readied(0, info.vendorId, false, 0, [], 0)))
    ensures t.now == 0 && t.sweptAt == None && t.expired == [] && t.failed == {}
    ensures t.sys.db.batches == map[0 := Batch(JobStatus.Pending, None, 0, [0])]
  {
    var t1 := TimedApply(rules, START, Does(Placed(0, info)));
    t := TimedApply(rules, t1, Does(Readied(0, info.vendorId, false, 0, [], 0)));
    assert t1.sys.db.batches == map[] && OpenListing(t1.sys.db, []) && FreshBatchId(t1.sys.db, 0);
  }

  lemma BatchWaits(rules: Rules, t: Timed)
    requires t.now == 0 && t.expired == []
    requires t.sys.db.batches == map[0 := Batch(JobStatus.Pending, None, 0, [0])]
    ensures var age := (rules.windowMin + 1) * MS_PER_MIN;
      TimedRun(rules, t, [Later(age), SweepStarts([]), Later(MS_PER_MIN)])
        == t.(now := age + MS_PER_MIN, sweptAt := Some(age), failed := {})
  {
    hide Apply;
    var age := (rules.windowMin + 1) * MS_PER_MIN;
    var t1 := t.(now := age);
    var t2 := t1.(sweptAt := Some(age), failed := {});
    assert TimedApply(rules, t, Later(age)) == t1;
    assert TimedApply(rules, t1, SweepStarts([])) == t2;
    var steps := [Later(age), SweepStarts([]), Later(MS_PER_MIN)];
    assert steps[1..] == [SweepStarts([]), Later(MS_PER_MIN)] && steps[1..][1..] == [Later(MS_PER_MIN)];
    assert TimedRun(rules, t2, [Later(MS_PER_MIN)]) == t2.(now := age + MS_PER_MIN);
  }

  // ---------------------------------------------------------------- one sweep at once

  function ExpiredSet(rules: Rules, s: State, now: int): set<Id> {
    set b | b in s.batches && Expired(rules, s, b, now)
  }

  /** `s` with these batches closed: one status change and one message each, nothing else. */
  function ClosedSome(s: State, closed: set<Id>): State {
    s.(batches := map b | b in s.batches ::
         if b in closed then s.batches[b].(status := JobStatus.InProgress) else s.batches[b],
       queue := s.queue + multiset(closed))
  }

  lemma CloseOneMore(s: State, closed: set<Id>, b: Id)
    requires CanClose(s, b) && b !in closed
    ensures CloseBatch(ClosedSome(s, closed), b) == ClosedSome(s, closed + {b})
  {
    var before, after := CloseBatch(ClosedSome(s, closed), b), ClosedSome(s, closed + {b});
    assert before.batches == after.batches;
    assert before.queue == after.queue;
  }

  lemma CloseNone(s: State)
    ensures ClosedSome(s, {}) == s
  {
    assert ClosedSome(s, {}).batches == s.batches;
  }

  /** A sweep with nothing in between leaves no batch expired and closes no other. */
  lemma SweepClosesExactlyExpired(rules: Rules, s: State, now: int, b: Id)
    requires b in s.batches
    ensures Expired(rules, s, b, now) <==>
      s.batches[b].status == JobStatus.Pending && now - s.batches[b].createdAt > (rules.windowMin + 1) * 60000
    ensures var s' := ClosedSome(s, ExpiredSet(rules, s, now));
      && !Expired(rules, s', b, now)
      && s' == s.(batches := s'.batches, queue := s'.queue) && b in s'.batches
      && s'.batches[b] == s.batches[b].(status := s'.batches[b].status)
      && (CanClose(s, b) && !CanClose(s', b) <==> Expired(rules, s, b, now))
      && (s'.queue[b] == s.queue[b] + (if Expired(rules, s, b, now) then 1 else 0))
  {
  }
}
