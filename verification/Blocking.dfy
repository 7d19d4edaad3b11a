/** How long the rate limiter's block lasts, over any interleaving of the commands of any calls. */
module Blocking {
  import opened Types
  import opened Throttler

  // ---------------------------------------------------------------- the block key

  /** Until `t + blockDuration` the block key exists and speaks of a time no earlier than that. */
  ghost predicate BlocksFrom(l: Limits, s: System, t: int) {
    && t <= s.now && s.block.Some?
    && t + l.blockDuration <= s.block.value.expiresAt && t + l.blockDuration <= s.block.value.until
    && s.block.value.until <= s.now + l.blockDuration
  }

  lemma StepKeepsBlock(l: Limits, s: System, a: Action, t: int)
    requires BlocksFrom(l, s, t)
    ensures BlocksFrom(l, Exec(l, s, a), t)
  {
    hide RefusedRecord, CountedRecord, TimeToExpire, AfterIncr, Window;
  }

  lemma {:induction false} RunKeepsBlock(l: Limits, s: System, actions: seq<Action>, t: int)
    requires BlocksFrom(l, s, t)
    ensures BlocksFrom(l, Run(l, s, actions), t)
    decreases |actions|
  {
    hide Exec, BlocksFrom;
    if actions != [] {
      RunKeepsBlock(l, s, actions[..|actions| - 1], t);
      StepKeepsBlock(l, Run(l, s, actions[..|actions| - 1]), actions[|actions| - 1], t);
    }
  }

  /** Call `c` has its answer from counting, with this step, and it is blocked. */
  predicate BlockedBy(l: Limits, s: System, c: Id) {
    && c in s.calls && s.calls[c].Deciding?
    && var s' := Exec(l, s, Finish(c)); c in s'.calls && s'.calls[c].Counted? && s'.calls[c].record.isBlocked
  }

  lemma BlockIsSet(l: Limits, s: System, c: Id)
    requires BlockedBy(l, s, c)
    ensures var s' := Exec(l, s, Finish(c));
      && l.blockDuration > 0 && s'.now == s.now && BlocksFrom(l, s', s.now)
      && s'.block.value.until == s.now + l.blockDuration
      && s.now + l.blockDuration <= s'.block.value.expiresAt < s.now + l.blockDuration + 1000
  {
  }

  // ---------------------------------------------------------------- a call that meets it

  /** The call has met a block: it counts nothing, and whatever it answers is a refusal. */
  predicate TurnedAway(l: Limits, s: System, d: Id) {
    d in s.calls &&
    match s.calls[d]
    case Refusing => true
    case Refused(record) => record.isBlocked && record.totalHits == l.limit + 1 && record.timeToExpire == 0
    case Lost => true
    case _ => false
  }

  lemma {:induction false} StaysTurnedAway(l: Limits, s: System, actions: seq<Action>, d: Id)
    requires TurnedAway(l, s, d)
    ensures TurnedAway(l, Run(l, s, actions), d)
    decreases |actions|
  {
    hide CountedRecord, NewBlock, TimeToExpire, AfterIncr, Window;
    if actions != [] {
      StaysTurnedAway(l, s, actions[..|actions| - 1], d);
    }
  }

  lemma ArrivesAtBlock(l: Limits, s: System, d: Id)
    requires BlockLive(s) && d !in s.calls
    ensures TurnedAway(l, Exec(l, s, Exists(d)), d)
  {
  }

  /**
   A call was answered blocked by its count at some time. Every other call that looks for the block key less than
   `blockDuration` later finds it, whatever has run in between and whatever runs after: it makes no INCR, and
   the only answer it can ever have is a refusal.
   */
  lemma BlockLasts(l: Limits, s: System, c: Id, between: seq<Action>, d: Id, after: seq<Action>)
    requires BlockedBy(l, s, c)
    requires var mid := Run(l, s, [Finish(c)] + between);
      d !in mid.calls && mid.now < s.now + l.blockDuration
    ensures var end := Run(l, Run(l, s, [Finish(c)] + between), [Exists(d)] + after);
      && d in end.calls
      && !end.calls[d].Counting? && !end.calls[d].Expiring? && !end.calls[d].Timing?
      && !end.calls[d].Deciding? && !end.calls[d].Counted?
      && (end.calls[d].Refused? ==> end.calls[d].record.isBlocked == true)
      && Exec(l, end, IncrHits(d)) == end
  {
    var mid := Run(l, s, [Finish(c)] + between);
    BlockIsSet(l, s, c);
    BlockedSince(l, s, c, between);
    ArrivesAtBlock(l, mid, d);
    RunFirst(l, mid, Exists(d), after);
    hide Exec, Run;
    StaysTurnedAway(l, Exec(l, mid, Exists(d)), after, d);
    CountsNothing(l, Run(l, mid, [Exists(d)] + after), d);
  }

  lemma CountsNothing(l: Limits, s: System, d: Id)
    requires TurnedAway(l, s, d)
    ensures Exec(l, s, IncrHits(d)) == s
  {
  }

  lemma RunFirst(l: Limits, s: System, first: Action, rest: seq<Action>)
    ensures Run(l, s, [first] + rest) == Run(l, Exec(l, s, first), rest)
  {
    hide Exec;
    RunConcat(l, s, [first], rest);
    NothingRuns(l, s);
    assert [first][..0] == [];
    assert Run(l, s, [first]) == Exec(l, Run(l, s, []), first);
  }

  lemma BlockedSince(l: Limits, s: System, c: Id, between: seq<Action>)
    requires BlockedBy(l, s, c)
    ensures BlocksFrom(l, Run(l, s, [Finish(c)] + between), s.now)
  {
    BlockIsSet(l, s, c);
    RunFirst(l, s, Finish(c), between);
    hide Exec, Run, BlocksFrom, BlockedBy;
    RunKeepsBlock(l, Exec(l, s, Finish(c)), between, s.now);
  }

  /**
   What a refused call is told: at least the rest of the block in seconds, rounded up, and never more than a
   whole block; exactly the rest when no other call has been blocked since.
   */
  lemma ToldTheRest(l: Limits, s: System, c: Id, between: seq<Action>, d: Id)
    requires BlockedBy(l, s, c)
    requires var mid := Run(l, s, [Finish(c)] + between);
      d in mid.calls && mid.calls[d].Refusing? && mid.now < s.now + l.blockDuration
    ensures var mid := Run(l, s, [Finish(c)] + between);
            var told := Exec(l, mid, GetBlock(d));
      && d in told.calls && told.calls[d].Refused?
      && var r, left := told.calls[d].record, s.now + l.blockDuration - mid.now;
      && r.isBlocked == true && r.totalHits == l.limit + 1 && r.timeToExpire == 0
      && left <= 1000 * r.timeToBlockExpire < l.blockDuration + 1000
      && (mid.block == Exec(l, s, Finish(c)).block ==> 1000 * r.timeToBlockExpire < left + 1000)
  {
    BlockIsSet(l, s, c);
    BlockedSince(l, s, c, between);
    hide Run, CountedRecord, NewBlock, TimeToExpire, AfterIncr, Window;
  }

  /** And no longer than it says: without another block a call that comes a second later is let count. */
  lemma BlockEnds(l: Limits, s: System, c: Id, between: seq<Action>, d: Id)
    requires BlockedBy(l, s, c)
    requires var mid := Run(l, s, [Finish(c)] + between);
      d !in mid.calls && mid.block == Exec(l, s, Finish(c)).block && mid.now >= s.now + l.blockDuration + 1000
    ensures Exec(l, Run(l, s, [Finish(c)] + between), Exists(d)).calls[d] == Counting
  {
    BlockIsSet(l, s, c);
    hide Run, CountedRecord, NewBlock, TimeToExpire, AfterIncr, Window;
  }
}
