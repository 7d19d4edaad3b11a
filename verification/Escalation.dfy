/**
 Escalating a started job whose deliverer has gone quiet. One sweeper works through a list it read
 earlier, while heartbeats keep coming in; before each escalation it looks for an earlier one that is
 newer than the `lastSeenAt` it read.
 */
module Escalation {
  import opened Types

  /** DELIVERER_GRACE_MS. */
  const GRACE_MS := 120000

  datatype Row =
    | Escalated(job: Id, at: int)
    | DeliveryIssue(order: Id, job: Id, at: int)

  /** A stale deliverer with a started job, and its `lastSeenAt`, as the query read them. */
  datatype Entry = Entry(deliverer: Id, job: Id, lastSeen: int)

  datatype Sweeper = Listed(entries: seq<Entry>) | Escalating(entry: Entry, rest: seq<Entry>)

  /** `beats` has every heartbeat of each deliverer in order; the last one is its `lastSeenAt`. */
  datatype System = System(now: int, beats: map<Id, seq<int>>, log: seq<Row>, sweeper: Sweeper)

  datatype Action =
    | Later(millis: nat)
    | Beat(deliverer: Id)
    | Look(entries: seq<Entry>)
    | Check
    | Record(orders: seq<Id>)
    | Fail

  const QUIET := System(0, map[], [], Listed([]))

  function BeatsOf(s: System, d: Id): seq<int> {
    if d in s.beats then s.beats[d] else []
  }

  /** The query of checkStaleDeliverers: last seen before the cutoff. A started job keeps its deliverer. */
  predicate Stale(owner: map<Id, Id>, s: System, e: Entry) {
    && e.job in owner && owner[e.job] == e.deliverer
    && var beats := BeatsOf(s, e.deliverer);
       beats != [] && e.lastSeen == beats[|beats| - 1] && e.lastSeen < s.now - GRACE_MS
  }

  /** An escalation newer than the `lastSeenAt` that was read. */
  predicate AlreadyEscalated(log: seq<Row>, e: Entry) {
    exists i :: 0 <= i < |log| && log[i].Escalated? && log[i].job == e.job && e.lastSeen < log[i].at
  }

  function Issues(orders: seq<Id>, job: Id, at: int): seq<Row> {
    if orders == [] then [] else [DeliveryIssue(orders[0], job, at)] + Issues(orders[1..], job, at)
  }

  /** What one escalation writes: the event of the job, then one per order. */
  function Escalation(e: Entry, orders: seq<Id>, at: int): seq<Row> {
    [Escalated(e.job, at)] + Issues(orders, e.job, at)
  }

  function Exec(owner: map<Id, Id>, s: System, a: Action): System {
    match a
    case Later(millis) => s.(now := s.now + millis)
    case Beat(d) => s.(beats := s.beats[d := BeatsOf(s, d) + [s.now]])
    case Look(entries) =>
      if s.sweeper == Listed([]) && forall e :: e in entries ==> Stale(owner, s, e)
      then s.(sweeper := Listed(entries)) else s
    case Check =>
      if !s.sweeper.Listed? || s.sweeper.entries == [] then s
      else
        var e, rest := s.sweeper.entries[0], s.sweeper.entries[1..];
        s.(sweeper := if AlreadyEscalated(s.log, e) then Listed(rest) else Escalating(e, rest))
    case Record(orders) =>
      if !s.sweeper.Escalating? then s
      else s.(log := s.log + Escalation(s.sweeper.entry, orders, s.now), sweeper := Listed(s.sweeper.rest))
    case Fail =>
      match s.sweeper
      case Listed(entries) => if entries == [] then s else s.(sweeper := Listed(entries[1..]))
      case Escalating(_, rest) => s.(sweeper := Listed(rest))
  }

  function Run(owner: map<Id, Id>, s: System, actions: seq<Action>): System
    decreases |actions|
  {
    if actions == [] then s else Run(owner, Exec(owner, s, actions[0]), actions[1..])
  }

  // ---------------------------------------------------------------- invariant

  /** What was read of an entry was true once, and by now. */
  ghost predicate EntryHolds(owner: map<Id, Id>, s: System, e: Entry) {
    && e.job in owner && owner[e.job] == e.deliverer
    && e.lastSeen in BeatsOf(s, e.deliverer) && e.lastSeen <= s.now
  }

  ghost predicate SweeperHolds(owner: map<Id, Id>, s: System) {
    match s.sweeper
    case Listed(entries) => forall e :: e in entries ==> EntryHolds(owner, s, e)
    case Escalating(e, rest) =>
      && EntryHolds(owner, s, e) && !AlreadyEscalated(s.log, e)
      && forall f :: f in rest ==> EntryHolds(owner, s, f)
  }

  /** The deliverer of this job sent a heartbeat in `[from, to]`. */
  ghost predicate SeenBetween(owner: map<Id, Id>, s: System, job: Id, from: int, to: int) {
    job in owner && exists t :: t in BeatsOf(s, owner[job]) && from <= t <= to
  }

  predicate BothEscalate(r: Row, q: Row) {
    r.Escalated? && q.Escalated? && r.job == q.job
  }

  /** Between two escalations of one job its deliverer was seen, at or after the first. */
  ghost predicate OncePerWindow(owner: map<Id, Id>, s: System) {
    forall i, j :: 0 <= i < j < |s.log| && BothEscalate(s.log[i], s.log[j]) ==>
      SeenBetween(owner, s, s.log[i].job, s.log[i].at, s.log[j].at)
  }

  ghost predicate Inv(owner: map<Id, Id>, s: System) {
    SweeperHolds(owner, s) && OncePerWindow(owner, s) && forall r :: r in s.log ==> r.at <= s.now
  }

  lemma SeenStays(owner: map<Id, Id>, s: System, s': System, job: Id, from: int, to: int)
    requires SeenBetween(owner, s, job, from, to)
    requires forall d :: BeatsOf(s, d) <= BeatsOf(s', d)
    ensures SeenBetween(owner, s', job, from, to)
  {
    var t :| t in BeatsOf(s, owner[job]) && from <= t <= to;
    assert t in BeatsOf(s', owner[job]);
  }

  lemma OnceStays(owner: map<Id, Id>, s: System, s': System)
    requires OncePerWindow(owner, s) && s'.log == s.log && forall d :: BeatsOf(s, d) <= BeatsOf(s', d)
    ensures OncePerWindow(owner, s')
  {
    forall i, j | 0 <= i < j < |s.log| && BothEscalate(s.log[i], s.log[j])
      ensures SeenBetween(owner, s', s.log[i].job, s.log[i].at, s.log[j].at)
    {
      SeenStays(owner, s, s', s.log[i].job, s.log[i].at, s.log[j].at);
    }
  }

  lemma SweeperStays(owner: map<Id, Id>, s: System, s': System)
    requires SweeperHolds(owner, s) && s'.sweeper == s.sweeper && s'.log == s.log && s.now <= s'.now
    requires forall d :: BeatsOf(s, d) <= BeatsOf(s', d)
    ensures SweeperHolds(owner, s')
  {
    forall e: Entry | EntryHolds(owner, s, e) ensures EntryHolds(owner, s', e) {
      assert BeatsOf(s, e.deliverer) <= BeatsOf(s', e.deliverer);
    }
  }

  lemma MovingOnKeepsSweeper(owner: map<Id, Id>, s: System, a: Action)
    requires SweeperHolds(owner, s) && (a == Check || a == Fail)
    ensures SweeperHolds(owner, Exec(owner, s, a))
  {
    hide AlreadyEscalated;
    var s' := Exec(owner, s, a);
    forall e: Entry | EntryHolds(owner, s, e) ensures EntryHolds(owner, s', e) {
    }
    if s.sweeper.Listed? && s.sweeper.entries != [] {
      assert s.sweeper.entries[0] in s.sweeper.entries;
      assert forall e :: e in s.sweeper.entries[1..] ==> e in s.sweeper.entries;
    }
  }

  /** One row per order, in the orders' order. */
  lemma {:induction false} IssuesAreInOrder(orders: seq<Id>, job: Id, at: int)
    ensures |Issues(orders, job, at)| == |orders|
    ensures forall i :: 0 <= i < |orders| ==> Issues(orders, job, at)[i] == DeliveryIssue(orders[i], job, at)
    decreases |orders|
  {
    if orders != [] {
      IssuesAreInOrder(orders[1..], job, at);
      assert forall i :: 0 < i < |orders| ==> orders[i] == orders[1..][i - 1];
    }
  }

  lemma {:induction false} IssuesRows(orders: seq<Id>, job: Id, at: int)
    ensures forall r :: r in Issues(orders, job, at) ==> r.DeliveryIssue? && r.job == job && r.at == at
  {
    if orders != [] {
      IssuesRows(orders[1..], job, at);
    }
  }

  lemma RecordKeepsInv(owner: map<Id, Id>, s: System, orders: seq<Id>)
    requires Inv(owner, s) && s.sweeper.Escalating?
    ensures Inv(owner, Exec(owner, s, Record(orders)))
  {
    var s', e, n := Exec(owner, s, Record(orders)), s.sweeper.entry, |s.log|;
    var rows := Escalation(e, orders, s.now);
    IssuesRows(orders, e.job, s.now);
    assert forall k :: 0 < k < |rows| ==> rows[k] in Issues(orders, e.job, s.now);
    assert s'.log == s.log + rows;
    forall i, j | 0 <= i < j < |s'.log| && BothEscalate(s'.log[i], s'.log[j])
      ensures SeenBetween(owner, s', s'.log[i].job, s'.log[i].at, s'.log[j].at)
    {
      assert i < n && j <= n;
      if j < n {
        SeenStays(owner, s, s', s.log[i].job, s.log[i].at, s.log[j].at);
      } else {
        assert s'.log[j] == rows[0] && s.log[i].at <= e.lastSeen;
        assert e.lastSeen in BeatsOf(s', owner[e.job]);
      }
    }
    forall r | r in s'.log ensures r.at <= s'.now {
      assert r in s.log || r == rows[0] || r in Issues(orders, e.job, s.now);
    }
  }

  lemma StepKeepsInv(owner: map<Id, Id>, s: System, a: Action)
    requires Inv(owner, s)
    ensures Inv(owner, Exec(owner, s, a))
  {
    var s' := Exec(owner, s, a);
    match a
    case Later(_) =>
      SweeperStays(owner, s, s');
      OnceStays(owner, s, s');
    case Beat(_) =>
      SweeperStays(owner, s, s');
      OnceStays(owner, s, s');
    case Look(_) => OnceStays(owner, s, s');
    case Check =>
      OnceStays(owner, s, s');
      MovingOnKeepsSweeper(owner, s, a);
    case Record(orders) => if s.sweeper.Escalating? { RecordKeepsInv(owner, s, orders); }
    case Fail =>
      OnceStays(owner, s, s');
      MovingOnKeepsSweeper(owner, s, a);
  }

  lemma {:induction false} RunKeepsInv(owner: map<Id, Id>, s: System, actions: seq<Action>)
    requires Inv(owner, s)
    ensures Inv(owner, Run(owner, s, actions))
    decreases |actions|
  {
    hide Inv, Exec;
    if actions != [] {
      StepKeepsInv(owner, s, actions[0]);
      RunKeepsInv(owner, Exec(owner, s, actions[0]), actions[1..]);
    }
  }

  // ---------------------------------------------------------------- guarantees

  /**
   Over any run of sweeps and heartbeats, however stale the list being worked on: between two escalations
   of a job its deliverer was seen, at or after the first.
   */
  lemma SeenBetweenEscalations(owner: map<Id, Id>, actions: seq<Action>, i: nat, j: nat)
    requires var log := Run(owner, QUIET, actions).log;
      i < j < |log| && log[i].Escalated? && log[j].Escalated? && log[i].job == log[j].job
    ensures var s := Run(owner, QUIET, actions);
      SeenBetween(owner, s, s.log[i].job, s.log[i].at, s.log[j].at)
  {
    RunKeepsInv(owner, QUIET, actions);
  }

  lemma SeenWithin(owner: map<Id, Id>, s: System, job: Id, a: int, b: int, from: int, to: int)
    requires SeenBetween(owner, s, job, a, b) && from <= a && b <= to
    ensures SeenBetween(owner, s, job, from, to)
  {
    var t :| t in BeatsOf(s, owner[job]) && a <= t <= b;
  }

  /** So an interval holds two escalations of a job only if it holds a heartbeat of its deliverer. */
  lemma OneEscalationPerSilence(owner: map<Id, Id>, actions: seq<Action>, job: Id, from: int, to: int, i: nat, j: nat)
    requires var log := Run(owner, QUIET, actions).log;
      && i < |log| && j < |log| && log[i].Escalated? && log[j].Escalated? && log[i].job == log[j].job == job
      && from <= log[i].at <= to && from <= log[j].at <= to
    ensures i == j || SeenBetween(owner, Run(owner, QUIET, actions), job, from, to)
  {
    var s := Run(owner, QUIET, actions);
    if i < j {
      SeenBetweenEscalations(owner, actions, i, j);
      SeenWithin(owner, s, job, s.log[i].at, s.log[j].at, from, to);
    } else if j < i {
      SeenBetweenEscalations(owner, actions, j, i);
      SeenWithin(owner, s, job, s.log[j].at, s.log[i].at, from, to);
    }
  }

  /** And a sweep that handles a stale entry without failing leaves an escalation newer than its last sign of life. */
  lemma SilenceIsEscalated(owner: map<Id, Id>, s: System, e: Entry, orders: seq<Id>)
    requires s.sweeper == Listed([e]) && e.lastSeen < s.now - GRACE_MS
    ensures AlreadyEscalated(Run(owner, s, [Check, Record(orders)]).log, e)
  {
    var s1 := Exec(owner, s, Check);
    var s2 := Exec(owner, s1, Record(orders));
    assert [Check, Record(orders)][1..] == [Record(orders)] && [Record(orders)][1..] == [];
    assert Run(owner, s1, [Record(orders)]) == Run(owner, s2, []);
    assert Run(owner, s, [Check, Record(orders)]) == Run(owner, s1, [Record(orders)]);
    if s1.sweeper.Escalating? {
      assert s2.log[|s.log|] == Escalated(e.job, s.now);
    }
  }

  /** A deliverer seen in the last two minutes is not listed, and one seen earlier with a started job may be. */
  lemma GraceIsTwoMinutes(owner: map<Id, Id>, s: System, e: Entry)
    requires s.sweeper == Listed([])
    requires e.job in owner && owner[e.job] == e.deliverer
    requires e.deliverer in s.beats && s.beats[e.deliverer] != []
    ensures Exec(owner, s, Look([e])).sweeper == Listed([e])
      <==> e.lastSeen == s.beats[e.deliverer][|s.beats[e.deliverer]| - 1] && s.now - e.lastSeen > 120000
  {
    assert e in [e];
  }

  // ---------------------------------------------------------------- the service

  class DelivererRecoveryService {
    var log: seq<Row>

    constructor ()
      ensures log == []
    {
      log := [];
    }

    /** `findFirst` over the job's ESCALATED events after `lastSeenAt`. */
    method FindNewer(e: Entry) returns (found: bool)
      ensures found <==> AlreadyEscalated(log, e)
    {
      for i := 0 to |log|
        invariant forall k :: 0 <= k < i ==> !(log[k].Escalated? && log[k].job == e.job && e.lastSeen < log[k].at)
      {
        if log[i].Escalated? && log[i].job == e.job && e.lastSeen < log[i].at {
          return true;
        }
      }
      return false;
    }

    /** A Check and, if it finds nothing, a Record. */
    method EscalateStartedJob(e: Entry, orders: seq<Id>, now: int) returns (escalated: bool)
      modifies this
      ensures escalated <==> !AlreadyEscalated(old(log), e)
      ensures log == if escalated then old(log) + Escalation(e, orders, now) else old(log)
      ensures escalated ==>
        && |log| == |old(log)| + 1 + |orders| && log[..|old(log)|] == old(log)
        && log[|old(log)|] == Escalated(e.job, now)
        && forall i :: 0 <= i < |orders| ==> log[|old(log)| + 1 + i] == DeliveryIssue(orders[i], e.job, now)
    {
      IssuesAreInOrder(orders, e.job, now);
      var found := FindNewer(e);
      if found {
        return false;
      }
      log := log + [Escalated(e.job, now)];
      for i := 0 to |orders|
        invariant old(log) + Escalation(e, orders, now) == log + Issues(orders[i..], e.job, now)
      {
        assert orders[i..][0] == orders[i] && orders[i..][1..] == orders[i + 1..];
        log := log + [DeliveryIssue(orders[i], e.job, now)];
      }
      return true;
    }
  }
}
