/**
 Who sends an assignment message again, and when. The dispatch runs let a message for a closed batch appear
 at any time, which is safe to assume and too generous for a claim that a run exists. Here a message is sent
 again only as the services do it: the oldest batches without a deliverer first.
 */
module Resends {
  import opened Types
  import opened Batching
  import opened Transactions
  import opened Dispatch

  /** The deliverers that requeueStuckBatches counts. */
  ghost function Free(s: State): set<Id> {
    set d | d in s.deliverers && Idle(s, d)
  }

  /** `b` is among the first `n` of the list. */
  ghost predicate Among(stuck: seq<Id>, b: Id, n: nat) {
    exists i :: 0 <= i < |stuck| && i < n && stuck[i] == b
  }

  /**
   A message for `b` may be sent now: it is the oldest of a list of stuck batches, as afterJobCompleted
   sends it, or among as many of the oldest as there are free deliverers, as requeueStuckBatches does.
   */
  ghost predicate Sendable(s: State, b: Id) {
    exists before: Option<int>, stuck: seq<Id> ::
      StuckListing(s, before, stuck) && (Among(stuck, b, 1) || Among(stuck, b, |Free(s)|))
  }

  /** The step sends nothing that the services would not send, and hires nobody. */
  ghost predicate Obeys(s: State, step: Step) {
    match step
    case Requeued(b) => Sendable(s, b)
    case DelivererAdded(_) => false
    case _ => true
  }

  /** A run of a fixed fleet in which messages are sent again only as the services do it. */
  ghost predicate Faithful(rules: Rules, sys: System, steps: seq<Step>)
    decreases |steps|
  {
    steps != [] ==> Obeys(sys.db, steps[0]) && Faithful(rules, Apply(rules, sys, steps[0]), steps[1..])
  }

  lemma {:induction false} FaithfulConcat(rules: Rules, sys: System, first: seq<Step>, second: seq<Step>)
    requires Faithful(rules, sys, first) && Faithful(rules, Run(rules, sys, first), second)
    ensures Faithful(rules, sys, first + second)
    decreases |first|
  {
    hide Apply, Obeys;
    if first == [] {
      assert first + second == second;
    } else {
      assert (first + second)[1..] == first[1..] + second;
      FaithfulConcat(rules, Apply(rules, sys, first[0]), first[1..], second);
    }
  }

  lemma FaithfulOne(rules: Rules, sys: System, step: Step)
    requires Obeys(sys.db, step)
    ensures Faithful(rules, sys, [step]) && Run(rules, sys, [step]) == Apply(rules, sys, step)
  {
    hide Apply, Obeys;
    assert [step][1..] == [];
    assert Faithful(rules, Apply(rules, sys, step), []);
    assert Run(rules, Apply(rules, sys, step), []) == Apply(rules, sys, step);
  }

  // ---------------------------------------------------------------- the place of a batch in a listing

  function CreatedAt(s: State, b: Id): int {
    if b in s.batches then s.batches[b].createdAt else 0
  }

  /** The batches without a deliverer that are strictly older than `b`. */
  ghost function Older(s: State, b: Id): set<Id> {
    set c | c in s.batches && Unassigned(s, c) && CreatedAt(s, c) < CreatedAt(s, b)
  }

  lemma {:induction false} Oldest(s: State, ids: set<Id>) returns (b: Id)
    requires ids != {}
    ensures b in ids && forall c :: c in ids ==> CreatedAt(s, b) <= CreatedAt(s, c)
    decreases |ids|
  {
    b :| b in ids;
    if ids != {b} {
      var c := Oldest(s, ids - {b});
      if CreatedAt(s, c) < CreatedAt(s, b) { b := c; }
    }
  }

  /** The ids by age. */
  ghost predicate ByAge(s: State, ids: set<Id>, list: seq<Id>) {
    && NoDuplicates(list) && |list| == |ids| && (forall b :: b in list <==> b in ids)
    && (forall i, j :: 0 <= i < j < |list| ==> CreatedAt(s, list[i]) <= CreatedAt(s, list[j]))
  }

  lemma {:induction false} SortByAge(s: State, ids: set<Id>) returns (list: seq<Id>)
    ensures ByAge(s, ids, list)
    decreases |ids|
  {
    if ids == {} {
      list := [];
    } else {
      var b := Oldest(s, ids);
      var rest := SortByAge(s, ids - {b});
      list := [b] + rest;
      assert forall i :: 0 <= i < |rest| ==> rest[i] in rest;
    }
  }

  /** The database may list `b` right after the batches that are strictly older. */
  lemma ListedAfterOlder(s: State, b: Id) returns (stuck: seq<Id>)
    requires Unassigned(s, b)
    ensures StuckListing(s, None, stuck) && |Older(s, b)| < |stuck| && stuck[|Older(s, b)|] == b
  {
    var junior := set c | c in s.batches && Unassigned(s, c) && CreatedAt(s, c) >= CreatedAt(s, b) && c != b;
    var first := SortByAge(s, Older(s, b));
    var last := SortByAge(s, junior);
    stuck := first + [b] + last;
    assert forall c :: c in Older(s, b) || c == b || c in junior <==> Unassigned(s, c);
    JoinedByAge(s, Older(s, b), first, b, junior, last);
    assert forall c :: c in stuck ==> c in s.batches;
  }

  lemma JoinedByAge(s: State, senior: set<Id>, first: seq<Id>, b: Id, junior: set<Id>, last: seq<Id>)
    requires ByAge(s, senior, first) && ByAge(s, junior, last) && b !in senior && b !in junior && senior !! junior
    requires forall c :: c in senior ==> CreatedAt(s, c) <= CreatedAt(s, b)
    requires forall c :: c in junior ==> CreatedAt(s, b) <= CreatedAt(s, c)
    ensures var all := first + [b] + last;
      && NoDuplicates(all) && (forall c :: c in all <==> c in senior || c == b || c in junior)
      && (forall i, j :: 0 <= i < j < |all| ==> CreatedAt(s, all[i]) <= CreatedAt(s, all[j]))
  {
    hide CreatedAt;
    var all := first + [b] + last;
    assert forall i :: 0 <= i < |first| ==> first[i] in first && all[i] == first[i];
    assert forall i :: |first| < i < |all| ==> all[i] == last[i - |first| - 1] && all[i] in last;
  }

  /** With fewer strictly older batches than free deliverers, or none at all, a message may be sent. */
  lemma FewOlderAreSendable(s: State, b: Id)
    requires Unassigned(s, b) && (Older(s, b) == {} || |Older(s, b)| < |Free(s)|)
    ensures Sendable(s, b)
  {
    var stuck := ListedAfterOlder(s, b);
    hide StuckListing, Older, Free;
    if Older(s, b) == {} {
      assert Among(stuck, b, 1);
    } else {
      assert Among(stuck, b, |Free(s)|);
    }
  }

  lemma {:induction false} FitsBefore(stuck: seq<Id>, ids: set<Id>, n: nat)
    requires n <= |stuck| && forall c :: c in ids ==> Among(stuck, c, n)
    ensures |ids| <= n
    decreases n
  {
    if n == 0 {
      assert forall c :: !Among(stuck, c, 0);
      assert ids == {};
    } else {
      var last := stuck[n - 1];
      forall c | c in ids - {last} ensures Among(stuck, c, n - 1) {
        assert Among(stuck, c, n);
      }
      FitsBefore(stuck, ids - {last}, n - 1);
      assert |ids - {last}| >= |ids| - 1;
    }
  }

  /** Whatever the cutoff and however ties fall, the strictly older batches all come first. */
  lemma OlderComeFirst(s: State, before: Option<int>, stuck: seq<Id>, b: Id, ids: set<Id>, n: nat)
    requires StuckListing(s, before, stuck) && Among(stuck, b, n) && ids <= Older(s, b)
    ensures |ids| < n
  {
    var i: nat :| i < |stuck| && i < n && stuck[i] == b;
    assert b in stuck;
    forall c | c in ids ensures Among(stuck, c, i) {
      assert Unassigned(s, c) && c in stuck;
      var k :| 0 <= k < |stuck| && stuck[k] == c;
      assert stuck[i] in s.batches && stuck[k] in s.batches;
    }
    FitsBefore(stuck, ids, i);
  }

  /** A message for `b` leaves no more older batches behind than there are free deliverers. */
  lemma SendableHasFewOlder(s: State, b: Id, ids: set<Id>)
    requires Sendable(s, b) && ids <= Older(s, b)
    ensures ids == {} || |ids| < |Free(s)|
  {
    var before: Option<int>, stuck: seq<Id> :|
      StuckListing(s, before, stuck) && (Among(stuck, b, 1) || Among(stuck, b, |Free(s)|));
    hide StuckListing, Older, Free, Among;
    if Among(stuck, b, 1) {
      OlderComeFirst(s, before, stuck, b, ids, 1);
    } else {
      OlderComeFirst(s, before, stuck, b, ids, |Free(s)|);
    }
  }

  /** So the condition is exact. */
  lemma SendableIff(s: State, b: Id)
    ensures Sendable(s, b) <==> Unassigned(s, b) && (Older(s, b) == {} || |Older(s, b)| < |Free(s)|)
  {
    if Sendable(s, b) {
      SendableHasFewOlder(s, b, Older(s, b));
      var before: Option<int>, stuck: seq<Id> :|
        StuckListing(s, before, stuck) && (Among(stuck, b, 1) || Among(stuck, b, |Free(s)|));
      assert b in stuck;
    } else if Unassigned(s, b) && (Older(s, b) == {} || |Older(s, b)| < |Free(s)|) {
      FewOlderAreSendable(s, b);
    }
  }
}
