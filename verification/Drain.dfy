/**
 Exact accounting of the work left. Every close, assignment, start and stop lowers the total by one,
 a recovery raises it by one, and while an order is undelivered some lowering step is possible.
 */
module Drain {
  import opened Types
  import opened Transactions
  import opened Invariant
  import opened JobSteps
  import opened OrderSteps
  import opened Dispatch

  // ---------------------------------------------------------------- sums over a map

  ghost function Sum(m: map<Id, nat>): nat
    decreases |m|
  {
    if m == map[] then 0
    else
      var k :| k in m;
      m[k] + Sum(m - {k})
  }

  lemma {:induction false} SumSplits(m: map<Id, nat>, k: Id)
    requires k in m
    ensures Sum(m) == m[k] + Sum(m - {k})
    decreases |m|
  {
    var l :| l in m && Sum(m) == m[l] + Sum(m - {l});
    if k != l {
      SumSplits(m - {l}, k);
      SumSplits(m - {k}, l);
      assert m - {l} - {k} == m - {k} - {l};
    }
  }

  lemma SumAfterWrite(m: map<Id, nat>, k: Id, v: nat)
    ensures Sum(m[k := v]) == Sum(m) - (if k in m then m[k] else 0) + v
  {
    SumSplits(m[k := v], k);
    assert m[k := v] - {k} == m - {k};
    if k in m {
      SumSplits(m, k);
    } else {
      assert m - {k} == m;
    }
  }

  // ---------------------------------------------------------------- ranks

  /** The steps a batch still needs, from open to delivered. */
  ghost function Rank(s: State, b: Id): nat
    requires b in s.batches
  {
    var batch := s.batches[b];
    match batch.status
    case Pending => |batch.orders| + 3
    case Completed => 0
    case _ =>
      if batch.delivererId.None? then |batch.orders| + 2
      else if !HasJob(s.jobs, b) then 0
      else
        var j := JobFor(s.jobs, b);
        if s.jobs[j].status == JobStatus.Assigned then |batch.orders| + 1 else |Unfinished(s, j)|
  }

  ghost function Ranks(s: State): map<Id, nat> {
    map b | b in s.batches :: Rank(s, b)
  }

  ghost function Total(s: State): nat {
    Sum(Ranks(s))
  }

  /** If only batch `b` changes rank, the total changes by as much. */
  lemma OneRankMoves(s: State, s': State, b: Id)
    requires b in s'.batches && s'.batches.Keys == s.batches.Keys + {b}
    requires forall c :: c in s.batches && c != b ==> Rank(s', c) == Rank(s, c)
    ensures Total(s') == Total(s) - (if b in s.batches then Rank(s, b) else 0) + Rank(s', b)
  {
    assert Ranks(s') == Ranks(s)[b := Rank(s', b)];
    SumAfterWrite(Ranks(s), b, Rank(s', b));
  }

  lemma NoRankMoves(s: State, s': State)
    requires s'.batches.Keys == s.batches.Keys
    requires forall c :: c in s.batches ==> Rank(s', c) == Rank(s, c)
    ensures Total(s') == Total(s)
  {
    assert Ranks(s') == Ranks(s);
  }

  /** What the rank of batch `c` depends on. */
  lemma RankStays(s: State, s': State, c: Id)
    requires UniqueBatch(s.jobs) && UniqueBatch(s'.jobs)
    requires c in s.batches && c in s'.batches
    requires s'.batches[c].status == s.batches[c].status && s'.batches[c].delivererId == s.batches[c].delivererId
    requires |s'.batches[c].orders| == |s.batches[c].orders|
    requires forall j :: j in s.jobs && s.jobs[j].batchId == c ==>
               j in s'.jobs && s'.jobs[j] == s.jobs[j] && Unfinished(s', j) == Unfinished(s, j)
    requires forall j :: j in s'.jobs && s'.jobs[j].batchId == c ==> j in s.jobs && s.jobs[j].batchId == c
    ensures Rank(s', c) == Rank(s, c)
  {
    if HasJob(s.jobs, c) {
      var j := JobFor(s.jobs, c);
      assert s'.jobs[j].batchId == c;
    }
  }

  lemma RankOfJob(s: State, j: Id)
    requires Inv(s) && j in s.jobs && Active(s.jobs[j])
    ensures s.jobs[j].batchId in s.batches
    ensures Rank(s, s.jobs[j].batchId) == if s.jobs[j].status == JobStatus.Assigned
                                          then |s.batches[s.jobs[j].batchId].orders| + 1 else |Unfinished(s, j)|
  {
    assert JobLinked(s, j);
  }

  // ---------------------------------------------------------------- one transaction at a time

  lemma CloseLowers(s: State, b: Id)
    requires Inv(s) && CanClose(s, b)
    ensures Total(CloseBatch(s, b)) == Total(s) - 1
  {
    var s' := CloseBatch(s, b);
    assert BatchLinked(s, b);
    forall c | c in s.batches && c != b ensures Rank(s', c) == Rank(s, c) {
      SameUnfinished(s, s');
      RankStays(s, s', c);
    }
    OneRankMoves(s, s', b);
  }

  lemma SameUnfinished(s: State, s': State)
    requires s'.stops == s.stops
    ensures forall j :: Unfinished(s', j) == Unfinished(s, j)
  {
    forall j ensures Unfinished(s', j) == Unfinished(s, j) {
    }
  }

  lemma AssignKeepsOthers(s: State, s': State, b: Id, n: nat, d: Id, j: Id, c: Id)
    requires UniqueBatch(s.jobs) && Claimed(s, s', b, n, d, j) && Rebuilt(s, s', j) && UniqueBatch(s'.jobs)
    requires c in s.batches && c != b
    ensures Rank(s', c) == Rank(s, c)
  {
    forall i | i in s.jobs && s.jobs[i].batchId == c ensures Unfinished(s', i) == Unfinished(s, i) {
      assert i != j;
    }
    RankStays(s, s', c);
  }

  lemma AssignLowers(s: State, b: Id, route: seq<Id>, d: Id, newJob: Id, base: Id)
    requires Inv(s) && newJob !in s.jobs && FreshStopIds(s, base) && Unassigned(s, b) && Idle(s, d)
    requires IsRoute(s.orders, s.batches[b].orders, route)
    ensures Total(Assign(s, b, route, d, newJob, base).state) == Total(s) - 1
  {
    hide Links, Statuses, Stops;
    var j := UpsertTarget(s.jobs, b, newJob);
    var s' := AssignTo(s, b, route, d, j, base);
    AssignKeepsInv(s, b, route, d, newJob, base);
    RebuildIsLocal(s, s', j, base, route);
    forall c | c in s.batches && c != b ensures Rank(s', c) == Rank(s, c) {
      AssignKeepsOthers(s, s', b, |route|, d, j, c);
    }
    RankOfJob(s', j);
    OneRankMoves(s, s', b);
  }

  lemma {:induction false} BlockSize(base: Id, n: nat, block: set<Id>)
    requires forall k :: k in block <==> base <= k < base + n
    ensures |block| == n
    decreases n
  {
    if n == 0 {
      assert block == {};
    } else {
      BlockSize(base, n - 1, block - {base + n - 1});
    }
  }

  /** A job that has just been started has one unfinished stop per order. */
  lemma FullRoute(s: State, j: Id)
    requires Inv(s) && j in s.jobs && s.jobs[j].status == JobStatus.Assigned
    ensures |Unfinished(s, j)| == |s.batches[s.jobs[j].batchId].orders|
  {
    var base: Id, route: seq<Id> :| Routed(s, j, base, route);
    forall k | k in s.stops && s.stops[k].jobId == j ensures OpenStop(s, j, k) {
      assert StopPhase(s, k);
    }
    forall k: Id ensures k in Unfinished(s, j) <==> base <= k < base + |route| {
      if base <= k < base + |route| { assert k in s.stops; }
    }
    BlockSize(base, |route|, Unfinished(s, j));
  }

  /** Rewriting the row of job `j` moves no rank but its own batch's. */
  lemma JobWriteKeepsOthers(s: State, s': State, j: Id, c: Id)
    requires UniqueBatch(s.jobs) && j in s.jobs && c in s.batches && c != s.jobs[j].batchId
    requires s'.jobs.Keys == s.jobs.Keys && s'.jobs[j].batchId == s.jobs[j].batchId
    requires forall i :: i in s.jobs && i != j ==> s'.jobs[i] == s.jobs[i]
    requires c in s'.batches && s'.batches[c] == s.batches[c]
    requires forall k :: k in s.stops ==> k in s'.stops && s'.stops[k].jobId == s.stops[k].jobId
    requires forall k :: k in s'.stops ==> k in s.stops && (s'.stops[k] == s.stops[k] || s.stops[k].jobId == j)
    ensures Rank(s', c) == Rank(s, c)
  {
    forall i | i in s.jobs && i != j ensures Unfinished(s', i) == Unfinished(s, i) {
    }
    RankStays(s, s', c);
  }

  lemma StartLowers(s: State, j: Id, d: Id)
    requires Inv(s) && CanStart(s, j, d)
    ensures Total(StartJob(s, j, d).state) == Total(s) - 1
  {
    hide Links, Statuses, Stops;
    var s' := StartJob(s, j, d).state;
    var b := s.jobs[j].batchId;
    StartKeepsInv(s, j, d);
    SameUnfinished(s, s');
    forall c | c in s.batches && c != b ensures Rank(s', c) == Rank(s, c) {
      JobWriteKeepsOthers(s, s', j, c);
    }
    RankOfJob(s, j);
    RankOfJob(s', j);
    FullRoute(s, j);
    OneRankMoves(s, s', b);
  }

  lemma FinishKeepsOthers(s: State, j: Id, d: Id, c: Id)
    requires UniqueBatch(s.jobs) && CanFinish(s, j, d) && c in s.batches && c != s.jobs[j].batchId
    ensures Rank(FinishJob(s, j, d), c) == Rank(s, c)
  {
    JobWriteKeepsOthers(s, FinishJob(s, j, d), j, c);
  }

  lemma StopDoneKeepsOthers(s: State, j: Id, k: Id, d: Id, c: Id)
    requires UniqueBatch(s.jobs) && CanCompleteStop(s, j, k, d) && c in s.batches && c != s.jobs[j].batchId
    ensures Rank(StopDone(s, k), c) == Rank(s, c)
  {
    JobWriteKeepsOthers(s, StopDone(s, k), j, c);
  }

  /** After a stop that is not the last one. */
  lemma MiddleStopLowers(s: State, j: Id, k: Id, d: Id)
    requires Inv(s) && CanCompleteStop(s, j, k, d) && Unfinished(s, j) != {k} && Inv(StopDone(s, k))
    ensures Total(StopDone(s, k)) == Total(s) - 1
  {
    hide Refs, Links, Statuses, Stops, Rank, StopDone;
    var s' := StopDone(s, k);
    MembersAreUnique(s);
    StopDoneKeepsInv(s, j, k, d);
    StopDoneKeepsJobs(s, k);
    forall c | c in s.batches && c != s.jobs[j].batchId ensures Rank(s', c) == Rank(s, c) {
      StopDoneKeepsOthers(s, j, k, d, c);
    }
    assert k in Unfinished(s, j);
    RankOfJob(s, j);
    RankOfJob(s', j);
    OneRankMoves(s, s', s.jobs[j].batchId);
  }

  lemma MembersAreUnique(s: State)
    requires Refs(s)
    ensures UniqueBatch(s.jobs) && forall j :: j in s.jobs ==> s.jobs[j].batchId in s.batches
  {
  }

  lemma StopDoneKeepsJobs(s: State, k: Id)
    requires k in s.stops
    ensures StopDone(s, k).jobs == s.jobs && StopDone(s, k).batches == s.batches
  {
  }

  /** The last stop takes the rank of the batch from one to zero. */
  lemma LastStopLowers(s: State, j: Id, k: Id, d: Id)
    requires Inv(s) && CanCompleteStop(s, j, k, d) && Unfinished(s, j) == {k}
    requires CanFinish(StopDone(s, k), j, d)
    ensures Total(FinishJob(StopDone(s, k), j, d)) == Total(s) - 1
  {
    hide Links, Statuses, Stops, Rank, StopDone, FinishJob;
    var done := StopDone(s, k);
    var s' := FinishJob(done, j, d);
    StopDoneKeepsJobs(s, k);
    FinishCompletes(done, j, d);
    forall c | c in s.batches && c != s.jobs[j].batchId ensures Rank(s', c) == Rank(s, c) {
      StopDoneKeepsOthers(s, j, k, d, c);
      FinishKeepsOthers(done, j, d, c);
    }
    RankOfJob(s, j);
    OneRankMoves(s, s', s.jobs[j].batchId);
  }

  lemma FinishCompletes(s: State, j: Id, d: Id)
    requires CanFinish(s, j, d)
    ensures FinishJob(s, j, d).batches.Keys == s.batches.Keys
    ensures Rank(FinishJob(s, j, d), s.jobs[j].batchId) == 0
  {
  }

  lemma StopLowers(s: State, j: Id, k: Id, d: Id)
    requires Inv(s) && CanCompleteStop(s, j, k, d)
    ensures Total(CompleteStop(s, j, k, d).state) == Total(s) - 1
  {
    hide Inv, Total, StopDone, FinishJob;
    StopDoneKeepsInv(s, j, k, d);
    LastStopFinishes(s, j, k, d);
    CompleteStopKeepsInv(s, j, k, d);
    if Unfinished(s, j) == {k} {
      LastStopLowers(s, j, k, d);
    } else {
      MiddleStopLowers(s, j, k, d);
    }
  }

  lemma RecoverRaises(s: State, e: Entry)
    requires Inv(s) && EntryHolds(s, e) && e.seen == JobStatus.Assigned && CanRecover(s, e.delivererId, e.jobId)
    ensures Total(RecoverEntry(s, e)) == Total(s) + 1
  {
    var s', j := RecoverEntry(s, e), e.jobId;
    RecoveredRows(s, e);
    MembersAreUnique(s);
    RankOfJob(s, j);
    hide Inv, RecoverEntry, EntryHolds, CanRecover, Active, Rank, Total;
    UnassignedRank(s', s.jobs[j].batchId);
    RecoveredRanks(s, s', j);
    OneRankMoves(s, s', s.jobs[j].batchId);
  }

  lemma UnassignedRank(s: State, b: Id)
    requires b in s.batches && s.batches[b].status == JobStatus.InProgress && s.batches[b].delivererId.None?
    ensures Rank(s, b) == |s.batches[b].orders| + 2
  {
  }

  lemma RecoveredRanks(s: State, s': State, j: Id)
    requires UniqueBatch(s.jobs) && j in s.jobs && s.jobs[j].batchId in s.batches
    requires s'.jobs == s.jobs[j := s.jobs[j].(status := JobStatus.Pending, delivererId := None)]
    requires s'.batches.Keys == s.batches.Keys && s'.stops == s.stops
    requires forall c :: c in s.batches && c != s.jobs[j].batchId ==> s'.batches[c] == s.batches[c]
    ensures forall c :: c in s.batches && c != s.jobs[j].batchId ==> Rank(s', c) == Rank(s, c)
  {
    hide Rank, UniqueBatch;
    forall c | c in s.batches && c != s.jobs[j].batchId ensures Rank(s', c) == Rank(s, c) {
      JobWriteKeepsOthers(s, s', j, c);
    }
  }

  lemma RecoveredRows(s: State, e: Entry)
    requires CanRecover(s, e.delivererId, e.jobId)
    ensures var s', j := RecoverEntry(s, e), e.jobId;
      var b := s.jobs[j].batchId;
      && s'.jobs == s.jobs[j := s.jobs[j].(status := JobStatus.Pending, delivererId := None)]
      && s'.batches == s.batches[b := s.batches[b].(delivererId := None, status := JobStatus.InProgress)]
      && s'.stops == s.stops
  {
  }

  lemma EnterRaises(s: State, s': State, o: Id, b: Id)
    requires Inv(s) && Inv(s') && Enters(s, s', o, b)
    ensures Total(s') == Total(s) + (if b in s.batches then 1 else 4)
  {
    SameUnfinished(s, s');
    forall c | c in s.batches && c != b ensures Rank(s', c) == Rank(s, c) {
      RankStays(s, s', c);
    }
    OneRankMoves(s, s', b);
  }
}
