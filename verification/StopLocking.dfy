/**
 Concurrent completions on one job, interleaved statement by statement under READ COMMITTED: a call
 sees the committed store plus its own writes. The `FOR UPDATE` lock on the job row makes every such
 interleaving equal to the atomic completions in lock order.
 */
module StopLocking {
  import opened Types
  import opened Transactions
  import opened Invariant
  import opened JobSteps
  import opened Evolution

  /** A statement that has run inside a transaction and is not committed yet. */
  datatype Write = StopWrite(k: Id) | OrderWrite(o: Id) | FinishWrite(j: Id, d: Id)

  datatype Phase =
    | Begin
    | Locked
    | Checked
    | Claimed
    | OrderDone
    | Counted(last: bool)
    | Finished(last: bool)
    | Done(jobCompleted: bool)
    | Failed(outcome: Outcome)
    | Crashed

  /** One call of completeDropOff: the stop and the deliverer it names, and how far it has come. */
  datatype Call = Call(stop: Id, deliverer: Id, phase: Phase, writes: seq<Write>)

  datatype Statements = Statements(db: State, calls: map<Id, Call>, lock: Option<Id>, commits: seq<Id>)

  function ApplyWrite(s: State, w: Write): State {
    match w
    case StopWrite(k) => if k in s.stops then MarkStopDone(s, k) else s
    case OrderWrite(o) => MarkOrderDone(s, o)
    case FinishWrite(j, d) => if CanFinish(s, j, d) then FinishJob(s, j, d) else s
  }

  /** The committed store plus the call's own writes. */
  function View(s: State, writes: seq<Write>): State
    decreases |writes|
  {
    if writes == [] then s else ApplyWrite(View(s, writes[..|writes| - 1]), writes[|writes| - 1])
  }

  predicate Over(phase: Phase) {
    phase.Done? || phase.Failed? || phase.Crashed?
  }

  /** Past the row lock and not yet over. */
  predicate Running(phase: Phase) {
    phase != Begin && !Over(phase)
  }

  function Wrote(c: Call, w: Write, phase: Phase): Call {
    c.(writes := c.writes + [w], phase := phase)
  }

  function Threw(c: Call, outcome: Outcome): Call {
    c.(writes := [], phase := Failed(outcome))
  }

  /** The next statement of a running call, short of the commit, on the committed store `s`. */
  ghost function Statement(s: State, j: Id, c: Call): Call {
    var view := View(s, c.writes);
    match c.phase
    case Locked =>
      if j !in view.jobs then Threw(c, NotFound)
      else if view.jobs[j].delivererId != Some(c.deliverer) then Threw(c, Forbidden)
      else if view.jobs[j].status != JobStatus.InProgress then Threw(c, BadRequest)
      else c.(phase := Checked)
    case Checked => if OpenStop(view, j, c.stop) then Wrote(c, StopWrite(c.stop), Claimed) else Threw(c, Conflict)
    case Claimed =>
      if c.stop in view.stops && OrderOpen(view, view.stops[c.stop].orderId)
      then Wrote(c, OrderWrite(view.stops[c.stop].orderId), OrderDone) else c.(phase := OrderDone)
    case OrderDone => c.(phase := Counted(Unfinished(view, j) == {}))
    case Counted(last) =>
      if !last then c.(phase := Finished(false))
      else if CanFinish(view, j, c.deliverer) then Wrote(c, FinishWrite(j, c.deliverer), Finished(true))
      else Threw(c, Conflict)
    case _ => c
  }

  /** Another call holds the row lock on stop `k` through an uncommitted update. */
  ghost predicate StopRowBusy(calls: map<Id, Call>, p: Id, k: Id) {
    exists q :: q in calls && q != p && StopWrite(k) in calls[q].writes
  }

  function Release(lock: Option<Id>, p: Id): Option<Id> {
    if lock == Some(p) then None else lock
  }

  /** Call `p` runs its next statement on job `j`, or waits. Without `locking` it skips the row lock. */
  ghost function Advance(locking: bool, j: Id, sys: Statements, p: Id): Statements {
    if p !in sys.calls then sys
    else
      var c := sys.calls[p];
      match c.phase
      case Begin =>
        if !locking then sys.(calls := sys.calls[p := c.(phase := Locked)])
        else if sys.lock.Some? then sys
        else sys.(calls := sys.calls[p := c.(phase := Locked)], lock := Some(p))
      case Finished(last) =>
        Statements(View(sys.db, c.writes), sys.calls[p := c.(phase := Done(last), writes := [])],
                   Release(sys.lock, p), sys.commits + [p])
      case _ =>
        if Over(c.phase) || (c.phase == Checked && StopRowBusy(sys.calls, p, c.stop)) then sys
        else
          var c' := Statement(sys.db, j, c);
          sys.(calls := sys.calls[p := c'], lock := if Over(c'.phase) then Release(sys.lock, p) else sys.lock)
  }

  datatype Move = Next(p: Id) | Crash(p: Id)

  ghost function Apply(locking: bool, j: Id, sys: Statements, move: Move): Statements {
    match move
    case Next(p) => Advance(locking, j, sys, p)
    case Crash(p) =>
      if p in sys.calls && !Over(sys.calls[p].phase)
      then sys.(calls := sys.calls[p := sys.calls[p].(phase := Crashed, writes := [])], lock := Release(sys.lock, p))
      else sys
  }

  ghost function Run(locking: bool, j: Id, sys: Statements, moves: seq<Move>): Statements
    decreases |moves|
  {
    if moves == [] then sys else Run(locking, j, Apply(locking, j, sys, moves[0]), moves[1..])
  }

  // ---------------------------------------------------------------- with the lock

  /** What the holder of the lock has established about the committed store. */
  ghost predicate Progress(s: State, j: Id, c: Call) {
    var k, d := c.stop, c.deliverer;
    match c.phase
    case Locked => c.writes == []
    case Checked => c.writes == [] && j in s.jobs && s.jobs[j].delivererId == Some(d)
        && s.jobs[j].status == JobStatus.InProgress
    case Claimed => c.writes == [StopWrite(k)] && CanCompleteStop(s, j, k, d)
    case OrderDone => CanCompleteStop(s, j, k, d) && View(s, c.writes) == StopDone(s, k)
    case Counted(last) =>
      CanCompleteStop(s, j, k, d) && View(s, c.writes) == StopDone(s, k)
          && last == (Unfinished(StopDone(s, k), j) == {})
    case Finished(last) =>
      var r := CompleteStop(s, j, k, d);
      CanCompleteStop(s, j, k, d) && r.outcome == Committed && View(s, c.writes) == r.state && last == r.jobCompleted
    case _ => true
  }

  ghost predicate LockInv(sys: Statements, j: Id) {
    && Inv(sys.db)
    && (forall p :: p in sys.calls ==> (Running(sys.calls[p].phase) <==> sys.lock == Some(p)))
    && (forall p :: p in sys.calls && !Running(sys.calls[p].phase) ==> sys.calls[p].writes == [])
    && (sys.lock.Some? ==> sys.lock.value in sys.calls && Progress(sys.db, j, sys.calls[sys.lock.value]))
  }

  /** Every step but a commit leaves the committed store alone; a commit is one atomic completion. */
  ghost predicate RefinesAtomic(sys: Statements, next: Statements, j: Id, move: Move) {
    if next.commits == sys.commits then next.db == sys.db
    else
      && move.Next? && move.p in sys.calls && move.p in next.calls && sys.lock == Some(move.p)
      && next.commits == sys.commits + [move.p]
      && (var c := sys.calls[move.p];
          var r := CompleteStop(sys.db, j, c.stop, c.deliverer);
          CanCompleteStop(sys.db, j, c.stop, c.deliverer) && r.outcome == Committed
          && next.db == r.state && next.calls == sys.calls[move.p := c.(phase := Done(r.jobCompleted), writes := [])])
  }

  /** A call that gives up does so with the outcome the atomic completion would have had. */
  ghost predicate FailsAtomically(sys: Statements, next: Statements, j: Id, p: Id) {
    p in sys.calls && p in next.calls && next.calls[p].phase.Failed? && !sys.calls[p].phase.Failed? ==>
      var r := CompleteStop(sys.db, j, sys.calls[p].stop, sys.calls[p].deliverer);
      r.state == sys.db && r.outcome == next.calls[p].phase.outcome
  }

  lemma ViewGrows(s: State, writes: seq<Write>, w: Write)
    ensures View(s, writes + [w]) == ApplyWrite(View(s, writes), w)
  {
    assert (writes + [w])[..|writes|] == writes;
  }

  lemma ClaimProgresses(s: State, j: Id, c: Call)
    requires c.phase == Claimed && Progress(s, j, c)
    ensures Progress(s, j, Statement(s, j, c)) && Statement(s, j, c).phase == OrderDone
  {
    var o := s.stops[c.stop].orderId;
    assert View(s, []) == s;
    ViewGrows(s, [], StopWrite(c.stop));
    assert [] + [StopWrite(c.stop)] == c.writes;
    ViewGrows(s, c.writes, OrderWrite(o));
  }

  lemma CountProgresses(s: State, j: Id, c: Call)
    requires Inv(s) && c.phase.Counted? && Progress(s, j, c)
    ensures Progress(s, j, Statement(s, j, c)) && Statement(s, j, c).phase == Finished(c.phase.last)
  {
    hide Inv, StopDone, FinishJob, CanFinish;
    LastStopFinishes(s, j, c.stop, c.deliverer);
    ViewGrows(s, c.writes, FinishWrite(j, c.deliverer));
  }

  /** One statement of the holder: its progress holds, or it throws what the atomic completion throws. */
  lemma StatementProgresses(s: State, j: Id, c: Call)
    requires Inv(s) && Running(c.phase) && !c.phase.Finished? && Progress(s, j, c)
    ensures var c' := Statement(s, j, c);
      && c'.stop == c.stop && c'.deliverer == c.deliverer
      && (if c'.phase.Failed?
          then c'.writes == [] && CompleteStop(s, j, c.stop, c.deliverer) == StopResult(s, c'.phase.outcome, false)
          else Running(c'.phase) && Progress(s, j, c'))
  {
    hide Inv, StopDone, FinishJob, CanFinish;
    assert View(s, []) == s;
    match c.phase
    case Claimed => ClaimProgresses(s, j, c);
    case Counted(last) => CountProgresses(s, j, c);
    case _ =>
  }

  lemma StepRefines(sys: Statements, j: Id, move: Move)
    requires LockInv(sys, j)
    ensures var next := Apply(true, j, sys, move);
            LockInv(next, j) && RefinesAtomic(sys, next, j, move) && FailsAtomically(sys, next, j, move.p)
  {
    hide Inv, Progress, Statement;
    var p := move.p;
    if move.Next? && p in sys.calls && Running(sys.calls[p].phase) {
      HolderRefines(sys, j, p);
    } else if move.Next? && p in sys.calls && sys.calls[p].phase == Begin && sys.lock.None? {
      FreshHolder(sys.db, j, sys.calls[p]);
    }
  }

  lemma FreshHolder(s: State, j: Id, c: Call)
    requires c.writes == []
    ensures Progress(s, j, c.(phase := Locked))
  {
  }

  lemma HolderRefines(sys: Statements, j: Id, p: Id)
    requires LockInv(sys, j) && p in sys.calls && Running(sys.calls[p].phase)
    ensures var next := Apply(true, j, sys, Next(p));
            LockInv(next, j) && RefinesAtomic(sys, next, j, Next(p)) && FailsAtomically(sys, next, j, p)
  {
    hide Inv, Statement, CompleteStop, View;
    var c := sys.calls[p];
    if c.phase.Finished? {
      CompleteStopKeepsInv(sys.db, j, c.stop, c.deliverer);
    } else {
      StatementProgresses(sys.db, j, c);
    }
  }

  // ---------------------------------------------------------------- whole runs

  /** The atomic completions of the calls in `commits`, one after the other. */
  ghost function Atomically(j: Id, s: State, calls: map<Id, Call>, commits: seq<Id>): State
    decreases |commits|
  {
    if commits == [] then s
    else
      var before, p := Atomically(j, s, calls, commits[..|commits| - 1]), commits[|commits| - 1];
      if p in calls then CompleteStop(before, j, calls[p].stop, calls[p].deliverer).state else before
  }

  predicate Finisher(sys: Statements, p: Id) {
    p in sys.calls && sys.calls[p].phase == Done(true)
  }

  /** Calls wait at their first statement, and the job is under way. */
  ghost predicate Start(sys: Statements, j: Id) {
    && Inv(sys.db) && sys.lock.None? && sys.commits == []
    && j in sys.db.jobs && sys.db.jobs[j].status == JobStatus.InProgress
    && forall p :: p in sys.calls ==> sys.calls[p].phase == Begin && sys.calls[p].writes == []
  }

  ghost predicate SameArguments(calls: map<Id, Call>, calls': map<Id, Call>) {
    calls'.Keys == calls.Keys
    && forall p :: p in calls ==> calls'[p].stop == calls[p].stop && calls'[p].deliverer == calls[p].deliverer
  }

  /** The bookkeeping of a run that started in `s0`. */
  ghost predicate Tally(s0: State, sys: Statements, j: Id) {
    && sys.db == Atomically(j, s0, sys.calls, sys.commits)
    && j in sys.db.jobs && Started(sys.db.jobs[j])
    && (forall p :: p in sys.calls ==> (sys.calls[p].phase.Done? <==> p in sys.commits))
    && (forall p :: p in sys.commits ==> p in sys.calls)
    && |Unfinished(s0, j)| == |Unfinished(sys.db, j)| + |sys.commits|
    && (if sys.db.jobs[j].status == JobStatus.Completed
        then sys.commits != [] && forall p :: Finisher(sys, p) <==> p == sys.commits[|sys.commits| - 1]
        else forall p :: !Finisher(sys, p))
  }

  lemma {:induction false} SameReplay(j: Id, s: State, calls: map<Id, Call>, calls': map<Id, Call>, commits: seq<Id>)
    requires SameArguments(calls, calls')
    ensures Atomically(j, s, calls, commits) == Atomically(j, s, calls', commits)
    decreases |commits|
  {
    if commits != [] {
      SameReplay(j, s, calls, calls', commits[..|commits| - 1]);
    }
  }

  lemma ArgumentsStay(locking: bool, j: Id, sys: Statements, move: Move)
    ensures SameArguments(sys.calls, Apply(locking, j, sys, move).calls)
  {
  }

  /** What one committed completion does to the count and to the job. */
  lemma CompletionCounts(s: State, j: Id, k: Id, d: Id)
    requires Inv(s) && CanCompleteStop(s, j, k, d)
    ensures var r := CompleteStop(s, j, k, d);
      && Unfinished(r.state, j) == Unfinished(s, j) - {k} && k in Unfinished(s, j)
      && j in r.state.jobs && Started(r.state.jobs[j])
      && (r.jobCompleted <==> r.state.jobs[j].status == JobStatus.Completed)
  {
    LastStopFinishes(s, j, k, d);
    StopDoneKeepsInv(s, j, k, d);
  }

  lemma QuietMoveTallies(s0: State, sys: Statements, j: Id, move: Move)
    requires Tally(s0, sys, j) && Apply(true, j, sys, move).commits == sys.commits
    requires Apply(true, j, sys, move).db == sys.db
    ensures Tally(s0, Apply(true, j, sys, move), j)
  {
    hide Unfinished, Statement;
    var next := Apply(true, j, sys, move);
    ArgumentsStay(true, j, sys, move);
    SameReplay(j, s0, sys.calls, next.calls, sys.commits);
    QuietMovePhases(sys, j, move);
    forall p ensures Finisher(next, p) <==> Finisher(sys, p) {
    }
  }

  lemma QuietMovePhases(sys: Statements, j: Id, move: Move)
    requires Apply(true, j, sys, move).commits == sys.commits
    ensures forall p :: p in sys.calls ==>
              var next := Apply(true, j, sys, move);
              p in next.calls
              && (sys.calls[p].phase == next.calls[p].phase
                  || (!sys.calls[p].phase.Done? && !next.calls[p].phase.Done?))
  {
  }

  lemma CommitTallies(s0: State, sys: Statements, next: Statements, j: Id, p: Id)
    requires LockInv(sys, j) && Tally(s0, sys, j) && RefinesAtomic(sys, next, j, Next(p)) && next.commits != sys.commits
    requires SameArguments(sys.calls, next.calls)
    ensures Tally(s0, next, j)
  {
    hide Inv, CompleteStop, Progress;
    var c := sys.calls[p];
    CompletionCounts(sys.db, j, c.stop, c.deliverer);
    SameReplay(j, s0, sys.calls, next.calls, sys.commits);
    assert next.commits[..|next.commits| - 1] == sys.commits;
    assert Unfinished(sys.db, j) == Unfinished(next.db, j) + {c.stop};
    forall q ensures Finisher(next, q) <==> q == p && next.db.jobs[j].status == JobStatus.Completed {
      if q != p { assert !Finisher(sys, q); }
    }
  }

  lemma {:induction false} RunTallies(s0: State, sys: Statements, j: Id, moves: seq<Move>)
    requires LockInv(sys, j) && Tally(s0, sys, j)
    ensures LockInv(Run(true, j, sys, moves), j) && Tally(s0, Run(true, j, sys, moves), j)
    decreases |moves|
  {
    hide LockInv, Tally, Apply, RefinesAtomic;
    if moves != [] {
      var next := Apply(true, j, sys, moves[0]);
      StepRefines(sys, j, moves[0]);
      MoveTallies(s0, sys, j, moves[0]);
      RunTallies(s0, next, j, moves[1..]);
    }
  }

  lemma MoveTallies(s0: State, sys: Statements, j: Id, move: Move)
    requires LockInv(sys, j) && Tally(s0, sys, j) && RefinesAtomic(sys, Apply(true, j, sys, move), j, move)
    ensures Tally(s0, Apply(true, j, sys, move), j)
  {
    hide LockInv, Tally, Apply;
    var next := Apply(true, j, sys, move);
    ArgumentsStay(true, j, sys, move);
    if next.commits == sys.commits {
      QuietMoveTallies(s0, sys, j, move);
    } else {
      CommitTallies(s0, sys, next, j, move.p);
    }
  }

  /**
   Whatever the interleaving: the store is the one the atomic completions give in lock order; while the
   job is not completed no call has reported completion and work is left; once it is, exactly one call
   has, and it is the one that committed the last of the stops that were open.
   */
  lemma ExactlyOneFinisher(sys: Statements, j: Id, moves: seq<Move>)
    requires Start(sys, j)
    ensures var t := Run(true, j, sys, moves);
      && t.db == Atomically(j, sys.db, t.calls, t.commits)
      && j in t.db.jobs && Started(t.db.jobs[j])
      && (if t.db.jobs[j].status == JobStatus.InProgress
          then Unfinished(t.db, j) != {} && forall p :: !Finisher(t, p)
          else
            && |t.commits| == |Unfinished(sys.db, j)| > 0
            && forall p :: Finisher(t, p) <==> p == t.commits[|t.commits| - 1])
  {
    StartTallies(sys, j);
    StartHasWork(sys, j);
    hide *;
    RunTallies(sys.db, sys, j, moves);
    TallyMeans(sys.db, Run(true, j, sys, moves), j);
  }

  lemma StartTallies(sys: Statements, j: Id)
    requires Start(sys, j)
    ensures LockInv(sys, j) && Tally(sys.db, sys, j)
  {
    hide Inv;
  }

  lemma TallyMeans(s0: State, t: Statements, j: Id)
    requires LockInv(t, j) && Tally(s0, t, j) && |Unfinished(s0, j)| > 0
    ensures t.db == Atomically(j, s0, t.calls, t.commits) && j in t.db.jobs && Started(t.db.jobs[j])
    ensures if t.db.jobs[j].status == JobStatus.InProgress
            then Unfinished(t.db, j) != {} && forall p :: !Finisher(t, p)
            else
              && |t.commits| == |Unfinished(s0, j)| > 0
              && forall p :: Finisher(t, p) <==> p == t.commits[|t.commits| - 1]
  {
    LockedStoreHolds(t, j);
    hide Inv, LockInv, Atomically;
    FinishedHasNone(t.db, j);
  }

  lemma StartHasWork(sys: Statements, j: Id)
    requires Start(sys, j)
    ensures |Unfinished(sys.db, j)| > 0
  {
    assert Unfinished(sys.db, j) != {};
  }

  lemma LockedStoreHolds(sys: Statements, j: Id)
    requires LockInv(sys, j)
    ensures Inv(sys.db)
  {
  }

  /** A completed job has no stop left; a started one has. */
  lemma FinishedHasNone(s: State, j: Id)
    requires Inv(s) && j in s.jobs && Started(s.jobs[j])
    ensures Unfinished(s, j) == {} <==> s.jobs[j].status == JobStatus.Completed
  {
    if s.jobs[j].status == JobStatus.Completed {
      forall k | k in s.stops ensures k !in Unfinished(s, j) {
        assert StopPhase(s, k);
      }
    }
  }

  // ---------------------------------------------------------------- without the lock

  /** The writes of a completion of stop `k` up to the count. */
  function StopWrites(s: State, k: Id): seq<Write>
    requires k in s.stops
  {
    if OrderOpen(s, s.stops[k].orderId) then [StopWrite(k), OrderWrite(s.stops[k].orderId)] else [StopWrite(k)]
  }

  lemma MarkingRemoves(s: State, j: Id, k: Id, o: Id)
    requires OpenStop(s, j, k)
    ensures Unfinished(MarkStopDone(s, k), j) == Unfinished(s, j) - {k}
    ensures forall t: State ::
      Unfinished(MarkOrderDone(t, o), j) == Unfinished(t, j) && MarkOrderDone(t, o).jobs == t.jobs
  {
    forall t: State ensures Unfinished(MarkOrderDone(t, o), j) == Unfinished(t, j) {
      assert MarkOrderDone(t, o).stops == t.stops;
    }
  }

  lemma StopWritesView(s: State, s0: State, j: Id, k: Id)
    requires k in s0.stops && OpenStop(s, j, k)
    ensures var t := View(s, StopWrites(s0, k)); t.jobs == s.jobs && Unfinished(t, j) == Unfinished(s, j) - {k}
    ensures s == s0 ==> View(s, StopWrites(s0, k)) == StopDone(s, k)
  {
    hide View, Unfinished, MarkOrderDone;
    var o := s0.stops[k].orderId;
    MarkingRemoves(s, j, k, o);
    EmptyView(s);
    ViewGrows(s, [], StopWrite(k));
    assert [] + [StopWrite(k)] == [StopWrite(k)];
    assert View(s, [StopWrite(k)]) == MarkStopDone(s, k);
    if OrderOpen(s0, o) {
      ViewGrows(s, [StopWrite(k)], OrderWrite(o));
      assert [StopWrite(k)] + [OrderWrite(o)] == [StopWrite(k), OrderWrite(o)];
    } else if s == s0 {
      ClosedOrderStays(MarkStopDone(s, k), o);
    }
  }

  lemma EmptyView(s: State)
    ensures View(s, []) == s
  {
  }

  lemma ClosedOrderStays(s: State, o: Id)
    requires !OrderOpen(s, o)
    ensures MarkOrderDone(s, o) == s
  {
  }

  /** The statements of one call up to its count, on a store that does not change meanwhile. */
  lemma StatementsToCount(s: State, j: Id, c: Call)
    requires c.writes == [] && CanCompleteStop(s, j, c.stop, c.deliverer) && Unfinished(s, j) != {c.stop}
    ensures Statement(s, j, c.(phase := Locked)) == c.(phase := Checked)
    ensures Statement(s, j, c.(phase := Checked)) == c.(phase := Claimed, writes := [StopWrite(c.stop)])
    ensures Statement(s, j, c.(phase := Claimed, writes := [StopWrite(c.stop)]))
            == c.(phase := OrderDone, writes := StopWrites(s, c.stop))
    ensures Statement(s, j, c.(phase := OrderDone, writes := StopWrites(s, c.stop)))
            == c.(phase := Counted(false), writes := StopWrites(s, c.stop))
  {
    hide Unfinished, View, MarkOrderDone;
    EmptyView(s);
    ViewGrows(s, [], StopWrite(c.stop));
    assert [] + [StopWrite(c.stop)] == [StopWrite(c.stop)];
    assert [StopWrite(c.stop)] + [OrderWrite(s.stops[c.stop].orderId)]
        == [StopWrite(c.stop), OrderWrite(s.stops[c.stop].orderId)];
    StopWritesView(s, s, j, c.stop);
    LastOpenStop(s, j, c.stop);
  }

  lemma AdvanceIsStatement(j: Id, sys: Statements, p: Id)
    requires p in sys.calls && sys.lock.None?
    requires sys.calls[p].phase in {Locked, Checked, Claimed, OrderDone}
    requires sys.calls[p].phase == Checked ==> !StopRowBusy(sys.calls, p, sys.calls[p].stop)
    ensures Advance(false, j, sys, p) == sys.(calls := sys.calls[p := Statement(sys.db, j, sys.calls[p])])
  {
  }

  /** Alone, an unlocked call runs up to its count. */
  lemma CountsAlone(j: Id, sys: Statements, p: Id)
    requires p in sys.calls && sys.calls[p].phase == Begin && sys.calls[p].writes == [] && sys.lock.None?
    requires CanCompleteStop(sys.db, j, sys.calls[p].stop, sys.calls[p].deliverer)
    requires !StopRowBusy(sys.calls, p, sys.calls[p].stop)
    requires Unfinished(sys.db, j) != {sys.calls[p].stop}
    ensures var c := sys.calls[p];
            Run(false, j, sys, [Next(p), Next(p), Next(p), Next(p), Next(p)])
            == sys.(calls := sys.calls[p := c.(phase := Counted(false), writes := StopWrites(sys.db, c.stop))])
  {
    hide Unfinished, StopRowBusy, StopWrites, Statement;
    var c, s := sys.calls[p], sys.db;
    var w := StopWrites(s, c.stop);
    StatementsToCount(s, j, c);
    var locked := sys.(calls := sys.calls[p := c.(phase := Locked)]);
    var checked := sys.(calls := sys.calls[p := c.(phase := Checked)]);
    var claimed := sys.(calls := sys.calls[p := c.(phase := Claimed, writes := [StopWrite(c.stop)])]);
    var ordered := sys.(calls := sys.calls[p := c.(phase := OrderDone, writes := w)]);
    var counted := sys.(calls := sys.calls[p := c.(phase := Counted(false), writes := w)]);
    SameBusy(sys.calls, checked.calls, p, c.stop);
    assert Advance(false, j, sys, p) == locked;
    AdvanceIsStatement(j, locked, p);
    AdvanceIsStatement(j, checked, p);
    AdvanceIsStatement(j, claimed, p);
    AdvanceIsStatement(j, ordered, p);
    FiveMoves(j, sys, locked, checked, claimed, ordered, counted, p);
  }

  lemma SameBusy(calls: map<Id, Call>, calls': map<Id, Call>, p: Id, k: Id)
    requires calls'.Keys == calls.Keys && forall q :: q in calls && q != p ==> calls'[q] == calls[q]
    ensures StopRowBusy(calls', p, k) <==> StopRowBusy(calls, p, k)
  {
  }

  lemma LastOpenStop(s: State, j: Id, k: Id)
    requires OpenStop(s, j, k)
    ensures Unfinished(s, j) == {k} <==> Unfinished(s, j) - {k} == {}
  {
    assert k in Unfinished(s, j);
  }

  lemma FiveMoves(
    j: Id, a: Statements, b: Statements, c: Statements, d: Statements, e: Statements, f: Statements, p: Id)
    requires Advance(false, j, a, p) == b && Advance(false, j, b, p) == c && Advance(false, j, c, p) == d
    requires Advance(false, j, d, p) == e && Advance(false, j, e, p) == f
    ensures Run(false, j, a, [Next(p), Next(p), Next(p), Next(p), Next(p)]) == f
  {
    hide Advance;
    var n := Next(p);
    assert [n, n, n, n, n][1..] == [n, n, n, n] && [n, n, n, n][1..] == [n, n, n];
    assert [n, n, n][1..] == [n, n] && [n, n][1..] == [n] && [n][1..] == [];
    assert Run(false, j, f, []) == f;
    assert Run(false, j, e, [n]) == f;
    assert Run(false, j, d, [n, n]) == f;
    assert Run(false, j, c, [n, n, n]) == f;
    assert Run(false, j, b, [n, n, n, n]) == f;
  }

  /** A call that counted another stop as open commits without finishing the job. */
  lemma CommitsUnfinished(j: Id, sys: Statements, p: Id)
    requires p in sys.calls && sys.calls[p].phase == Counted(false) && sys.lock.None?
    ensures var c := sys.calls[p];
            Run(false, j, sys, [Next(p), Next(p)])
            == Statements(View(sys.db, c.writes), sys.calls[p := c.(phase := Done(false), writes := [])],
                          None, sys.commits + [p])
  {
    var c := sys.calls[p];
    var finished := sys.(calls := sys.calls[p := c.(phase := Finished(false))]);
    assert Advance(false, j, sys, p) == finished;
    assert [Next(p), Next(p)][1..] == [Next(p)] && [Next(p)][1..] == [];
    assert Run(false, j, finished, [Next(p)]) == Advance(false, j, finished, p);
  }

  lemma {:induction false} RunSplits(locking: bool, j: Id, sys: Statements, first: seq<Move>, second: seq<Move>)
    ensures Run(locking, j, sys, first + second) == Run(locking, j, Run(locking, j, sys, first), second)
    decreases |first|
  {
    if first == [] {
      assert first + second == second;
    } else {
      assert (first + second)[1..] == first[1..] + second;
      RunSplits(locking, j, Apply(locking, j, sys, first[0]), first[1..], second);
    }
  }

  /**
   The lock is needed. Without it, two calls for the last two stops can each count the other's stop as
   open; both commit, neither finishes the job, and it stays IN_PROGRESS with nothing left to complete.
   */
  lemma WithoutLockJobHangs(sys: Statements, j: Id, p: Id, q: Id) returns (moves: seq<Move>)
    requires Start(sys, j) && p != q && sys.calls.Keys == {p, q}
    requires CanCompleteStop(sys.db, j, sys.calls[p].stop, sys.calls[p].deliverer)
    requires CanCompleteStop(sys.db, j, sys.calls[q].stop, sys.calls[q].deliverer)
    requires sys.calls[p].stop != sys.calls[q].stop
    requires Unfinished(sys.db, j) == {sys.calls[p].stop, sys.calls[q].stop}
    ensures var t := Run(false, j, sys, moves);
      && t.calls.Keys == {p, q} && t.calls[p].phase == Done(false) && t.calls[q].phase == Done(false)
      && j in t.db.jobs && t.db.jobs[j].status == JobStatus.InProgress && Unfinished(t.db, j) == {}
  {
    hide Inv, Run, StopWrites, View;
    var s, k, l := sys.db, sys.calls[p].stop, sys.calls[q].stop;
    var pCounts := [Next(p), Next(p), Next(p), Next(p), Next(p)];
    var qCounts := [Next(q), Next(q), Next(q), Next(q), Next(q)];
    var pCommits, qCommits := [Next(p), Next(p)], [Next(q), Next(q)];
    CountsAlone(j, sys, p);
    var one := Run(false, j, sys, pCounts);
    WritesNameTheirStop(s, k, l);
    CountsAlone(j, one, q);
    var two := Run(false, j, one, qCounts);
    CommitsUnfinished(j, two, p);
    var three := Run(false, j, two, pCommits);
    StopWritesView(s, s, j, k);
    CommitsUnfinished(j, three, q);
    var four := Run(false, j, three, qCommits);
    assert l in Unfinished(three.db, j);
    StopWritesView(three.db, s, j, l);
    RunSplits(false, j, sys, pCounts, qCounts);
    RunSplits(false, j, sys, pCounts + qCounts, pCommits);
    RunSplits(false, j, sys, pCounts + qCounts + pCommits, qCommits);
    moves := pCounts + qCounts + pCommits + qCommits;
  }

  lemma WritesNameTheirStop(s: State, k: Id, l: Id)
    requires k in s.stops && k != l
    ensures StopWrite(l) !in StopWrites(s, k)
  {
  }
}
