/**
 Concurrent mark-ready transactions, interleaved statement by statement under READ COMMITTED, with
 closes landing anywhere in between. The transaction-scoped advisory lock makes each of them equal to
 the atomic find-or-create step, except when a close takes the chosen batch before the commit.
 */
module ReadyLocking {
  import opened Types
  import opened Batching
  import opened Transactions
  import opened Invariant
  import opened OrderSteps
  import opened BatchRuns
  import D = Dispatch
  import G = Guarantees

  datatype Write =
    | ClaimWrite(o: Id, hasFood: bool, now: int)
    | JoinWrite(o: Id, b: Id)
    | OpenWrite(o: Id, b: Id, createdAt: int)
    | EventWrite(o: Id)

  datatype Phase =
    | Begin
    | Claimed
    | Locked
    | Chosen(choice: Option<Id>, open: seq<Id>)
    | Placed(choice: Option<Id>, open: seq<Id>, newBatch: Id)
    | Done
    | Failed(outcome: Outcome)
    | Crashed

  /** One call of vendorMarkReady. */
  datatype Call = Call(o: Id, vendor: Id, hasFood: bool, now: int, phase: Phase, writes: seq<Write>)

  /** A committed effect: a mark-ready with the batch list it amounts to, or a close. */
  datatype Atom = Marked(p: Id, open: seq<Id>, newBatch: Id) | Shut(b: Id)

  datatype Statements = Statements(
    db: State, calls: map<Id, Call>, lock: Option<Id>, locks: seq<Id>, history: seq<Atom>)

  datatype Move =
    | Claim(p: Id)
    | Lock(p: Id)
    | Read(p: Id, open: seq<Id>)
    | Place(p: Id, newBatch: Id)
    | Commit(p: Id)
    | Crash(p: Id)
    | Close(b: Id)

  function ApplyWrite(s: State, w: Write): State {
    if w.o !in s.orders then s
    else
      match w
      case ClaimWrite(o, hasFood, now) => ClaimReady(s, o, hasFood, now)
      case JoinWrite(o, b) => if b in s.batches then JoinBatch(s, o, b) else s
      case OpenWrite(o, b, createdAt) => OpenBatch(s, o, b, createdAt)
      case EventWrite(o) => Append(s, OrderEvent(o, OrderReady))
  }

  function View(s: State, writes: seq<Write>): State
    decreases |writes|
  {
    if writes == [] then s else ApplyWrite(View(s, writes[..|writes| - 1]), writes[|writes| - 1])
  }

  /** The conditional update that claims the order would succeed on `s`. */
  predicate CanClaim(s: State, c: Call) {
    c.o in s.orders && s.orders[c.o].info.vendorId == c.vendor && Readyable(s.orders[c.o].status)
  }

  function ClaimFailure(s: State, c: Call): Outcome {
    if c.o !in s.orders then NotFound
    else if s.orders[c.o].info.vendorId != c.vendor then Forbidden
    else Conflict
  }

  /** Holds the row lock of its order. */
  predicate InFlight(phase: Phase) {
    phase == Claimed || phase == Locked || phase.Chosen? || phase.Placed?
  }

  predicate HoldsLock(phase: Phase) {
    phase == Locked || phase.Chosen? || phase.Placed?
  }

  ghost predicate OrderRowBusy(calls: map<Id, Call>, p: Id, o: Id) {
    exists q :: q in calls && q != p && InFlight(calls[q].phase) && calls[q].o == o
  }

  function ClaimOf(c: Call): Write {
    ClaimWrite(c.o, c.hasFood, c.now)
  }

  function PlaceWrites(c: Call, choice: Option<Id>, newBatch: Id): seq<Write> {
    match choice
    case Some(b) => [ClaimOf(c), JoinWrite(c.o, b), EventWrite(c.o)]
    case None => [ClaimOf(c), OpenWrite(c.o, newBatch, c.now), EventWrite(c.o)]
  }

  function With(sys: Statements, p: Id, c: Call): Statements {
    sys.(calls := sys.calls[p := c])
  }

  function Release(lock: Option<Id>, p: Id): Option<Id> {
    if lock == Some(p) then None else lock
  }

  /** One statement of one call, or a close. A move that cannot be made now changes nothing: it waits. */
  ghost function Apply(rules: Rules, sys: Statements, move: Move): Statements {
    if move.Close? then
      if CanClose(sys.db, move.b)
      then sys.(db := CloseBatch(sys.db, move.b), history := sys.history + [Shut(move.b)])
      else sys
    else if move.p !in sys.calls then sys
    else
      var p, c := move.p, sys.calls[move.p];
      match move
      case Claim(_) =>
        if c.phase != Begin || OrderRowBusy(sys.calls, p, c.o) then sys
        else if CanClaim(sys.db, c) then With(sys, p, c.(phase := Claimed, writes := [ClaimOf(c)]))
        else With(sys, p, c.(phase := Failed(ClaimFailure(sys.db, c))))
      case Lock(_) =>
        if c.phase != Claimed || sys.lock.Some? then sys
        else With(sys, p, c.(phase := Locked)).(lock := Some(p), locks := sys.locks + [p])
      case Read(_, open) =>
        var view := View(sys.db, c.writes);
        if c.phase != Locked || !OpenListing(view, open) || c.o !in view.orders then sys
        else With(sys, p, c.(phase := Chosen(FirstEligible(rules, view, view.orders[c.o].info, open), open)))
      case Place(_, newBatch) =>
        if !c.phase.Chosen? || !FreshBatchId(sys.db, newBatch) then sys
        else With(sys, p, c.(phase := Placed(c.phase.choice, c.phase.open, newBatch),
                             writes := PlaceWrites(c, c.phase.choice, newBatch)))
      case Commit(_) =>
        if !c.phase.Placed? then sys
        else
          With(sys, p, c.(phase := Done, writes := [])).(
            db := View(sys.db, c.writes), lock := Release(sys.lock, p),
            history := sys.history + [Marked(p, StillOpen(sys.db, c.phase.open), c.phase.newBatch)])
      case Crash(_) =>
        if !InFlight(c.phase) then sys
        else With(sys, p, c.(phase := Crashed, writes := [])).(lock := Release(sys.lock, p))
      case Close(_) => sys
  }

  /** The batches of a list that are open in `s`. */
  function StillOpen(s: State, open: seq<Id>): seq<Id> {
    if open == [] then []
    else if CanClose(s, open[0]) then [open[0]] + StillOpen(s, open[1..])
    else StillOpen(s, open[1..])
  }

  ghost function Run(rules: Rules, sys: Statements, moves: seq<Move>): Statements
    decreases |moves|
  {
    if moves == [] then sys else Run(rules, Apply(rules, sys, moves[0]), moves[1..])
  }

  // ---------------------------------------------------------------- what a call has established

  /** The list a call read covers every batch that is open now, and its choice is the first that fits. */
  ghost predicate ChoiceHolds(rules: Rules, s: State, c: Call, choice: Option<Id>, open: seq<Id>) {
    && CanClaim(s, c)
    && NoDuplicates(open)
    && (forall b :: b in open ==> b in s.batches)
    && (forall b :: CanClose(s, b) ==> b in open)
    && (forall i, j :: 0 <= i < j < |open| && open[i] in s.batches && open[j] in s.batches ==>
          s.batches[open[i]].createdAt <= s.batches[open[j]].createdAt)
    && (var view := ClaimReady(s, c.o, c.hasFood, c.now);
        choice == FirstEligible(rules, view, view.orders[c.o].info, open))
  }

  ghost predicate Progress(rules: Rules, s: State, c: Call) {
    match c.phase
    case Claimed => CanClaim(s, c) && c.writes == [ClaimOf(c)]
    case Locked => CanClaim(s, c) && c.writes == [ClaimOf(c)]
    case Chosen(choice, open) => ChoiceHolds(rules, s, c, choice, open) && c.writes == [ClaimOf(c)]
    case Placed(choice, open, newBatch) =>
      && ChoiceHolds(rules, s, c, choice, open) && FreshBatchId(s, newBatch)
      && c.writes == PlaceWrites(c, choice, newBatch)
    case _ => c.writes == []
  }

  ghost predicate ReadyInv(rules: Rules, sys: Statements) {
    && Inv(sys.db)
    && (forall p :: p in sys.calls ==> Progress(rules, sys.db, sys.calls[p]))
    && (forall p :: p in sys.calls ==> (HoldsLock(sys.calls[p].phase) <==> sys.lock == Some(p)))
    && (sys.lock.Some? ==> sys.lock.value in sys.calls)
    && (forall p, q ::
          (p in sys.calls && q in sys.calls && p != q && InFlight(sys.calls[p].phase) && InFlight(sys.calls[q].phase))
          ==> sys.calls[p].o != sys.calls[q].o)
  }

  /** The batch a call is about to commit into is open, or new. */
  predicate LandsOpen(s: State, c: Call) {
    c.phase.Placed? ==> c.phase.choice.None? || CanClose(s, c.phase.choice.value)
  }

  /** The atomic step a commit amounts to, on the store it commits to. */
  ghost function AtomicMark(rules: Rules, s: State, c: Call, open: seq<Id>, newBatch: Id): ReadyResult {
    MarkReady(rules, s, c.o, c.vendor, c.hasFood, c.now, open, newBatch)
  }

  /** A claim that finds nothing to update fails with the error of the atomic step, whatever batches are open. */
  lemma ClaimFailsLikeMark(rules: Rules, s: State, c: Call, open: seq<Id>, newBatch: Id)
    requires !CanClaim(s, c)
    ensures AtomicMark(rules, s, c, open, newBatch).outcome == ClaimFailure(s, c)
    ensures AtomicMark(rules, s, c, open, newBatch).state == s
    ensures ClaimFailure(s, c) == NotFound <==> c.o !in s.orders
    ensures ClaimFailure(s, c) == Forbidden <==> c.o in s.orders && s.orders[c.o].info.vendorId != c.vendor
    ensures ClaimFailure(s, c) == NotFound || ClaimFailure(s, c) == Forbidden || ClaimFailure(s, c) == Conflict
  {
  }

  lemma ViewOne(s: State, w: Write)
    ensures View(s, [w]) == ApplyWrite(s, w)
  {
    assert View(s, []) == s;
    assert [w][..0] == [];
  }

  lemma ViewThree(s: State, u: Write, v: Write, w: Write)
    ensures View(s, [u, v, w]) == ApplyWrite(ApplyWrite(ApplyWrite(s, u), v), w)
  {
    ViewOne(s, u);
    assert [u, v][..1] == [u];
    assert [u, v, w][..2] == [u, v];
  }

  lemma {:induction false} StillOpenIsListing(s: State, open: seq<Id>)
    requires NoDuplicates(open) && forall b :: b in open ==> b in s.batches
    requires forall i, j :: 0 <= i < j < |open| && open[i] in s.batches && open[j] in s.batches ==>
               s.batches[open[i]].createdAt <= s.batches[open[j]].createdAt
    ensures var rest := StillOpen(s, open);
      && NoDuplicates(rest) && (forall b :: b in rest <==> b in open && CanClose(s, b))
      && (forall i, j :: 0 <= i < j < |rest| && rest[i] in s.batches && rest[j] in s.batches ==>
            s.batches[rest[i]].createdAt <= s.batches[rest[j]].createdAt)
    decreases |open|
  {
    if open != [] {
      var tail := open[1..];
      StillOpenIsListing(s, tail);
      var rest := StillOpen(s, tail);
      assert forall b :: b in open <==> b == open[0] || b in tail;
      assert forall i :: 0 <= i < |rest| ==> rest[i] in rest;
      assert forall b :: b in tail ==> b != open[0] && s.batches[open[0]].createdAt <= s.batches[b].createdAt;
    }
  }

  /** Dropping closed batches from the list does not change the choice unless it was dropped itself. */
  lemma {:induction false} ChoiceSurvivesClosing(rules: Rules, s: State, view: State, order: OrderInfo, open: seq<Id>)
    requires FirstEligible(rules, view, order, open).Some? ==>
        CanClose(s, FirstEligible(rules, view, order, open).value)
    ensures FirstEligible(rules, view, order, StillOpen(s, open)) == FirstEligible(rules, view, order, open)
    decreases |open|
  {
    if open != [] {
      var rest := StillOpen(s, open[1..]);
      if !BatchTakes(rules, view, order, open[0]) {
        ChoiceSurvivesClosing(rules, s, view, order, open[1..]);
        if CanClose(s, open[0]) {
          assert ([open[0]] + rest)[1..] == rest;
        }
      } else {
        assert ([open[0]] + rest)[0] == open[0];
      }
    }
  }

  /** A commit into an open or new batch is the atomic step on the store it commits to. */
  lemma CommitIsAtomic(rules: Rules, s: State, c: Call)
    requires Progress(rules, s, c) && c.phase.Placed? && LandsOpen(s, c)
    ensures OpenListing(s, StillOpen(s, c.phase.open))
    ensures var r := AtomicMark(rules, s, c, StillOpen(s, c.phase.open), c.phase.newBatch);
            r.outcome == Committed && View(s, c.writes) == r.state
  {
    ChoiceStands(rules, s, c);
    CommitIsMark(rules, s, c, StillOpen(s, c.phase.open));
  }

  /** Closes since the read have left the choice what it was. */
  lemma ChoiceStands(rules: Rules, s: State, c: Call)
    requires Progress(rules, s, c) && c.phase.Placed? && LandsOpen(s, c)
    ensures OpenListing(s, StillOpen(s, c.phase.open))
    ensures c.o in s.orders
    ensures var view := ClaimReady(s, c.o, c.hasFood, c.now);
      FirstEligible(rules, view, view.orders[c.o].info, StillOpen(s, c.phase.open)) == c.phase.choice
  {
    hide FirstEligible, PlaceWrites;
    StillOpenIsListing(s, c.phase.open);
    var view := ClaimReady(s, c.o, c.hasFood, c.now);
    ChoiceSurvivesClosing(rules, s, view, view.orders[c.o].info, c.phase.open);
  }

  lemma CommitIsMark(rules: Rules, s: State, c: Call, open: seq<Id>)
    requires CanClaim(s, c) && c.phase.Placed? && LandsOpen(s, c)
    requires c.writes == PlaceWrites(c, c.phase.choice, c.phase.newBatch)
    requires var view := ClaimReady(s, c.o, c.hasFood, c.now);
      FirstEligible(rules, view, view.orders[c.o].info, open) == c.phase.choice
    ensures var r := AtomicMark(rules, s, c, open, c.phase.newBatch);
      r.outcome == Committed && View(s, c.writes) == r.state
  {
    hide FirstEligible, ShouldClose, View;
    match c.phase.choice
    case Some(b) => ViewThree(s, ClaimOf(c), JoinWrite(c.o, b), EventWrite(c.o));
    case None => ViewThree(s, ClaimOf(c), OpenWrite(c.o, c.phase.newBatch, c.now), EventWrite(c.o));
  }

  /**
   The join carries no guard on the batch's status. A commit equals some atomic mark-ready exactly when
   the batch it joins is still open; otherwise an order enters a batch that may be on the road already.
   */
  lemma CommitIsAtomicIff(rules: Rules, s: State, c: Call)
    requires Inv(s) && Progress(rules, s, c) && c.phase.Placed?
    ensures (exists open, newBatch ::
               && OpenListing(s, open) && FreshBatchId(s, newBatch)
               && AtomicMark(rules, s, c, open, newBatch).outcome == Committed
               && AtomicMark(rules, s, c, open, newBatch).state == View(s, c.writes))
            <==> LandsOpen(s, c)
  {
    if LandsOpen(s, c) {
      CommitIsAtomic(rules, s, c);
    } else {
      var b := c.phase.choice.value;
      ViewThree(s, ClaimOf(c), JoinWrite(c.o, b), EventWrite(c.o));
      assert OrderPhase(s, c.o);
      JoinedBatch(rules, s, c, b);
      forall open: seq<Id>, newBatch: Id | OpenListing(s, open) && FreshBatchId(s, newBatch)
        ensures AtomicMark(rules, s, c, open, newBatch).state != View(s, c.writes)
      {
        MarkReadyEnters(rules, s, c.o, c.vendor, c.hasFood, c.now, open, newBatch);
      }
    }
  }

  lemma JoinedBatch(rules: Rules, s: State, c: Call, b: Id)
    requires Progress(rules, s, c) && c.phase.Placed? && c.phase.choice == Some(b) && !CanClose(s, b)
    ensures c.o in View(s, c.writes).orders && View(s, c.writes).orders[c.o].batchId == Some(b)
    ensures b in View(s, c.writes).batches && View(s, c.writes).batches[b].status != JobStatus.Pending
  {
    var view := ClaimReady(s, c.o, c.hasFood, c.now);
    FirstEligibleIsListed(rules, view, view.orders[c.o].info, c.phase.open);
    ViewThree(s, ClaimOf(c), JoinWrite(c.o, b), EventWrite(c.o));
  }

  // ---------------------------------------------------------------- every interleaving

  /** A close changes no membership, so it changes no choice. */
  lemma {:induction false} SameMembersSameChoice(
    rules: Rules, s: State, s': State, order: OrderInfo, open: seq<Id>)
    requires s'.orders == s.orders && s'.batches.Keys == s.batches.Keys
    requires forall b :: b in s.batches ==> s'.batches[b].orders == s.batches[b].orders
    ensures FirstEligible(rules, s', order, open) == FirstEligible(rules, s, order, open)
    decreases |open|
  {
    if open != [] {
      SameMembersSameChoice(rules, s, s', order, open[1..]);
    }
  }

  lemma ProgressSurvivesClose(rules: Rules, s: State, c: Call, b: Id)
    requires Progress(rules, s, c) && CanClose(s, b)
    ensures Progress(rules, CloseBatch(s, b), c)
  {
    hide FirstEligible;
    var s' := CloseBatch(s, b);
    if c.phase.Chosen? || c.phase.Placed? {
      var view, view' := ClaimReady(s, c.o, c.hasFood, c.now), ClaimReady(s', c.o, c.hasFood, c.now);
      SameMembersSameChoice(rules, view, view', view.orders[c.o].info, c.phase.open);
    }
  }

  lemma ProgressSurvivesCommit(rules: Rules, s: State, s': State, c: Call, o: Id)
    requires Progress(rules, s, c) && !HoldsLock(c.phase) && (InFlight(c.phase) ==> c.o != o)
    requires o in s'.orders && s'.orders == s.orders[o := s'.orders[o]]
    ensures Progress(rules, s', c)
  {
  }

  lemma CommitKeepsInv(rules: Rules, s: State, c: Call)
    requires Inv(s) && Progress(rules, s, c) && c.phase.Placed? && LandsOpen(s, c)
    ensures var s' := View(s, c.writes);
            Inv(s') && c.o in s'.orders && s'.orders == s.orders[c.o := s'.orders[c.o]]
  {
    CommitIsAtomic(rules, s, c);
    var open := StillOpen(s, c.phase.open);
    MarkReadyKeepsInv(rules, s, c.o, c.vendor, c.hasFood, c.now, open, c.phase.newBatch);
    hide FirstEligible, ChoiceHolds, View;
    MarkReadyEnters(rules, s, c.o, c.vendor, c.hasFood, c.now, open, c.phase.newBatch);
  }

  /** Each commit of the run finds the batch it chose still open. */
  predicate Lands(sys: Statements, move: Move) {
    move.Commit? && move.p in sys.calls ==> LandsOpen(sys.db, sys.calls[move.p])
  }

  /** What one committed effect does to the store. */
  ghost function Effect(rules: Rules, s: State, calls: map<Id, Call>, atom: Atom): State {
    match atom
    case Shut(b) => CloseBatch(s, b)
    case Marked(p, open, newBatch) => if p in calls then AtomicMark(rules, s, calls[p], open, newBatch).state else s
  }

  /** The effect is one the dispatch model allows on `s`: its batch list and new id are true of that store. */
  ghost predicate AtomHolds(rules: Rules, s: State, calls: map<Id, Call>, atom: Atom) {
    match atom
    case Shut(b) => CanClose(s, b)
    case Marked(p, open, newBatch) =>
      && p in calls && OpenListing(s, open) && FreshBatchId(s, newBatch)
      && AtomicMark(rules, s, calls[p], open, newBatch).outcome == Committed
  }

  lemma PlacedIsFresh(rules: Rules, s: State, c: Call)
    requires Progress(rules, s, c) && c.phase.Placed?
    ensures FreshBatchId(s, c.phase.newBatch)
  {
  }

  lemma CommitStep(rules: Rules, sys: Statements, p: Id)
    requires ReadyInv(rules, sys) && p in sys.calls && sys.calls[p].phase.Placed? && LandsOpen(sys.db, sys.calls[p])
    ensures var next := Apply(rules, sys, Commit(p));
            ReadyInv(rules, next) && next.history == sys.history + [next.history[|sys.history|]]
            && next.history[|sys.history|].Marked? && next.history[|sys.history|].p == p
            && next.db == Effect(rules, sys.db, sys.calls, next.history[|sys.history|])
            && AtomHolds(rules, sys.db, sys.calls, next.history[|sys.history|])
  {
    hide Inv, Progress, View;
    var next, c := Apply(rules, sys, Commit(p)), sys.calls[p];
    CommitKeepsInv(rules, sys.db, c);
    CommitIsAtomic(rules, sys.db, c);
    PlacedIsFresh(rules, sys.db, c);
    forall q | q in next.calls ensures Progress(rules, next.db, next.calls[q]) {
      if q != p {
        ProgressSurvivesCommit(rules, sys.db, next.db, sys.calls[q], c.o);
      } else {
        DoneProgress(rules, next.db, next.calls[p]);
      }
    }
  }

  lemma DoneProgress(rules: Rules, s: State, c: Call)
    requires c.writes == [] && (c.phase == Done || c.phase.Failed? || c.phase == Crashed || c.phase == Begin)
    ensures Progress(rules, s, c)
  {
  }

  /** The moves inside a transaction establish what the commit relies on. */
  lemma CallProgresses(rules: Rules, sys: Statements, move: Move)
    requires ReadyInv(rules, sys) && !move.Close? && !move.Commit? && move.p in sys.calls
    ensures Progress(rules, sys.db, Apply(rules, sys, move).calls[move.p])
  {
    hide Inv, Eligible, FirstEligible;
    var c := sys.calls[move.p];
    ViewOne(sys.db, ClaimOf(c));
  }

  lemma QuietStep(rules: Rules, sys: Statements, move: Move)
    requires ReadyInv(rules, sys) && !move.Close? && !move.Commit?
    ensures var next := Apply(rules, sys, move);
            ReadyInv(rules, next) && next.db == sys.db && next.history == sys.history
  {
    MoveIsLocal(rules, sys, move);
    if move.p in sys.calls {
      CallProgresses(rules, sys, move);
      OrdersStayApart(rules, sys, Apply(rules, sys, move), move.p);
    }
    hide Inv, Progress, Apply, InFlight, HoldsLock;
  }

  /** A call is in flight for its order only if it was before, or if no other was. */
  lemma OrdersStayApart(rules: Rules, sys: Statements, next: Statements, p: Id)
    requires ReadyInv(rules, sys) && p in sys.calls && next.calls.Keys == sys.calls.Keys
    requires forall q :: q in sys.calls && q != p ==> next.calls[q] == sys.calls[q]
    requires next.calls[p].o == sys.calls[p].o
    requires InFlight(next.calls[p].phase) ==>
               InFlight(sys.calls[p].phase) || !OrderRowBusy(sys.calls, p, sys.calls[p].o)
    ensures forall q, r ::
      (q in next.calls && r in next.calls && q != r && InFlight(next.calls[q].phase) && InFlight(next.calls[r].phase))
      ==> next.calls[q].o != next.calls[r].o
  {
    hide Inv, Progress, HoldsLock, InFlight;
  }

  /** A statement short of the commit moves one call; it holds the lock afterwards exactly as the lock field says. */
  lemma MoveIsLocal(rules: Rules, sys: Statements, move: Move)
    requires ReadyInv(rules, sys) && !move.Close? && !move.Commit?
    ensures var next := Apply(rules, sys, move);
      && next.db == sys.db && next.history == sys.history && next.calls.Keys == sys.calls.Keys
      && (forall q :: q in sys.calls && q != move.p ==> next.calls[q] == sys.calls[q])
      && (forall q :: q in next.calls ==> (HoldsLock(next.calls[q].phase) <==> next.lock == Some(q)))
      && (next.lock.Some? ==> next.lock.value in next.calls)
      && (move.p in sys.calls ==> next.calls[move.p].o == sys.calls[move.p].o)
      && (move.p in sys.calls && InFlight(next.calls[move.p].phase) ==>
            InFlight(sys.calls[move.p].phase) || !OrderRowBusy(sys.calls, move.p, sys.calls[move.p].o))
  {
    hide Inv, Progress, View, OpenListing, FreshBatchId, CanClaim, FirstEligible, PlaceWrites, ClaimFailure;
  }

  lemma CloseStep(rules: Rules, sys: Statements, b: Id)
    requires ReadyInv(rules, sys) && CanClose(sys.db, b)
    ensures var next := Apply(rules, sys, Close(b));
            ReadyInv(rules, next) && next.history == sys.history + [Shut(b)] && next.db == CloseBatch(sys.db, b)
  {
    hide Inv, Progress;
    CloseKeepsInv(sys.db, b);
    forall p | p in sys.calls ensures Progress(rules, CloseBatch(sys.db, b), sys.calls[p]) {
      ProgressSurvivesClose(rules, sys.db, sys.calls[p], b);
    }
  }

  /** The committed effects, one after the other, each as one atomic step. */
  ghost function Serially(rules: Rules, s: State, calls: map<Id, Call>, history: seq<Atom>): State
    decreases |history|
  {
    if history == [] then s
    else Effect(rules, Serially(rules, s, calls, history[..|history| - 1]), calls, history[|history| - 1])
  }

  /** Every effect of the history is allowed on the store that the effects before it give. */
  ghost predicate Genuine(rules: Rules, s: State, calls: map<Id, Call>, history: seq<Atom>)
    decreases |history|
  {
    history != [] ==>
      var before := history[..|history| - 1];
      && Genuine(rules, s, calls, before)
      && AtomHolds(rules, Serially(rules, s, calls, before), calls, history[|history| - 1])
  }

  ghost predicate SameArguments(calls: map<Id, Call>, calls': map<Id, Call>) {
    && calls'.Keys == calls.Keys
    && forall p :: p in calls ==>
         && calls'[p].o == calls[p].o && calls'[p].vendor == calls[p].vendor
         && calls'[p].hasFood == calls[p].hasFood && calls'[p].now == calls[p].now
  }

  lemma {:induction false} SameSeries(
    rules: Rules, s: State, calls: map<Id, Call>, calls': map<Id, Call>, history: seq<Atom>)
    requires SameArguments(calls, calls')
    ensures Serially(rules, s, calls, history) == Serially(rules, s, calls', history)
    decreases |history|
  {
    if history != [] {
      SameSeries(rules, s, calls, calls', history[..|history| - 1]);
    }
  }

  lemma {:induction false} SameGenuine(
    rules: Rules, s: State, calls: map<Id, Call>, calls': map<Id, Call>, history: seq<Atom>)
    requires SameArguments(calls, calls') && Genuine(rules, s, calls, history)
    ensures Genuine(rules, s, calls', history)
    decreases |history|
  {
    hide Serially;
    if history != [] {
      SameSeries(rules, s, calls, calls', history[..|history| - 1]);
      SameGenuine(rules, s, calls, calls', history[..|history| - 1]);
    }
  }

  lemma ArgumentsStay(rules: Rules, sys: Statements, move: Move)
    ensures SameArguments(sys.calls, Apply(rules, sys, move).calls)
  {
    hide View, OpenListing, FirstEligible;
  }

  /** The calls among `ps` that committed, in the same order. */
  function Committers(calls: map<Id, Call>, ps: seq<Id>): seq<Id> {
    if ps == [] then []
    else
      var before, p := Committers(calls, ps[..|ps| - 1]), ps[|ps| - 1];
      if p in calls && calls[p].phase == Done then before + [p] else before
  }

  /** The mark-readies of a history, in order. */
  function Marks(history: seq<Atom>): seq<Id> {
    if history == [] then []
    else
      var before, atom := Marks(history[..|history| - 1]), history[|history| - 1];
      if atom.Marked? then before + [atom.p] else before
  }

  /** Who has taken the lock, and in which order. */
  ghost predicate LockOrder(sys: Statements) {
    LockMembers(sys) && Committers(sys.calls, sys.locks) == Marks(sys.history)
  }

  /** Each holder is listed once, from its lock on, and the current one is the last. */
  ghost predicate LockMembers(sys: Statements) {
    && NoDuplicates(sys.locks)
    && (forall p :: p in sys.locks ==> p in sys.calls && sys.calls[p].phase != Begin && sys.calls[p].phase != Claimed)
    && (forall p :: p in sys.calls && (HoldsLock(sys.calls[p].phase) || sys.calls[p].phase == Done) ==> p in sys.locks)
    && (sys.lock.Some? ==> sys.locks != [] && sys.locks[|sys.locks| - 1] == sys.lock.value)
  }

  lemma {:induction false} SameCommitters(calls: map<Id, Call>, calls': map<Id, Call>, ps: seq<Id>)
    requires forall p :: p in ps ==> (p in calls && calls[p].phase == Done <==> p in calls' && calls'[p].phase == Done)
    ensures Committers(calls, ps) == Committers(calls', ps)
    decreases |ps|
  {
    if ps != [] {
      assert forall p :: p in ps[..|ps| - 1] ==> p in ps;
      SameCommitters(calls, calls', ps[..|ps| - 1]);
    }
  }

  lemma CommitKeepsLockOrder(rules: Rules, sys: Statements, p: Id)
    requires LockOrder(sys) && p in sys.calls && sys.calls[p].phase.Placed? && sys.lock == Some(p)
    ensures LockOrder(Apply(rules, sys, Commit(p)))
  {
    hide View, StillOpen;
    var next := Apply(rules, sys, Commit(p));
    CommitterListed(sys, next, p);
    hide LockMembers;
    assert next.history[..|next.history| - 1] == sys.history;
    CommitterIsLast(sys.calls, next.calls, sys.locks, p);
  }

  lemma CommitterListed(sys: Statements, next: Statements, p: Id)
    requires LockMembers(sys) && p in sys.calls && sys.calls[p].phase.Placed? && sys.lock == Some(p)
    requires next.calls == sys.calls[p := sys.calls[p].(phase := Done, writes := [])]
    requires next.locks == sys.locks && next.lock == None
    ensures LockMembers(next) && sys.locks != [] && sys.locks[|sys.locks| - 1] == p
    ensures p !in sys.locks[..|sys.locks| - 1]
  {
    var before := sys.locks[..|sys.locks| - 1];
    assert forall i :: 0 <= i < |before| ==> before[i] == sys.locks[i];
  }

  /** The last holder commits: it comes after all who committed before. */
  lemma CommitterIsLast(calls: map<Id, Call>, calls': map<Id, Call>, locks: seq<Id>, p: Id)
    requires locks != [] && locks[|locks| - 1] == p && p !in locks[..|locks| - 1] && p in calls
        && calls[p].phase.Placed?
    requires calls' == calls[p := calls[p].(phase := Done, writes := [])]
    ensures Committers(calls', locks) == Committers(calls, locks) + [p]
  {
    SameCommitters(calls, calls', locks[..|locks| - 1]);
  }

  lemma LockKeepsLockOrder(rules: Rules, sys: Statements, p: Id)
    requires LockOrder(sys)
    ensures LockOrder(Apply(rules, sys, Lock(p)))
  {
    var next := Apply(rules, sys, Lock(p));
    if next != sys {
      LockTaken(sys, next, p);
    }
  }

  lemma LockTaken(sys: Statements, next: Statements, p: Id)
    requires LockOrder(sys) && p in sys.calls && sys.calls[p].phase == Claimed
    requires next == With(sys, p, sys.calls[p].(phase := Locked)).(lock := Some(p), locks := sys.locks + [p])
    ensures LockOrder(next)
  {
    LockerListed(sys, next, p);
    hide LockMembers, Marks;
    SameCommitters(sys.calls, next.calls, sys.locks);
    assert next.locks[..|sys.locks|] == sys.locks;
  }

  lemma LockerListed(sys: Statements, next: Statements, p: Id)
    requires LockMembers(sys) && p in sys.calls && sys.calls[p].phase == Claimed
    requires next == With(sys, p, sys.calls[p].(phase := Locked)).(lock := Some(p), locks := sys.locks + [p])
    ensures LockMembers(next) && p !in sys.locks
  {
    assert p !in sys.locks;
    assert forall q :: q in next.locks <==> q == p || q in sys.locks;
  }

  /** A move that neither takes the lock nor commits. */
  ghost predicate Bystander(sys: Statements, next: Statements) {
    && next.calls.Keys == sys.calls.Keys && next.locks == sys.locks
    && (next.lock == sys.lock || next.lock.None?)
    && (next.history == sys.history || (exists b :: next.history == sys.history + [Shut(b)]))
    && forall p :: p in sys.calls ==>
         && (next.calls[p].phase == Done <==> sys.calls[p].phase == Done)
         && (HoldsLock(next.calls[p].phase) ==> HoldsLock(sys.calls[p].phase))
         && (sys.calls[p].phase != Begin && sys.calls[p].phase != Claimed ==>
               next.calls[p].phase != Begin && next.calls[p].phase != Claimed)
  }

  lemma OtherMovesStandBy(rules: Rules, sys: Statements, move: Move)
    requires !move.Commit? && !move.Lock?
    ensures Bystander(sys, Apply(rules, sys, move))
  {
    hide View, OpenListing, FirstEligible, FreshBatchId, CanClaim, OrderRowBusy;
  }

  lemma BystanderKeepsLockOrder(sys: Statements, next: Statements)
    requires LockOrder(sys) && Bystander(sys, next)
    ensures LockOrder(next)
  {
    SameCommitters(sys.calls, next.calls, sys.locks);
    if next.history != sys.history {
      assert next.history[..|next.history| - 1] == sys.history;
    }
  }

  lemma LockOrderStays(rules: Rules, sys: Statements, move: Move)
    requires ReadyInv(rules, sys) && LockOrder(sys)
    ensures LockOrder(Apply(rules, sys, move))
  {
    hide Inv, Progress, LockOrder, View;
    match move
    case Commit(p) =>
      if p in sys.calls && sys.calls[p].phase.Placed? { CommitKeepsLockOrder(rules, sys, p); }
    case Lock(p) => LockKeepsLockOrder(rules, sys, p);
    case _ =>
      OtherMovesStandBy(rules, sys, move);
      BystanderKeepsLockOrder(sys, Apply(rules, sys, move));
  }

  ghost predicate LandingRun(rules: Rules, sys: Statements, moves: seq<Move>)
    decreases |moves|
  {
    moves != [] ==> Lands(sys, moves[0]) && LandingRun(rules, Apply(rules, sys, moves[0]), moves[1..])
  }

  /** The store is what the history gives, and the history is one of allowed effects. */
  ghost predicate Serial(rules: Rules, s0: State, sys: Statements) {
    sys.db == Serially(rules, s0, sys.calls, sys.history) && Genuine(rules, s0, sys.calls, sys.history)
  }

  lemma StepIsSerial(rules: Rules, s0: State, sys: Statements, move: Move)
    requires ReadyInv(rules, sys) && Lands(sys, move) && Serial(rules, s0, sys)
    ensures ReadyInv(rules, Apply(rules, sys, move)) && Serial(rules, s0, Apply(rules, sys, move))
  {
    hide ReadyInv, Effect, View, AtomHolds;
    var next := Apply(rules, sys, move);
    ArgumentsStay(rules, sys, move);
    SameSeries(rules, s0, sys.calls, next.calls, sys.history);
    SameGenuine(rules, s0, sys.calls, next.calls, sys.history);
    if move.Close? {
      if CanClose(sys.db, move.b) {
        CloseStep(rules, sys, move.b);
        assert next.history[..|next.history| - 1] == sys.history;
        ShutEffect(rules, sys.db, next.calls, move.b);
      }
    } else if move.Commit? {
      if move.p in sys.calls && sys.calls[move.p].phase.Placed? {
        CommitStep(rules, sys, move.p);
        assert next.history[..|next.history| - 1] == sys.history;
        SameEffect(rules, sys.db, sys.calls, next.calls, next.history[|sys.history|]);
      }
    } else {
      QuietStep(rules, sys, move);
    }
  }

  lemma ShutEffect(rules: Rules, s: State, calls: map<Id, Call>, b: Id)
    requires CanClose(s, b)
    ensures Effect(rules, s, calls, Shut(b)) == CloseBatch(s, b) && AtomHolds(rules, s, calls, Shut(b))
  {
  }

  lemma SameEffect(rules: Rules, s: State, calls: map<Id, Call>, calls': map<Id, Call>, atom: Atom)
    requires SameArguments(calls, calls')
    ensures Effect(rules, s, calls, atom) == Effect(rules, s, calls', atom)
    ensures AtomHolds(rules, s, calls, atom) ==> AtomHolds(rules, s, calls', atom)
  {
  }

  lemma {:induction false} RunIsSerial(rules: Rules, s0: State, sys: Statements, moves: seq<Move>)
    requires ReadyInv(rules, sys) && LandingRun(rules, sys, moves) && LockOrder(sys)
    requires Serial(rules, s0, sys)
    ensures var t := Run(rules, sys, moves); ReadyInv(rules, t) && LockOrder(t) && Serial(rules, s0, t)
    decreases |moves|
  {
    hide ReadyInv, LockOrder, Apply, Lands, Serial;
    if moves != [] {
      StepIsSerial(rules, s0, sys, moves[0]);
      LockOrderStays(rules, sys, moves[0]);
      RunIsSerial(rules, s0, Apply(rules, sys, moves[0]), moves[1..]);
    }
  }

  ghost predicate Start(sys: Statements) {
    && Inv(sys.db) && sys.lock.None? && sys.locks == [] && sys.history == []
    && forall p :: p in sys.calls ==> sys.calls[p].phase == Begin && sys.calls[p].writes == []
  }

  /**
   Any interleaving in which no close takes a chosen batch before its commit gives the store that the
   atomic steps give one after the other, each with a true listing of the open batches of its store, and
   with the mark-readies in the order of the advisory lock.
   */
  lemma InterleavingIsSerial(rules: Rules, sys: Statements, moves: seq<Move>)
    requires Start(sys) && LandingRun(rules, sys, moves)
    ensures var t := Run(rules, sys, moves);
      && t.db == Serially(rules, sys.db, t.calls, t.history) && Genuine(rules, sys.db, t.calls, t.history)
      && Marks(t.history) == Committers(t.calls, t.locks)
      && Inv(t.db) && OncePerOrder(t)
  {
    RunIsSerial(rules, sys.db, sys, moves);
    DoubleClickBatchesOnce(rules, sys, moves);
  }

  /** The dispatch step that an effect is. */
  function StepOf(calls: map<Id, Call>, atom: Atom): D.Step {
    match atom
    case Shut(b) => D.BatchClosed(b)
    case Marked(p, open, newBatch) =>
      if p in calls then D.Readied(calls[p].o, calls[p].vendor, calls[p].hasFood, calls[p].now, open, newBatch)
      else D.MessageLost(0)
  }

  lemma EffectIsStep(rules: Rules, sys: D.System, calls: map<Id, Call>, atom: Atom)
    requires G.Reachable(rules, sys) && AtomHolds(rules, sys.db, calls, atom)
    ensures Effect(rules, sys.db, calls, atom) == D.Apply(rules, sys, StepOf(calls, atom)).db
    ensures G.Reachable(rules, D.Apply(rules, sys, StepOf(calls, atom)))
  {
    G.StepStaysReachable(rules, sys, StepOf(calls, atom));
    hide G.Reachable, MarkReady, CloseBatch, OpenListing, FreshBatchId;
  }

  lemma {:induction false} HistoryIsReachable(rules: Rules, sys: D.System, calls: map<Id, Call>, history: seq<Atom>)
    returns (end: D.System)
    requires G.Reachable(rules, sys) && Genuine(rules, sys.db, calls, history)
    ensures G.Reachable(rules, end) && end.db == Serially(rules, sys.db, calls, history)
    decreases |history|
  {
    hide G.Reachable, Effect, AtomHolds;
    if history == [] {
      end := sys;
    } else {
      var before := HistoryIsReachable(rules, sys, calls, history[..|history| - 1]);
      EffectIsStep(rules, before, calls, history[|history| - 1]);
      end := D.Apply(rules, before, StepOf(calls, history[|history| - 1]));
    }
  }

  /**
   From a reachable store every such interleaving leads to a reachable store, so all that holds of the
   atomic runs holds of it: of two open batches the younger one's founder was refused by the older one.
   */
  lemma InterleavingKeepsBatchesApart(rules: Rules, sys: Statements, from: D.System, moves: seq<Move>, b: Id, c: Id)
    requires Start(sys) && LandingRun(rules, sys, moves) && G.Reachable(rules, from) && from.db == sys.db
    requires Triangle(rules.dist)
    requires var t := Run(rules, sys, moves); CanClose(t.db, b) && CanClose(t.db, c) && b < c
    ensures var t := Run(rules, sys, moves);
      Members(t.db, c) != [] && !Eligible(rules, Members(t.db, c)[0], Members(t.db, b))
  {
    InterleavingIsSerial(rules, sys, moves);
    var t := Run(rules, sys, moves);
    var end := HistoryIsReachable(rules, from, t.calls, t.history);
    OpenBatchesDiffer(rules, end, b, c);
  }

  lemma LandsWithoutClose(rules: Rules, sys: Statements, move: Move)
    requires ReadyInv(rules, sys) && OpenChoices(sys) && !move.Close?
    ensures Lands(sys, move) && OpenChoices(Apply(rules, sys, move))
  {
    hide Inv;
    var next := Apply(rules, sys, move);
    match move
    case Read(p, open) =>
      if p in sys.calls && sys.calls[p].phase == Locked {
        var c := sys.calls[p];
        ViewOne(sys.db, ClaimOf(c));
        var view := ClaimReady(sys.db, c.o, c.hasFood, c.now);
        FirstEligibleIsListed(rules, view, view.orders[c.o].info, open);
      }
    case _ =>
  }

  /** Every batch that a call has chosen is open. */
  ghost predicate OpenChoices(sys: Statements) {
    forall p :: p in sys.calls ==>
      var phase := sys.calls[p].phase;
      phase.Chosen? || phase.Placed? ==> phase.choice.None? || CanClose(sys.db, phase.choice.value)
  }

  /** Without closes every commit lands in an open batch, so the theorem covers every interleaving. */
  lemma {:induction false} RunWithoutClosesLands(rules: Rules, sys: Statements, moves: seq<Move>)
    requires ReadyInv(rules, sys) && OpenChoices(sys) && forall i :: 0 <= i < |moves| ==> !moves[i].Close?
    ensures LandingRun(rules, sys, moves)
    decreases |moves|
  {
    hide ReadyInv, OpenChoices, Apply, Lands;
    if moves != [] {
      var next := Apply(rules, sys, moves[0]);
      LandsWithoutClose(rules, sys, moves[0]);
      if moves[0].Commit? && moves[0].p in sys.calls && sys.calls[moves[0].p].phase.Placed? {
        assert LandsOpen(sys.db, sys.calls[moves[0].p]) by { LandsMeansOpen(sys, moves[0]); }
      }
      StepKeepsReadyInv(rules, sys, moves[0]);
      RunWithoutClosesLands(rules, next, moves[1..]);
    }
  }

  lemma LandsMeansOpen(sys: Statements, move: Move)
    requires Lands(sys, move) && move.Commit? && move.p in sys.calls
    ensures LandsOpen(sys.db, sys.calls[move.p])
  {
  }

  lemma StepKeepsReadyInv(rules: Rules, sys: Statements, move: Move)
    requires ReadyInv(rules, sys) && Lands(sys, move)
    ensures ReadyInv(rules, Apply(rules, sys, move))
  {
    if move.Close? {
      if CanClose(sys.db, move.b) { CloseStep(rules, sys, move.b); }
    } else if move.Commit? {
      if move.p in sys.calls && sys.calls[move.p].phase.Placed? { CommitStep(rules, sys, move.p); }
    } else {
      QuietStep(rules, sys, move);
    }
  }

  // ---------------------------------------------------------------- double clicks

  /** A committed call has put its order into a batch, and no other call has committed for that order. */
  ghost predicate OncePerOrder(sys: Statements) {
    && (forall p :: p in sys.calls && sys.calls[p].phase == Done ==>
          sys.calls[p].o in sys.db.orders && sys.db.orders[sys.calls[p].o].batchId.Some?)
    && (forall p, q :: (p in sys.calls && q in sys.calls && p != q && sys.calls[p].phase == Done
          && sys.calls[q].phase == Done)
          ==> sys.calls[p].o != sys.calls[q].o)
  }

  lemma CommitBatchesOrder(rules: Rules, s: State, c: Call)
    requires Inv(s) && Progress(rules, s, c) && c.phase.Placed? && LandsOpen(s, c)
    ensures var s' := View(s, c.writes);
      && c.o in s.orders && s.orders[c.o].batchId.None?
      && c.o in s'.orders && s'.orders[c.o].batchId.Some? && s'.orders == s.orders[c.o := s'.orders[c.o]]
  {
    CommitIsAtomic(rules, s, c);
    assert OrderPhase(s, c.o);
    hide FirstEligible, ChoiceHolds, View;
    MarkReadyEnters(rules, s, c.o, c.vendor, c.hasFood, c.now, StillOpen(s, c.phase.open), c.phase.newBatch);
  }

  lemma StepKeepsOnce(rules: Rules, sys: Statements, move: Move)
    requires ReadyInv(rules, sys) && Lands(sys, move) && OncePerOrder(sys)
    ensures OncePerOrder(Apply(rules, sys, move))
  {
    hide Inv, Progress, View, OpenListing, FirstEligible, CanClaim;
    if move.Commit? && move.p in sys.calls && sys.calls[move.p].phase.Placed? {
      CommitBatchesOrder(rules, sys.db, sys.calls[move.p]);
    }
  }

  /** Two clicks on one order: at most one of the calls commits, so the order is batched once. */
  lemma {:induction false} DoubleClickBatchesOnce(rules: Rules, sys: Statements, moves: seq<Move>)
    requires ReadyInv(rules, sys) && OncePerOrder(sys) && LandingRun(rules, sys, moves)
    ensures OncePerOrder(Run(rules, sys, moves))
    decreases |moves|
  {
    hide ReadyInv, OncePerOrder, Apply, Lands;
    if moves != [] {
      StepKeepsReadyInv(rules, sys, moves[0]);
      StepKeepsOnce(rules, sys, moves[0]);
      DoubleClickBatchesOnce(rules, Apply(rules, sys, moves[0]), moves[1..]);
    }
  }

  // ---------------------------------------------------------------- what goes wrong, and when

  /** A call that has not begun, whose claim would succeed and whose order no other call holds. */
  ghost predicate CanBegin(sys: Statements, p: Id) {
    && p in sys.calls && sys.calls[p].phase == Begin && sys.calls[p].writes == []
    && CanClaim(sys.db, sys.calls[p]) && !OrderRowBusy(sys.calls, p, sys.calls[p].o)
  }

  /** The store as a call sees it after its claim. */
  function SeenBy(s: State, c: Call): State
    requires c.o in s.orders
  {
    ClaimReady(s, c.o, c.hasFood, c.now)
  }

  /** The call after its claim, the lock and the read of `open`. */
  function AfterRead(rules: Rules, s: State, c: Call, open: seq<Id>): Call
    requires c.o in s.orders
  {
    var view := SeenBy(s, c);
    c.(phase := Chosen(FirstEligible(rules, view, view.orders[c.o].info, open), open), writes := [ClaimOf(c)])
  }

  /** A call up to its choice. The lock is taken whoever holds it. */
  lemma ReadsOpen(rules: Rules, sys: Statements, p: Id, open: seq<Id>)
    requires CanBegin(sys, p) && OpenListing(SeenBy(sys.db, sys.calls[p]), open)
    ensures var claimed := Apply(rules, sys, Claim(p));
      var locked := Apply(rules, claimed.(lock := None), Lock(p));
      claimed.lock == sys.lock && Apply(rules, locked, Read(p, open))
        == With(sys, p, AfterRead(rules, sys.db, sys.calls[p], open)).(lock := Some(p), locks := sys.locks + [p])
  {
    hide OpenListing, FirstEligible, View;
    var c := sys.calls[p];
    ViewOne(sys.db, ClaimOf(c));
    var claimed := Apply(rules, sys, Claim(p));
    assert claimed == With(sys, p, c.(phase := Claimed, writes := [ClaimOf(c)]));
    var locked := Apply(rules, claimed.(lock := None), Lock(p));
    assert locked
        == With(sys, p, c.(phase := Locked, writes := [ClaimOf(c)])).(lock := Some(p), locks := sys.locks + [p]);
    assert Apply(rules, locked, Read(p, open)).calls == sys.calls[p := AfterRead(rules, sys.db, c, open)];
  }

  /** Placing and committing a call that has chosen. */
  lemma PlacesAndCommits(rules: Rules, sys: Statements, p: Id, newBatch: Id)
    requires p in sys.calls && sys.calls[p].phase.Chosen? && FreshBatchId(sys.db, newBatch)
    ensures var c := sys.calls[p];
      var t := Apply(rules, Apply(rules, sys, Place(p, newBatch)), Commit(p));
      && t.db == View(sys.db, PlaceWrites(c, c.phase.choice, newBatch))
      && t.calls == sys.calls[p := c.(phase := Done, writes := [])] && t.locks == sys.locks
      && t.history == sys.history + [Marked(p, StillOpen(sys.db, c.phase.open), newBatch)]
  {
    hide View, StillOpen, PlaceWrites;
  }

  /** The lock statement goes through at once, as if there were no lock. */
  ghost function ApplyUnlocked(rules: Rules, sys: Statements, move: Move): Statements {
    if move.Lock? then Apply(rules, sys.(lock := None), move) else Apply(rules, sys, move)
  }

  ghost function RunUnlocked(rules: Rules, sys: Statements, moves: seq<Move>): Statements
    decreases |moves|
  {
    if moves == [] then sys else RunUnlocked(rules, ApplyUnlocked(rules, sys, moves[0]), moves[1..])
  }

  /** Two calls that both read before either commits. */
  function BothRead(p: Id, q: Id, n: Id): seq<Move> {
    [Claim(p), Lock(p), Read(p, [])] + [Claim(q), Lock(q), Read(q, [])]
    + [Place(p, n), Commit(p)] + [Place(q, n + 1), Commit(q)]
  }

  lemma {:induction false} UnlockedSplits(rules: Rules, sys: Statements, first: seq<Move>, second: seq<Move>)
    ensures RunUnlocked(rules, sys, first + second) == RunUnlocked(rules, RunUnlocked(rules, sys, first), second)
    decreases |first|
  {
    hide ApplyUnlocked;
    if first == [] {
      assert first + second == second;
    } else {
      assert (first + second)[1..] == first[1..] + second;
      UnlockedSplits(rules, ApplyUnlocked(rules, sys, first[0]), first[1..], second);
    }
  }

  lemma UnlockedTwo(rules: Rules, sys: Statements, a: Move, b: Move)
    ensures RunUnlocked(rules, sys, [a, b]) == ApplyUnlocked(rules, ApplyUnlocked(rules, sys, a), b)
  {
    hide ApplyUnlocked;
    assert [a, b][1..] == [b] && [b][1..] == [];
    assert RunUnlocked(rules, ApplyUnlocked(rules, sys, a), [b])
        == ApplyUnlocked(rules, ApplyUnlocked(rules, sys, a), b);
  }

  lemma UnlockedThree(rules: Rules, sys: Statements, a: Move, b: Move, c: Move)
    ensures RunUnlocked(rules, sys, [a, b, c])
      == ApplyUnlocked(rules, ApplyUnlocked(rules, ApplyUnlocked(rules, sys, a), b), c)
  {
    hide ApplyUnlocked;
    assert [a, b, c][1..] == [b, c];
    UnlockedTwo(rules, ApplyUnlocked(rules, sys, a), b, c);
  }

  /** What a call that found no batch commits. */
  lemma FoundsBatch(s: State, c: Call, n: Id)
    requires CanClaim(s, c)
    ensures var s' := View(s, PlaceWrites(c, None, n));
      && s'.batches == s.batches[n := Batch(JobStatus.Pending, None, c.now, [c.o])]
      && s'.orders == s.orders[c.o := SeenBy(s, c).orders[c.o].(batchId := Some(n))]
  {
    ViewThree(s, ClaimOf(c), OpenWrite(c.o, n, c.now), EventWrite(c.o));
  }

  /** Two calls for different orders could begin on a store without an open batch, and `n` is the next batch id. */
  ghost predicate CanRace(sys: Statements, p: Id, q: Id, n: Id) {
    && CanBegin(sys, p) && CanBegin(sys, q) && p != q && sys.calls[p].o != sys.calls[q].o
    && (forall b :: !CanClose(sys.db, b)) && FreshBatchId(sys.db, n)
  }

  /** Both calls have read, and each has chosen to found a batch. */
  lemma BothChoose(rules: Rules, sys: Statements, p: Id, q: Id, n: Id)
    requires CanRace(sys, p, q, n)
    ensures var t := RunUnlocked(rules, sys, [Claim(p), Lock(p), Read(p, [])] + [Claim(q), Lock(q), Read(q, [])]);
      && t.db == sys.db && t.history == sys.history
      && t.calls == sys.calls[p := AfterRead(rules, sys.db, sys.calls[p], [])]
                             [q := AfterRead(rules, sys.db, sys.calls[q], [])]
  {
    hide Apply, RunUnlocked, AfterRead;
    UnlockedSplits(rules, sys, [Claim(p), Lock(p), Read(p, [])], [Claim(q), Lock(q), Read(q, [])]);
    UnlockedThree(rules, sys, Claim(p), Lock(p), Read(p, []));
    NoneOpen(sys.db, SeenBy(sys.db, sys.calls[p]));
    ReadsOpen(rules, sys, p, []);
    var one := RunUnlocked(rules, sys, [Claim(p), Lock(p), Read(p, [])]);
    OtherCanBegin(rules, sys, one, p, q);
    UnlockedThree(rules, one, Claim(q), Lock(q), Read(q, []));
    NoneOpen(sys.db, SeenBy(sys.db, sys.calls[q]));
    ReadsOpen(rules, one, q, []);
  }

  lemma NoneOpen(s: State, view: State)
    requires (forall b :: !CanClose(s, b)) && view.batches == s.batches
    ensures OpenListing(view, [])
  {
    forall b | b in view.batches ensures view.batches[b].status != JobStatus.Pending {
      assert !CanClose(s, b);
    }
  }

  lemma OtherCanBegin(rules: Rules, sys: Statements, one: Statements, p: Id, q: Id)
    requires CanBegin(sys, p) && CanBegin(sys, q) && p != q && sys.calls[p].o != sys.calls[q].o
    requires one.db == sys.db && one.calls == sys.calls[p := AfterRead(rules, sys.db, sys.calls[p], [])]
    ensures CanBegin(one, q)
  {
  }

  /**
   The lock is needed. Without it two calls that could share a batch each found one: the store is none
   that allowed effects give, and the younger batch's founder fits into the older one.
   */
  lemma WithoutLockBatchesTwice(rules: Rules, sys: Statements, p: Id, q: Id, n: Id)
    requires Start(sys) && CanRace(sys, p, q, n)
    requires var c, d := sys.calls[p], sys.calls[q];
      Eligible(rules, ReadyInfo(sys.db, d.o, d.hasFood), [ReadyInfo(sys.db, c.o, c.hasFood)])
    ensures var t := RunUnlocked(rules, sys, BothRead(p, q, n));
      && CanClose(t.db, n) && CanClose(t.db, n + 1)
      && Members(t.db, n + 1) != [] && Eligible(rules, Members(t.db, n + 1)[0], Members(t.db, n))
      && !Genuine(rules, sys.db, t.calls, t.history)
  {
    hide Apply, RunUnlocked, Eligible, View, Genuine;
    var c, d := sys.calls[p], sys.calls[q];
    var bothRead := [Claim(p), Lock(p), Read(p, [])] + [Claim(q), Lock(q), Read(q, [])];
    BothChoose(rules, sys, p, q, n);
    var two := RunUnlocked(rules, sys, bothRead);
    UnlockedTwo(rules, two, Place(p, n), Commit(p));
    PlacesAndCommits(rules, two, p, n);
    FoundsBatch(sys.db, c, n);
    var three := RunUnlocked(rules, two, [Place(p, n), Commit(p)]);
    UnlockedTwo(rules, three, Place(q, n + 1), Commit(q));
    PlacesAndCommits(rules, three, q, n + 1);
    FoundsBatch(three.db, d, n + 1);
    UnlockedSplits(rules, sys, bothRead, [Place(p, n), Commit(p)]);
    UnlockedSplits(rules, sys, bothRead + [Place(p, n), Commit(p)], [Place(q, n + 1), Commit(q)]);
    var t := RunUnlocked(rules, sys, BothRead(p, q, n));
    assert t.history == [Marked(p, [], n), Marked(q, [], n + 1)];
    assert Members(t.db, n) == [ReadyInfo(sys.db, c.o, c.hasFood)];
    assert Members(t.db, n + 1) == [ReadyInfo(sys.db, d.o, d.hasFood)];
    FoundedTwiceIsNotGenuine(rules, sys.db, t.calls, t.history, p, q, n);
  }

  lemma FoundedTwiceIsNotGenuine(
    rules: Rules, s: State, calls: map<Id, Call>, history: seq<Atom>, p: Id, q: Id, n: Id)
    requires history == [Marked(p, [], n), Marked(q, [], n + 1)]
    ensures !Genuine(rules, s, calls, history)
  {
    hide AtomicMark;
    var first := history[..1];
    assert first[..0] == [] && first[0] == Marked(p, [], n) && history[..|history| - 1] == first;
    assert Serially(rules, s, calls, []) == s;
    assert Serially(rules, s, calls, first) == Effect(rules, s, calls, first[0]);
    if Genuine(rules, s, calls, history) {
      assert Genuine(rules, s, calls, first);
      assert AtomHolds(rules, s, calls, first[0]);
      MarkOpensBatch(rules, s, calls[p], n);
    }
  }

  lemma MarkOpensBatch(rules: Rules, s: State, c: Call, n: Id)
    requires AtomicMark(rules, s, c, [], n).outcome == Committed
    ensures CanClose(AtomicMark(rules, s, c, [], n).state, n)
  {
  }

  // ---------------------------------------------------------------- a close that overtakes a commit

  /** The close lands after the read and before the commit. */
  function Overtaken(p: Id, b: Id, n: Id): seq<Move> {
    [Claim(p), Lock(p), Read(p, [b])] + [Close(b), Place(p, n), Commit(p)]
  }

  lemma {:induction false} RunSplits(rules: Rules, sys: Statements, first: seq<Move>, second: seq<Move>)
    ensures Run(rules, sys, first + second) == Run(rules, Run(rules, sys, first), second)
    decreases |first|
  {
    hide Apply;
    if first == [] {
      assert first + second == second;
    } else {
      assert (first + second)[1..] == first[1..] + second;
      RunSplits(rules, Apply(rules, sys, first[0]), first[1..], second);
    }
  }

  lemma RunThree(rules: Rules, sys: Statements, a: Move, b: Move, c: Move)
    ensures Run(rules, sys, [a, b, c]) == Apply(rules, Apply(rules, Apply(rules, sys, a), b), c)
  {
    hide Apply;
    assert [a, b, c][1..] == [b, c] && [b, c][1..] == [c] && [c][1..] == [];
    assert Run(rules, Apply(rules, sys, a), [b, c]) == Run(rules, Apply(rules, Apply(rules, sys, a), b), [c]);
  }

  /** `b` is the one open batch and takes the order of call `p`. */
  ghost predicate OneOpenFits(rules: Rules, sys: Statements, p: Id, b: Id) {
    && CanBegin(sys, p) && CanClose(sys.db, b) && (forall c :: CanClose(sys.db, c) ==> c == b)
    && Eligible(rules, ReadyInfo(sys.db, sys.calls[p].o, sys.calls[p].hasFood), Members(sys.db, b))
  }

  lemma ChoosesOnlyOpen(rules: Rules, sys: Statements, p: Id, b: Id)
    requires Inv(sys.db) && OneOpenFits(rules, sys, p, b)
    ensures var view := SeenBy(sys.db, sys.calls[p]);
      OpenListing(view, [b]) && FirstEligible(rules, view, view.orders[sys.calls[p].o].info, [b]) == Some(b)
  {
    hide Eligible, Links, Stops;
    var c := sys.calls[p];
    var view := SeenBy(sys.db, c);
    assert OrderPhase(sys.db, c.o) && CanClose(sys.db, b);
    MembersAfterClaim(sys.db, view, c.o);
    forall a ensures a in [b] <==> a in view.batches && view.batches[a].status == JobStatus.Pending {
      assert CanClose(sys.db, a) ==> a == b;
    }
  }

  /** Such an interleaving exists: the call commits into a batch that has been closed under its feet. */
  lemma CloseOvertakesCommit(rules: Rules, sys: Statements, p: Id, b: Id, n: Id)
    requires Start(sys) && OneOpenFits(rules, sys, p, b) && FreshBatchId(sys.db, n)
    ensures var t, o := Run(rules, sys, Overtaken(p, b, n)), sys.calls[p].o;
      && p in t.calls && t.calls[p].phase == Done && !LandingRun(rules, sys, Overtaken(p, b, n))
      && b in sys.db.batches && b in t.db.batches && t.db.batches[b].status == JobStatus.InProgress
      && t.db.batches[b].orders == sys.db.batches[b].orders + [o]
  {
    hide Apply, Run, Eligible, View, Inv, FirstEligible;
    var c, o := sys.calls[p], sys.calls[p].o;
    ChoosesOnlyOpen(rules, sys, p, b);
    ReadsOpen(rules, sys, p, [b]);
    RunSplits(rules, sys, [Claim(p), Lock(p), Read(p, [b])], [Close(b), Place(p, n), Commit(p)]);
    RunThree(rules, sys, Claim(p), Lock(p), Read(p, [b]));
    var chosen := Run(rules, sys, [Claim(p), Lock(p), Read(p, [b])]);
    var claimed := Apply(rules, sys, Claim(p));
    assert claimed.(lock := None) == claimed;
    RunThree(rules, chosen, Close(b), Place(p, n), Commit(p));
    var closed := Apply(rules, chosen, Close(b));
    ClosesAtOnce(rules, chosen, b);
    PlacesAndCommits(rules, closed, p, n);
    JoinsBatch(closed.db, c, b);
    var moves := Overtaken(p, b, n);
    if LandingRun(rules, sys, moves) {
      LandingSplits(rules, sys, [Claim(p), Lock(p), Read(p, [b])], [Close(b), Place(p, n), Commit(p)]);
      LastLands(rules, chosen, Close(b), Place(p, n), Commit(p));
      PlacesChoice(rules, closed, p, n);
    }
  }

  lemma ClosesAtOnce(rules: Rules, sys: Statements, b: Id)
    requires CanClose(sys.db, b)
    ensures var next := Apply(rules, sys, Close(b)); next.db == CloseBatch(sys.db, b) && next.calls == sys.calls
  {
  }

  lemma JoinsBatch(s: State, c: Call, b: Id)
    requires c.o in s.orders && b in s.batches
    ensures View(s, PlaceWrites(c, Some(b), 0)).batches
      == s.batches[b := s.batches[b].(orders := s.batches[b].orders + [c.o])]
    ensures forall n :: PlaceWrites(c, Some(b), n) == PlaceWrites(c, Some(b), 0)
  {
    ViewThree(s, ClaimOf(c), JoinWrite(c.o, b), EventWrite(c.o));
  }

  lemma PlacesChoice(rules: Rules, sys: Statements, p: Id, n: Id)
    requires p in sys.calls && sys.calls[p].phase.Chosen? && FreshBatchId(sys.db, n)
    ensures var next := Apply(rules, sys, Place(p, n));
      && next.db == sys.db && p in next.calls && next.calls[p].phase.Placed?
      && next.calls[p].phase.choice == sys.calls[p].phase.choice
  {
  }

  lemma {:induction false} LandingSplits(rules: Rules, sys: Statements, first: seq<Move>, second: seq<Move>)
    requires LandingRun(rules, sys, first + second)
    ensures LandingRun(rules, Run(rules, sys, first), second)
    decreases |first|
  {
    hide Apply, Lands;
    if first == [] {
      assert first + second == second;
    } else {
      assert (first + second)[1..] == first[1..] + second;
      LandingSplits(rules, Apply(rules, sys, first[0]), first[1..], second);
    }
  }

  lemma LastLands(rules: Rules, sys: Statements, a: Move, b: Move, c: Move)
    requires LandingRun(rules, sys, [a, b, c])
    ensures Lands(Apply(rules, Apply(rules, sys, a), b), c)
  {
    hide Apply, Lands;
    assert [a, b, c][1..] == [b, c] && [b, c][1..] == [c];
    assert LandingRun(rules, Apply(rules, sys, a), [b, c]);
    assert LandingRun(rules, Apply(rules, Apply(rules, sys, a), b), [c]);
  }

  // ---------------------------------------------------------------- reachable instances

  /** A call for order `o` of the run `LateClose`, not begun. */
  function FreshCall(info: OrderInfo, o: Id): Call {
    Call(o, info.vendorId, o == 0, 0, Begin, [])
  }

  /** A reachable store and one call that a close overtakes. */
  lemma OvertakingIsReachable(rules: Rules, info: OrderInfo) returns (from: D.System)
    requires AllNear(rules, info)
    ensures G.Reachable(rules, from)
    ensures var sys := Statements(from.db, map[0 := FreshCall(info, 1)], None, [], []);
      Start(sys) && OneOpenFits(rules, sys, 0, 0) && FreshBatchId(sys.db, 1)
  {
    hide D.Apply, D.Run, Eligible, G.Reachable;
    from := FirstFounded(rules, info);
    LikeOrdersFit(rules, info, 1);
    assert Awaiting(from.db, info, 1);
    assert ReadyInfo(from.db, 1, false) == info.(orderType := Grocery);
  }

  /** A reachable store without a batch and two calls that would race for the first one. */
  lemma RaceIsReachable(rules: Rules, info: OrderInfo) returns (from: D.System)
    requires AllNear(rules, info)
    ensures G.Reachable(rules, from)
    ensures var sys := Statements(from.db, map[0 := FreshCall(info, 0), 1 := FreshCall(info, 1)], None, [], []);
      && Start(sys) && CanRace(sys, 0, 1, 0)
      && Eligible(rules, ReadyInfo(sys.db, 1, false), [ReadyInfo(sys.db, 0, true)])
  {
    hide D.Apply, D.Run, Eligible, G.Reachable;
    from := FourPlaced(rules, info);
    LikeOrdersFit(rules, info, 1);
    assert [ReadyInfo(from.db, 0, true)] == LikeOrders(info, 1);
  }
}
