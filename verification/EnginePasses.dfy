/** What one pass makes of a status tree, told by the tree and the answers of the tasks alone. */
module EnginePasses {
  import opened Plans
  import opened Engine
  import opened EngineRuns
  import opened EngineStatus
  import opened EngineVisits

  // ----- the visit of a step -----

  /** Every task name of the step has an answer "done". */
  ghost predicate AllReport(c: Pass, i: nat, j: nat)
    requires InPlan(c.plan, i, j)
  {
    var tasks := c.plan.phases[i].steps[j].tasks;
    forall name | name in tasks :: exists k: nat :: k < |tasks| && tasks[k] == name && c.ask(i, j, k).Done?
  }

  ghost predicate SomeTransient(c: Pass, i: nat, j: nat)
    requires InPlan(c.plan, i, j)
  {
    exists k: nat :: k < |c.plan.phases[i].steps[j].tasks| && c.ask(i, j, k).Transient?
  }

  /** Some task of the step is not known, does not build, or fails fatally. */
  ghost predicate StepFails(c: Pass, i: nat, j: nat)
    requires InPlan(c.plan, i, j)
  {
    exists k: nat :: k < |c.plan.phases[i].steps[j].tasks| && (!Runnable(c, i, j, k) || c.ask(i, j, k).Fatal?)
  }

  /** Of a visited item: PENDING, IN_PROGRESS and ERROR turn to IN_PROGRESS, the rest stays. */
  ghost predicate Started(before: Status, after: Status) {
    if before in {Pending, InProgress, Error} then after == InProgress else after == before
  }

  ghost predicate StepMoved(c: Pass, i: nat, j: nat, before: StepStatus, after: StepStatus)
    requires InPlan(c.plan, i, j)
  {
    && after.name == before.name
    && if StepFails(c, i, j) then after.status == FatalError
       else if AllReport(c, i, j) then after.status == Complete
       else if SomeTransient(c, i, j) then after.status == Error
       else Started(before.status, after.status)
  }

  /** The loop goes on from step `lo` to step `k`, but stops at a failure, and in a serial phase at
      the first step that does not become COMPLETE. */
  ghost predicate StepsMoved(c: Pass, i: nat, lo: nat, before: seq<StepStatus>, after: seq<StepStatus>, k: nat,
                             failed: bool)
    requires i < |c.plan.phases| && |before| == |c.plan.phases[i].steps|
  {
    && |after| == |before| && lo <= k <= |before|
    && (forall j: nat | j < |before| && !(lo <= j < k) :: after[j] == before[j])
    && (forall j: nat | lo <= j < k ::
          if before[j].status.Complete? then after[j] == before[j] else StepMoved(c, i, j, before[j], after[j]))
    && (forall j: nat | lo <= j < k && !before[j].status.Complete? && StepFails(c, i, j) :: failed && j == k - 1)
    && (if failed then lo < k && !before[k - 1].status.Complete? && StepFails(c, i, k - 1)
        else k == |before| || (c.plan.phases[i].strategy.Serial? && lo < k && !after[k - 1].status.Complete?))
    && (c.plan.phases[i].strategy.Serial? ==> forall j: nat | lo <= j && j + 1 < k :: after[j].status.Complete?)
  }

  // ----- the step loop -----

  lemma {:induction false} VisitMoves(c: Pass, i: nat, j: nat, status: Status, log: seq<Run>)
    requires InPlan(c.plan, i, j) && status != Complete
    ensures
      var t := TaskLoop(c, i, j, 0, Resumed(status), NameSet(c.plan.phases[i].steps[j].tasks), log);
      && (t.err.Some? <==> StepFails(c, i, j))
      && (t.err.None? ==> (t.left == {} <==> AllReport(c, i, j)))
      && (t.err.None? ==> if SomeTransient(c, i, j) then t.status == Error else Started(status, t.status))
  {
    var tasks := c.plan.phases[i].steps[j].tasks;
    var t := TaskLoop(c, i, j, 0, Resumed(status), NameSet(tasks), log);
    var end := TaskLoopVisits(c, i, j, 0, Resumed(status), NameSet(tasks), log);
    if t.err.None? {
      assert forall k: nat | k < |tasks| :: Runnable(c, i, j, k) && !c.ask(i, j, k).Fatal?;
      assert TransientBetween(c, i, j, 0, end) <==> SomeTransient(c, i, j);
      forall name | name in tasks
        ensures DoneBetween(c, i, j, 0, end, name) <==>
                  exists k: nat :: k < |tasks| && tasks[k] == name && c.ask(i, j, k).Done?
      {
      }
      assert t.left == {} <==> forall name | name in tasks :: name !in t.left;
    }
  }

  /** What the step loop makes of phase `i`, from step `lo` to step `k`. */
  ghost predicate ScanMoves(c: Pass, i: nat, lo: nat, tree: PlanStatus, r: StepScan, k: nat)
    requires i < |c.plan.phases| == |tree.phases| && |tree.phases[i].steps| == |c.plan.phases[i].steps|
  {
    && |r.tree.phases| == |tree.phases|
    && (forall a: nat | a < |tree.phases| && a != i :: r.tree.phases[a] == tree.phases[a])
    && r.tree.phases[i].name == tree.phases[i].name
    && StepsMoved(c, i, lo, tree.phases[i].steps, r.tree.phases[i].steps, k, r.err.Some?)
    && r.tree.phases[i].status == (if r.err.Some? then FatalError else tree.phases[i].status)
    && r.tree.status == (if r.err.Some? then FatalError else tree.status)
    && (r.err.None? ==> (r.left == {} <==> forall j: nat | j < |c.plan.phases[i].steps| :: StepComplete(r.tree, i, j)))
  }

  lemma {:induction false} StepsMove(c: Pass, i: nat, lo: nat, tree: PlanStatus, left: set<string>, log: seq<Run>)
    returns (k: nat)
    requires UniqueNames(c.plan) && Aligned(c.plan, tree) && i < |c.plan.phases| && lo <= |c.plan.phases[i].steps|
    requires LeftIs(c.plan, tree, i, lo, left)
    ensures |tree.phases[i].steps| == |c.plan.phases[i].steps|
    ensures ScanMoves(c, i, lo, tree, StepLoop(c, i, i, lo, tree, left, log), k)
    decreases |c.plan.phases[i].steps| - lo
  {
    assert AlignedPhase(c.plan.phases[i], tree.phases[i]);
    k := lo;
    if lo == |c.plan.phases[i].steps| {
      NoMoreSteps(c, i, tree, left, log);
    } else if StepComplete(tree, i, lo) {
      k := StepsMoveSkip(c, i, lo, tree, left, log);
    } else {
      k := StepsMoveTurn(c, i, lo, tree, left, log);
    }
  }

  lemma {:induction false} StepsMoveSkip(c: Pass, i: nat, lo: nat, tree: PlanStatus, left: set<string>, log: seq<Run>)
    returns (k: nat)
    requires UniqueNames(c.plan) && Aligned(c.plan, tree) && InPlan(c.plan, i, lo)
    requires LeftIs(c.plan, tree, i, lo, left) && StepComplete(tree, i, lo)
    ensures |tree.phases[i].steps| == |c.plan.phases[i].steps|
    ensures ScanMoves(c, i, lo, tree, StepLoop(c, i, i, lo, tree, left, log), k)
    decreases |c.plan.phases[i].steps| - lo, 0
  {
    AlignedIndex(c.plan, tree, i);
    LeftSkips(c.plan, tree, i, lo, left);
    var left' := left - {c.plan.phases[i].steps[lo].name};
    k := StepsMove(c, i, lo + 1, tree, left', log);
    MovesPast(c, i, lo, tree, StepLoop(c, i, i, lo + 1, tree, left', log), k);
  }

  lemma {:induction false} NoMoreSteps(c: Pass, i: nat, tree: PlanStatus, left: set<string>, log: seq<Run>)
    requires i < |c.plan.phases| == |tree.phases| && |tree.phases[i].steps| == |c.plan.phases[i].steps|
    requires LeftIs(c.plan, tree, i, |c.plan.phases[i].steps|, left)
    ensures ScanMoves(c, i, |c.plan.phases[i].steps|, tree, StepScan(tree, left, None, log), |c.plan.phases[i].steps|)
  {
    LeftAtEnd(c.plan, tree, i, left);
  }

  lemma {:induction false} StepsMoveTurn(c: Pass, i: nat, lo: nat, tree: PlanStatus, left: set<string>, log: seq<Run>)
    returns (k: nat)
    requires UniqueNames(c.plan) && Aligned(c.plan, tree) && InPlan(c.plan, i, lo)
    requires LeftIs(c.plan, tree, i, lo, left) && !StepComplete(tree, i, lo)
    ensures |tree.phases[i].steps| == |c.plan.phases[i].steps|
    ensures ScanMoves(c, i, lo, tree, StepLoop(c, i, i, lo, tree, left, log), k)
    decreases |c.plan.phases[i].steps| - lo, 0
  {
    AlignedIndex(c.plan, tree, i);
    assert AlignedPhase(c.plan.phases[i], tree.phases[i]);
    var status := tree.phases[i].steps[lo].status;
    var t := TaskLoop(c, i, lo, 0, Resumed(status), NameSet(c.plan.phases[i].steps[lo].tasks), log);
    var next := SetStep(tree, i, lo, Verdict(t));
    VisitMoves(c, i, lo, status, log);
    TaskLoopFacts(c, i, lo, 0, Resumed(status), NameSet(c.plan.phases[i].steps[lo].tasks), log);
    LeftAdvances(c.plan, tree, i, lo, left, Verdict(t));
    assert StepMoved(c, i, lo, tree.phases[i].steps[lo], next.phases[i].steps[lo]);
    k := lo + 1;
    if t.err.None? && (t.left == {} || !c.plan.phases[i].strategy.Serial?) {
      var left' := if t.left == {} then left - {c.plan.phases[i].steps[lo].name} else left;
      k := StepsMove(c, i, lo + 1, next, left', t.log);
      MovesCompose(c, i, lo, tree, Verdict(t), next, StepLoop(c, i, i, lo + 1, next, left', t.log), k);
    } else if t.err.None? {
      assert !StepComplete(next, i, lo);
      assert c.plan.phases[i].steps[lo].name in left;
    }
  }

  lemma {:induction false} MovesCompose(c: Pass, i: nat, lo: nat, tree: PlanStatus, moved: Status, next: PlanStatus,
                                        r: StepScan, k: nat)
    requires InPlan(c.plan, i, lo) && Aligned(c.plan, tree) && lo < |tree.phases[i].steps|
    requires |tree.phases[i].steps| == |c.plan.phases[i].steps| && !StepComplete(tree, i, lo)
    requires next == SetStep(tree, i, lo, moved)
    requires StepMoved(c, i, lo, tree.phases[i].steps[lo], next.phases[i].steps[lo]) && !StepFails(c, i, lo)
    requires c.plan.phases[i].strategy.Serial? ==> moved.Complete?
    requires ScanMoves(c, i, lo + 1, next, r, k)
    ensures ScanMoves(c, i, lo, tree, r, k)
  {
  }

  lemma {:induction false} MovesPast(c: Pass, i: nat, lo: nat, tree: PlanStatus, r: StepScan, k: nat)
    requires InPlan(c.plan, i, lo) && i < |tree.phases| == |c.plan.phases|
    requires |tree.phases[i].steps| == |c.plan.phases[i].steps| && StepComplete(tree, i, lo)
    requires ScanMoves(c, i, lo + 1, tree, r, k)
    ensures ScanMoves(c, i, lo, tree, r, k)
  {
  }

  // ----- the phase loop -----

  ghost predicate StepsVisited(c: Pass, i: nat, before: seq<StepStatus>, after: seq<StepStatus>, failed: bool)
    requires i < |c.plan.phases| && |before| == |c.plan.phases[i].steps|
  {
    exists k: nat :: StepsMoved(c, i, 0, before, after, k, failed)
  }

  /** A visited phase ends FATAL_ERROR after a failure, COMPLETE when all its steps are, and as
      a started one otherwise. */
  ghost predicate PhaseMoved(c: Pass, i: nat, before: PhaseStatus, after: PhaseStatus, failed: bool)
    requires i < |c.plan.phases| && |before.steps| == |c.plan.phases[i].steps|
  {
    && after.name == before.name
    && StepsVisited(c, i, before.steps, after.steps, failed)
    && if failed then after.status == FatalError
       else if forall j: nat | j < |after.steps| :: after.steps[j].status.Complete? then after.status == Complete
       else Started(before.status, after.status)
  }

  /** COMPLETE phases are passed by; a failure is one of the last phase that is reached. */
  ghost predicate PhaseVisited(c: Pass, i: nat, before: seq<PhaseStatus>, after: seq<PhaseStatus>, k: nat, failed: bool)
    requires i < |before| == |after| == |c.plan.phases| && |before[i].steps| == |c.plan.phases[i].steps|
  {
    if before[i].status.Complete? then after[i] == before[i]
    else PhaseMoved(c, i, before[i], after[i], failed && i == k - 1)
  }

  /** The loop goes on from phase `lo` to phase `k`, but stops at a failure, and in a serial plan
      at the first phase that does not become COMPLETE. */
  ghost predicate PhasesMoved(c: Pass, lo: nat, before: seq<PhaseStatus>, after: seq<PhaseStatus>, k: nat, failed: bool)
    requires |before| == |c.plan.phases|
    requires forall i: nat | i < |before| :: |before[i].steps| == |c.plan.phases[i].steps|
  {
    && |after| == |before| && lo <= k <= |before|
    && (forall i: nat | i < |before| && !(lo <= i < k) :: after[i] == before[i])
    && (forall i: nat | lo <= i < k :: PhaseVisited(c, i, before, after, k, failed))
    && (if failed then lo < k && !before[k - 1].status.Complete?
        else k == |before| || (c.plan.strategy.Serial? && lo < k && !after[k - 1].status.Complete?))
    && (c.plan.strategy.Serial? ==> forall i: nat | lo <= i && i + 1 < k :: after[i].status.Complete?)
  }

  ghost predicate Fits(plan: Plan, tree: PlanStatus) {
    && |tree.phases| == |plan.phases|
    && forall i: nat | i < |plan.phases| :: |tree.phases[i].steps| == |plan.phases[i].steps|
  }

  /** What the phase loop makes of the tree, from phase `lo` to phase `k`. */
  ghost predicate LoopMoves(c: Pass, lo: nat, tree: PlanStatus, r: Result, k: nat)
    requires Fits(c.plan, tree)
  {
    && PhasesMoved(c, lo, tree.phases, r.tree.phases, k, r.err.Some?)
    && r.tree.status == (if r.err.Some? then FatalError
                         else if AllComplete(c.plan, r.tree) then Complete else InProgress)
  }

  lemma {:induction false} AlignedFits(plan: Plan, tree: PlanStatus)
    requires Aligned(plan, tree)
    ensures Fits(plan, tree)
  {
    assert forall i: nat | i < |plan.phases| :: AlignedPhase(plan.phases[i], tree.phases[i]);
  }

  /** Phase `i` alone moves from `tree` to `next`. */
  ghost predicate TurnMoved(c: Pass, i: nat, tree: PlanStatus, next: PlanStatus, failed: bool) {
    && Fits(c.plan, tree) && Fits(c.plan, next) && i < |c.plan.phases| && !PhaseComplete(tree, i)
    && (forall a: nat | a < |tree.phases| && a != i :: next.phases[a] == tree.phases[a])
    && PhaseMoved(c, i, tree.phases[i], next.phases[i], failed)
    && next.status == (if failed then FatalError else tree.status)
  }

  /** One turn of the phase loop: `s` is what its steps came to, `next` the tree it leaves. */
  lemma {:induction false} PhaseTurnMoves(c: Pass, i: nat, tree: PlanStatus, log: seq<Run>)
    returns (s: StepScan, next: PlanStatus)
    requires UniqueNames(c.plan) && Aligned(c.plan, tree) && i < |c.plan.phases| && !PhaseComplete(tree, i)
    ensures s == StepLoop(c, i, i, 0, SetPhase(tree, i, Resumed(tree.phases[i].status)),
        StepNames(c.plan.phases[i].steps), log)
    ensures i < |s.tree.phases|
    ensures next == if s.err.None? && s.left == {} then SetPhase(s.tree, i, Complete) else s.tree
    ensures Aligned(c.plan, next) && TurnMoved(c, i, tree, next, s.err.Some?)
    ensures s.err.None? ==> (PhaseComplete(next, i) <==> s.left == {})
  {
    var started := SetPhase(tree, i, Resumed(tree.phases[i].status));
    var names := StepNames(c.plan.phases[i].steps);
    s, next := PhaseTurnFindsAll(c, i, tree, log);
    AlignedFits(c.plan, tree);
    AlignedFits(c.plan, next);
    var k := StepsMove(c, i, 0, started, names, log);
    assert StepsMoved(c, i, 0, tree.phases[i].steps, next.phases[i].steps, k, s.err.Some?);
    assert forall j: nat | j < |next.phases[i].steps| ::
        next.phases[i].steps[j].status.Complete? == StepComplete(s.tree, i, j);
  }

  lemma {:induction false} PhasesMove(c: Pass, lo: nat, tree: PlanStatus, phasesLeft: int, log: seq<Run>)
    returns (k: nat)
    requires UniqueNames(c.plan) && Aligned(c.plan, tree) && lo <= |c.plan.phases| && tree.status.InProgress?
    requires phasesLeft == |c.plan.phases| - lo + OpenPhases(tree, lo)
    ensures Fits(c.plan, tree) && LoopMoves(c, lo, tree, PhaseLoop(c, lo, tree, phasesLeft, log), k)
    decreases |c.plan.phases| - lo
  {
    AlignedFits(c.plan, tree);
    k := lo;
    if lo == |c.plan.phases| {
      NoMorePhases(c, tree, phasesLeft, log);
    } else if PhaseComplete(tree, lo) {
      k := PhasesMoveSkip(c, lo, tree, phasesLeft, log);
    } else {
      k := PhasesMoveTurn(c, lo, tree, phasesLeft, log);
    }
  }

  lemma {:induction false} PhasesMoveSkip(c: Pass, lo: nat, tree: PlanStatus, phasesLeft: int, log: seq<Run>)
    returns (k: nat)
    requires UniqueNames(c.plan) && Aligned(c.plan, tree) && lo < |c.plan.phases| && tree.status.InProgress?
    requires phasesLeft == |c.plan.phases| - lo + OpenPhases(tree, lo) && PhaseComplete(tree, lo)
    ensures Fits(c.plan, tree) && LoopMoves(c, lo, tree, PhaseLoop(c, lo, tree, phasesLeft, log), k)
    decreases |c.plan.phases| - lo, 0
  {
    PhaseIsPassed(c, lo, tree, phasesLeft, log);
    k := PhasesMove(c, lo + 1, tree, phasesLeft - 1, log);
    PhasesPast(c, lo, tree, PhaseLoop(c, lo + 1, tree, phasesLeft - 1, log), k);
  }

  lemma {:induction false} NoMorePhases(c: Pass, tree: PlanStatus, phasesLeft: int, log: seq<Run>)
    requires Fits(c.plan, tree) && tree.status.InProgress? && phasesLeft == OpenPhases(tree, |c.plan.phases|)
    ensures LoopMoves(c, |c.plan.phases|, tree, Finish(tree, phasesLeft, log), |c.plan.phases|)
  {
    OpenPhasesZero(tree, |c.plan.phases|);
    assert forall a: nat :: PhaseComplete(Finish(tree, phasesLeft, log).tree, a) == PhaseComplete(tree, a);
  }

  lemma {:induction false} PhasesPast(c: Pass, lo: nat, tree: PlanStatus, r: Result, k: nat)
    requires Fits(c.plan, tree) && PhaseComplete(tree, lo) && LoopMoves(c, lo + 1, tree, r, k)
    ensures LoopMoves(c, lo, tree, r, k)
  {
    assert PhaseVisited(c, lo, tree.phases, r.tree.phases, k, r.err.Some?);
  }

  lemma {:induction false} PhasesCompose(c: Pass, lo: nat, tree: PlanStatus, next: PlanStatus, r: Result, k: nat)
    requires TurnMoved(c, lo, tree, next, false)
    requires c.plan.strategy.Serial? ==> PhaseComplete(next, lo)
    requires LoopMoves(c, lo + 1, next, r, k)
    ensures LoopMoves(c, lo, tree, r, k)
  {
    assert PhaseVisited(c, lo, tree.phases, r.tree.phases, k, r.err.Some?);
    forall i: nat | lo < i < k ensures PhaseVisited(c, i, tree.phases, r.tree.phases, k, r.err.Some?) {
      assert PhaseVisited(c, i, next.phases, r.tree.phases, k, r.err.Some?);
    }
  }

  lemma {:induction false} PhaseIsPassed(c: Pass, lo: nat, tree: PlanStatus, phasesLeft: int, log: seq<Run>)
    requires UniqueNames(c.plan) && Aligned(c.plan, tree) && lo < |c.plan.phases| && PhaseComplete(tree, lo)
    ensures PhaseLoop(c, lo, tree, phasesLeft, log) == PhaseLoop(c, lo + 1, tree, phasesLeft - 1, log)
    ensures OpenPhases(tree, lo + 1) == OpenPhases(tree, lo)
  {
    AlignedIndex(c.plan, tree, lo);
  }

  lemma {:induction false} PhaseGoesOn(c: Pass, lo: nat, tree: PlanStatus, phasesLeft: int, log: seq<Run>, s: StepScan)
    requires UniqueNames(c.plan) && Aligned(c.plan, tree) && lo < |c.plan.phases| && !PhaseComplete(tree, lo)
    requires s == StepLoop(c, lo, lo, 0, SetPhase(tree, lo, Resumed(tree.phases[lo].status)),
                           StepNames(c.plan.phases[lo].steps), log)
    requires lo < |s.tree.phases|
    ensures
      var r := PhaseLoop(c, lo, tree, phasesLeft, log);
      if s.err.Some? then r == Result(s.tree, s.err, s.log)
      else if s.left == {} then r == PhaseLoop(c, lo + 1, SetPhase(s.tree, lo, Complete), phasesLeft - 1, s.log)
      else if c.plan.strategy.Serial? then r == Finish(s.tree, phasesLeft, s.log)
      else r == PhaseLoop(c, lo + 1, s.tree, phasesLeft, s.log)
  {
    AlignedIndex(c.plan, tree, lo);
  }

  lemma {:induction false} PhasesMoveTurn(c: Pass, lo: nat, tree: PlanStatus, phasesLeft: int, log: seq<Run>)
    returns (k: nat)
    requires UniqueNames(c.plan) && Aligned(c.plan, tree) && lo < |c.plan.phases| && tree.status.InProgress?
    requires phasesLeft == |c.plan.phases| - lo + OpenPhases(tree, lo) && !PhaseComplete(tree, lo)
    ensures Fits(c.plan, tree) && LoopMoves(c, lo, tree, PhaseLoop(c, lo, tree, phasesLeft, log), k)
    decreases |c.plan.phases| - lo, 1
  {
    var s, next := PhaseTurnMoves(c, lo, tree, log);
    PhaseGoesOn(c, lo, tree, phasesLeft, log, s);
    k := lo + 1;
    if s.err.Some? {
      FailsHere(c, lo, tree, next, Result(next, s.err, s.log));
    } else if s.left != {} && c.plan.strategy.Serial? {
      StopsHere(c, lo, tree, next, phasesLeft, s.log);
    } else {
      k := PhasesMoveOn(c, lo, tree, next, phasesLeft, s.log);
    }
  }

  lemma {:induction false} PhasesMoveOn(c: Pass, lo: nat, tree: PlanStatus, next: PlanStatus, phasesLeft: int,
                                        log: seq<Run>)
    returns (k: nat)
    requires UniqueNames(c.plan) && Aligned(c.plan, next) && lo < |c.plan.phases| && tree.status.InProgress?
    requires phasesLeft == |c.plan.phases| - lo + OpenPhases(tree, lo) && TurnMoved(c, lo, tree, next, false)
    requires c.plan.strategy.Serial? ==> PhaseComplete(next, lo)
    ensures
      var phasesLeft' := if PhaseComplete(next, lo) then phasesLeft - 1 else phasesLeft;
      LoopMoves(c, lo, tree, PhaseLoop(c, lo + 1, next, phasesLeft', log), k)
    decreases |c.plan.phases| - lo, 0
  {
    OpenPhasesSame(tree, next, lo);
    var phasesLeft' := if PhaseComplete(next, lo) then phasesLeft - 1 else phasesLeft;
    k := PhasesMove(c, lo + 1, next, phasesLeft', log);
    PhasesCompose(c, lo, tree, next, PhaseLoop(c, lo + 1, next, phasesLeft', log), k);
  }

  lemma {:induction false} FailsHere(c: Pass, lo: nat, tree: PlanStatus, next: PlanStatus, r: Result)
    requires TurnMoved(c, lo, tree, next, true)
    requires r.tree == next && r.err.Some?
    ensures LoopMoves(c, lo, tree, r, lo + 1)
  {
  }

  lemma {:induction false} StopsHere(c: Pass, lo: nat, tree: PlanStatus, next: PlanStatus, phasesLeft: int,
                                     log: seq<Run>)
    requires TurnMoved(c, lo, tree, next, false)
    requires c.plan.strategy.Serial? && !PhaseComplete(next, lo) && next.status.InProgress? && phasesLeft > 0
    ensures LoopMoves(c, lo, tree, Finish(next, phasesLeft, log), lo + 1)
  {
  }

  /** One pass over any tree that lists the phases and steps of the plan. An ended plan is left
      alone. Otherwise the pass reaches the phases before `stop`, and what it makes of each is told
      by the tree and by the answers of the tasks. */
  lemma {:induction false} PassMoves(c: Pass, tree: PlanStatus, log: seq<Run>) returns (stop: nat)
    requires UniqueNames(c.plan) && Aligned(c.plan, tree)
    ensures Fits(c.plan, tree)
    ensures
      var r := ExecutePass(c, tree, log);
      if tree.status in {Complete, FatalError} then r == Result(tree, None, log) else LoopMoves(c, 0, tree, r, stop)
  {
    AlignedFits(c.plan, tree);
    stop := 0;
    if !tree.status.IsTerminal() {
      stop := PhasesMove(c, 0, tree.(status := InProgress), |c.plan.phases|, log);
    }
  }

  // ----- statuses that are missing, in any tree and under any names -----

  /** The first phase status called `name` is at position `a`. */
  ghost predicate PhaseAt(tree: PlanStatus, name: string, a: nat) {
    a < |tree.phases| && tree.phases[a].name == name && forall m: nat | m < a :: tree.phases[m].name != name
  }

  ghost predicate StepAt(phase: PhaseStatus, name: string, b: nat) {
    b < |phase.steps| && phase.steps[b].name == name && forall m: nat | m < b :: phase.steps[m].name != name
  }

  ghost predicate PhaseBehind(tree: PlanStatus, name: string) {
    exists a: nat :: PhaseAt(tree, name, a) && tree.phases[a].status.Complete?
  }

  ghost predicate StepBehind(phase: PhaseStatus, name: string) {
    exists b: nat :: StepAt(phase, name, b) && phase.steps[b].status.Complete?
  }

  /** The first `i` phases of the plan are COMPLETE. */
  ghost predicate PhasesBehind(plan: Plan, tree: PlanStatus, i: nat)
    requires i <= |plan.phases|
  {
    forall m: nat | m < i :: PhaseBehind(tree, plan.phases[m].name)
  }

  ghost predicate StepsBehind(phase: Phase, status: PhaseStatus, j: nat)
    requires j <= |phase.steps|
  {
    forall m: nat | m < j :: StepBehind(status, phase.steps[m].name)
  }

  lemma {:induction false} LoopPassesPhases(c: Pass, lo: nat, i: nat, tree: PlanStatus, phasesLeft: int, log: seq<Run>)
    returns (phasesLeft': int)
    requires lo <= i <= |c.plan.phases| && PhasesBehind(c.plan, tree, i)
    ensures PhaseLoop(c, lo, tree, phasesLeft, log) == PhaseLoop(c, i, tree, phasesLeft', log)
    decreases i - lo
  {
    phasesLeft' := phasesLeft;
    if lo < i {
      assert PhaseBehind(tree, c.plan.phases[lo].name);
      var a: nat :| PhaseAt(tree, c.plan.phases[lo].name, a) && tree.phases[a].status.Complete?;
      assert PhaseIndex(tree.phases, c.plan.phases[lo].name) == a;
      phasesLeft' := LoopPassesPhases(c, lo + 1, i, tree, phasesLeft - 1, log);
    }
  }

  lemma {:induction false} LoopPassesSteps(c: Pass, i: nat, a: nat, lo: nat, j: nat, tree: PlanStatus,
                                           left: set<string>, log: seq<Run>)
    returns (left': set<string>)
    requires i < |c.plan.phases| && lo <= j <= |c.plan.phases[i].steps| && a < |tree.phases|
    requires StepsBehind(c.plan.phases[i], tree.phases[a], j)
    ensures StepLoop(c, i, a, lo, tree, left, log) == StepLoop(c, i, a, j, tree, left', log)
    decreases j - lo
  {
    left' := left;
    if lo < j {
      var name := c.plan.phases[i].steps[lo].name;
      assert StepBehind(tree.phases[a], name);
      var b: nat :| StepAt(tree.phases[a], name, b) && tree.phases[a].steps[b].status.Complete?;
      assert StepIndex(tree.phases[a].steps, name) == b;
      left' := LoopPassesSteps(c, i, a, lo + 1, j, tree, left - {name}, log);
    }
  }

  lemma {:induction false} BehindAtStart(plan: Plan, tree: PlanStatus, i: nat)
    requires i <= |plan.phases| && PhasesBehind(plan, tree, i)
    ensures PhasesBehind(plan, tree.(status := InProgress), i)
  {
    var started := tree.(status := InProgress);
    forall m: nat | m < i ensures PhaseBehind(started, plan.phases[m].name) {
      assert PhaseBehind(tree, plan.phases[m].name);
      var a: nat :| PhaseAt(tree, plan.phases[m].name, a) && tree.phases[a].status.Complete?;
      assert PhaseAt(started, plan.phases[m].name, a);
    }
  }

  /** A pass that comes to a phase without a status ends there: the plan is FATAL_ERROR. */
  lemma {:induction false} MissingPhaseFails(c: Pass, tree: PlanStatus, log: seq<Run>, i: nat)
    requires !tree.status.IsTerminal() && i < |c.plan.phases| && PhasesBehind(c.plan, tree, i)
    requires forall p | p in tree.phases :: p.name != c.plan.phases[i].name
    ensures ExecutePass(c, tree, log) == Result(tree.(status := FatalError), Some(MissingPhase), log)
  {
    var started := tree.(status := InProgress);
    BehindAtStart(c.plan, tree, i);
    var phasesLeft := LoopPassesPhases(c, 0, i, started, |c.plan.phases|, log);
    assert PhaseIndex(tree.phases, c.plan.phases[i].name) == |tree.phases|;
  }

  /** A pass that comes to a step without a status ends there: phase and plan are FATAL_ERROR. */
  lemma {:induction false} MissingStepFails(c: Pass, tree: PlanStatus, log: seq<Run>, i: nat, a: nat, j: nat)
    requires !tree.status.IsTerminal() && InPlan(c.plan, i, j) && PhasesBehind(c.plan, tree, i)
    requires PhaseAt(tree, c.plan.phases[i].name, a) && !tree.phases[a].status.Complete?
    requires StepsBehind(c.plan.phases[i], tree.phases[a], j)
    requires forall s | s in tree.phases[a].steps :: s.name != c.plan.phases[i].steps[j].name
    ensures
      var failed := tree.phases[a := tree.phases[a].(status := FatalError)];
      ExecutePass(c, tree, log) == Result(tree.(status := FatalError, phases := failed), Some(MissingStep), log)
  {
    var started := tree.(status := InProgress);
    BehindAtStart(c.plan, tree, i);
    var phasesLeft := LoopPassesPhases(c, 0, i, started, |c.plan.phases|, log);
    assert PhaseIndex(started.phases, c.plan.phases[i].name) == a;
    PhaseStops(c, started, log, i, a, j);
  }

  lemma {:induction false} PhaseStops(c: Pass, tree: PlanStatus, log: seq<Run>, i: nat, a: nat, j: nat)
    requires InPlan(c.plan, i, j) && a < |tree.phases|
    requires StepsBehind(c.plan.phases[i], tree.phases[a], j)
    requires forall s | s in tree.phases[a].steps :: s.name != c.plan.phases[i].steps[j].name
    ensures
      var s := StepLoop(c, i, a, 0, SetPhase(tree, a, Resumed(tree.phases[a].status)),
                        StepNames(c.plan.phases[i].steps), log);
      && s.err == Some(MissingStep) && s.log == log
      && s.tree == tree.(status := FatalError, phases := tree.phases[a := tree.phases[a].(status := FatalError)])
  {
    var next := SetPhase(tree, a, Resumed(tree.phases[a].status));
    forall m: nat | m < j ensures StepBehind(next.phases[a], c.plan.phases[i].steps[m].name) {
      var name := c.plan.phases[i].steps[m].name;
      assert StepBehind(tree.phases[a], name);
      var b: nat :| StepAt(tree.phases[a], name, b) && tree.phases[a].steps[b].status.Complete?;
      assert StepAt(next.phases[a], name, b);
    }
    var left := LoopPassesSteps(c, i, a, 0, j, next, StepNames(c.plan.phases[i].steps), log);
    assert StepIndex(next.phases[a].steps, c.plan.phases[i].steps[j].name) == |next.phases[a].steps|;
  }
}
