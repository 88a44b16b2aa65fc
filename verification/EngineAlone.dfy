/** Which names make every run lossless, whatever the strategies: a step with tasks must share its
    status with no other step. */
module EngineAlone {
  import opened Plans
  import opened Engine
  import opened EngineRuns
  import opened EngineTheorems
  import opened EngineNames
  import EngineVisits
  import EngineLogs

  ghost predicate HasTasks(plan: Plan, i: nat, j: nat) {
    InPlan(plan, i, j) && plan.phases[i].steps[j].tasks != []
  }

  /** No other step of its phase has the name of the step, and no other phase that of its phase. */
  ghost predicate Alone(plan: Plan, i: nat, j: nat) {
    && InPlan(plan, i, j)
    && (forall x: nat | x < |plan.phases| && x != i :: plan.phases[x].name != plan.phases[i].name)
    && (forall y: nat | y < |plan.phases[i].steps| && y != j ::
      plan.phases[i].steps[y].name != plan.phases[i].steps[j].name)
  }

  ghost predicate TasksAlone(plan: Plan) {
    forall i: nat, j: nat | HasTasks(plan, i, j) :: Alone(plan, i, j)
  }

  /** Only the step itself uses its status. */
  lemma {:induction false} AloneSlot(plan: Plan, i: nat, j: nat, x: nat, y: nat)
    requires Alone(plan, i, j) && InPlan(plan, x, y)
    ensures PhaseSlot(plan, i) == i && StepSlot(plan, i, j) == j
    ensures PhaseSlot(plan, x) == i && StepSlot(plan, x, y) == j ==> x == i && y == j
  {
  }

  // ----- then nothing is ever lost -----

  /** COMPLETE steps with tasks were done, and a COMPLETE phase has only such. */
  ghost predicate AloneGood(plan: Plan, tree: PlanStatus, log: seq<Run>) {
    && Aligned(plan, tree)
    && (forall i: nat, j: nat | HasTasks(plan, i, j) && StepComplete(tree, i, j) :: EverDone({}, plan, log, i, j))
    && (forall i: nat, j: nat | HasTasks(plan, i, j) && PhaseComplete(tree, i) :: StepComplete(tree, i, j))
  }

  /** The names of steps with tasks that are still to come or incomplete are left. */
  ghost predicate TasksLeft(plan: Plan, tree: PlanStatus, i: nat, k: nat, left: set<string>) {
    forall j: nat | HasTasks(plan, i, j) && (j >= k || !StepComplete(tree, i, j)) ::
      plan.phases[i].steps[j].name in left
  }

  ghost predicate TasksComplete(plan: Plan, tree: PlanStatus, i: nat) {
    forall j: nat | HasTasks(plan, i, j) :: StepComplete(tree, i, j)
  }

  lemma {:induction false} AloneVisit(c: Pass, i: nat, j: nat, tree: PlanStatus, log: seq<Run>)
    returns (t: TaskScan, next: PlanStatus)
    requires TasksAlone(c.plan) && AloneGood(c.plan, tree, log) && InPlan(c.plan, i, j)
    requires PhaseSlot(c.plan, i) < |tree.phases| && StepSlot(c.plan, i, j) < |tree.phases[PhaseSlot(c.plan, i)].steps|
    requires !StepShown(c.plan, tree, i, j) && !PhaseShown(c.plan, tree, i)
    ensures t == TaskLoop(c, i, j, 0, Resumed(tree.phases[PhaseSlot(c.plan, i)].steps[StepSlot(c.plan, i, j)].status),
                          NameSet(c.plan.phases[i].steps[j].tasks), log)
    ensures next == SetStep(tree, PhaseSlot(c.plan, i), StepSlot(c.plan, i, j), Verdict(t))
    ensures AloneGood(c.plan, next, t.log) && forall a: nat :: PhaseComplete(next, a) == PhaseComplete(tree, a)
    ensures forall left: set<string> | TasksLeft(c.plan, tree, i, j, left) ::
              TasksLeft(c.plan, next, i, j + 1,
                        if t.err.None? && t.left == {} then left - {c.plan.phases[i].steps[j].name} else left)
  {
    var plan, a, b := c.plan, PhaseSlot(c.plan, i), StepSlot(c.plan, i, j);
    var resumed := Resumed(tree.phases[a].steps[b].status);
    var names := NameSet(plan.phases[i].steps[j].tasks);
    t := TaskLoop(c, i, j, 0, resumed, names, log);
    TaskLoopFacts(c, i, j, 0, resumed, names, log);
    next := SetStep(tree, a, b, Verdict(t));
    VisitShows(plan, tree, i, j, Verdict(t));
    assert forall x: nat, y: nat | x != a || y != b :: StepComplete(next, x, y) == StepComplete(tree, x, y);
    assert t.err.None? && t.left == {} ==> StepDone(plan, t.log, c.number, i, j);
    forall x: nat, y: nat | HasTasks(plan, x, y) && StepComplete(next, x, y) ensures EverDone({}, plan, t.log, x, y) {
      AloneSlot(plan, x, y, i, j);
      LongerLog({}, plan, log, t.log, x, y);
    }
    forall x: nat, y: nat | HasTasks(plan, x, y) && PhaseComplete(next, x) ensures StepComplete(next, x, y) {
      AloneSlot(plan, x, y, i, j);
    }
    forall y: nat | HasTasks(plan, i, y)
      ensures Alone(plan, i, y) && (y != j ==> StepComplete(next, i, y) == StepComplete(tree, i, y)) {
      AloneSlot(plan, i, y, i, j);
    }
  }

  ghost predicate AloneScan(plan: Plan, i: nat, tree: PlanStatus, r: StepScan) {
    if r.err.Some? then r.tree.status.FatalError? else
    && AloneGood(plan, r.tree, r.log) && r.tree.status == tree.status
    && (forall a: nat :: PhaseComplete(r.tree, a) == PhaseComplete(tree, a))
    && (r.left == {} ==> TasksComplete(plan, r.tree, i))
  }

  lemma {:induction false} AloneSteps(c: Pass, i: nat, j: nat, tree: PlanStatus, left: set<string>, log: seq<Run>)
    requires TasksAlone(c.plan) && AloneGood(c.plan, tree, log) && i < |c.plan.phases| && j <= |c.plan.phases[i].steps|
    requires PhaseSlot(c.plan, i) < |tree.phases| && !PhaseShown(c.plan, tree, i) && TasksLeft(c.plan, tree, i, j, left)
    ensures AloneScan(c.plan, i, tree, StepLoop(c, i, PhaseSlot(c.plan, i), j, tree, left, log))
    decreases |c.plan.phases[i].steps| - j
  {
    SlotIndex(c.plan, tree, i);
    if j < |c.plan.phases[i].steps| && StepSlot(c.plan, i, j) < |tree.phases[PhaseSlot(c.plan, i)].steps| {
      if StepShown(c.plan, tree, i, j) {
        AloneSkip(c.plan, i, j, tree, left);
        AloneSteps(c, i, j + 1, tree, left - {c.plan.phases[i].steps[j].name}, log);
      } else {
        AloneStepsTurn(c, i, j, tree, left, log);
      }
    }
  }

  lemma {:induction false} AloneSkip(plan: Plan, i: nat, j: nat, tree: PlanStatus, left: set<string>)
    requires TasksAlone(plan) && InPlan(plan, i, j) && StepShown(plan, tree, i, j) && TasksLeft(plan, tree, i, j, left)
    ensures TasksLeft(plan, tree, i, j + 1, left - {plan.phases[i].steps[j].name})
  {
    forall y: nat | HasTasks(plan, i, y) && (y >= j + 1 || !StepComplete(tree, i, y))
      ensures plan.phases[i].steps[y].name in left - {plan.phases[i].steps[j].name}
    {
      AloneSlot(plan, i, y, i, j);
    }
  }

  lemma {:induction false} AloneStepsTurn(c: Pass, i: nat, j: nat, tree: PlanStatus, left: set<string>, log: seq<Run>)
    requires TasksAlone(c.plan) && AloneGood(c.plan, tree, log) && InPlan(c.plan, i, j)
    requires PhaseSlot(c.plan, i) < |tree.phases| && StepSlot(c.plan, i, j) < |tree.phases[PhaseSlot(c.plan, i)].steps|
    requires !PhaseShown(c.plan, tree, i) && !StepShown(c.plan, tree, i, j) && TasksLeft(c.plan, tree, i, j, left)
    ensures AloneScan(c.plan, i, tree, StepLoop(c, i, PhaseSlot(c.plan, i), j, tree, left, log))
    decreases |c.plan.phases[i].steps| - j, 0
  {
    var t, next := AloneVisit(c, i, j, tree, log);
    StepLoopGoesOn(c, i, j, tree, left, log, t);
    if t.err.None? {
      var left' := if t.left == {} then left - {c.plan.phases[i].steps[j].name} else left;
      assert TasksLeft(c.plan, next, i, j + 1, left');
      if t.left == {} || !c.plan.phases[i].strategy.Serial? { AloneSteps(c, i, j + 1, next, left', t.log); }
    }
  }

  /** In the middle of a pass, before phase `k`. */
  ghost predicate AloneBefore(plan: Plan, k: nat, tree: PlanStatus, phasesLeft: int, log: seq<Run>) {
    && k <= |plan.phases| && AloneGood(plan, tree, log) && tree.status.InProgress?
    && phasesLeft >= |plan.phases| - k && (phasesLeft == |plan.phases| - k ==> PhasesShown(plan, tree, k))
  }

  ghost predicate AloneEnd(plan: Plan, tree: PlanStatus, log: seq<Run>) {
    || tree.status.FatalError?
    || (AloneGood(plan, tree, log) && (tree.status.Complete? ==> PhasesShown(plan, tree, |plan.phases|)))
  }

  lemma {:induction false} AlonePlanStatus(plan: Plan, tree: PlanStatus, log: seq<Run>, status: Status)
    requires AloneGood(plan, tree, log)
    ensures AloneGood(plan, tree.(status := status), log)
    ensures forall a: nat :: PhaseComplete(tree.(status := status), a) == PhaseComplete(tree, a)
  {
    var next := tree.(status := status);
    assert forall x: nat, y: nat :: StepComplete(next, x, y) == StepComplete(tree, x, y);
    assert forall x: nat :: PhaseComplete(next, x) == PhaseComplete(tree, x);
  }

  lemma {:induction false} AlonePhaseStatus(plan: Plan, tree: PlanStatus, log: seq<Run>, i: nat, status: Status)
    requires TasksAlone(plan) && AloneGood(plan, tree, log) && i < |plan.phases| && PhaseSlot(plan, i) < |tree.phases|
    requires !PhaseShown(plan, tree, i) && (status.Complete? ==> TasksComplete(plan, tree, i))
    ensures
      var next := SetPhase(tree, PhaseSlot(plan, i), status);
      && AloneGood(plan, next, log)
      && (forall a: nat ::
        PhaseComplete(next, a) == if a == PhaseSlot(plan, i) then status.Complete? else PhaseComplete(tree, a))
  {
    var a := PhaseSlot(plan, i);
    var next := SetPhase(tree, a, status);
    assert AlignedPhase(plan.phases[a], tree.phases[a]);
    assert forall x: nat, y: nat :: StepComplete(next, x, y) == StepComplete(tree, x, y);
    forall j: nat | HasTasks(plan, a, j) && status.Complete? ensures StepComplete(tree, a, j) {
      assert Alone(plan, a, j) && i == a;
    }
  }

  lemma {:induction false} AlonePhaseTurn(c: Pass, k: nat, tree: PlanStatus, phasesLeft: int, log: seq<Run>)
    returns (s: StepScan, next: PlanStatus)
    requires TasksAlone(c.plan) && k < |c.plan.phases| && AloneBefore(c.plan, k, tree, phasesLeft, log)
    requires PhaseSlot(c.plan, k) < |tree.phases| && !PhaseShown(c.plan, tree, k)
    ensures
      var a := PhaseSlot(c.plan, k);
      && s == StepLoop(c, k, a, 0, SetPhase(tree, a, Resumed(tree.phases[a].status)),
        StepNames(c.plan.phases[k].steps), log)
      && |s.tree.phases| == |tree.phases|
      && next == if s.err.None? && s.left == {} then SetPhase(s.tree, a, Complete) else s.tree
    ensures
      if s.err.Some? then next.status.FatalError?
      else AloneBefore(c.plan, k + 1, next, if s.left == {} then phasesLeft - 1 else phasesLeft, s.log)
  {
    var a, names := PhaseSlot(c.plan, k), StepNames(c.plan.phases[k].steps);
    var started := SetPhase(tree, a, Resumed(tree.phases[a].status));
    AlonePhaseStatus(c.plan, tree, log, k, Resumed(tree.phases[a].status));
    AloneSteps(c, k, 0, started, names, log);
    s := StepLoop(c, k, a, 0, started, names, log);
    next := s.tree;
    if s.err.None? && s.left == {} {
      AlonePhaseStatus(c.plan, s.tree, s.log, k, Complete);
      next := SetPhase(s.tree, a, Complete);
      if PhasesShown(c.plan, tree, k) { ShownStays(c.plan, tree, next, k); }
    }
  }

  lemma {:induction false} AlonePhases(c: Pass, k: nat, tree: PlanStatus, phasesLeft: int, log: seq<Run>)
    requires TasksAlone(c.plan) && AloneBefore(c.plan, k, tree, phasesLeft, log)
    ensures
      var r := PhaseLoop(c, k, tree, phasesLeft, log);
      AloneEnd(c.plan, r.tree, r.log)
    decreases |c.plan.phases| - k
  {
    if k == |c.plan.phases| {
      AloneFinish(c.plan, k, tree, phasesLeft, log);
    } else {
      PhaseLoopGoesOn(c, k, tree, phasesLeft, log);
      if PhaseShown(c.plan, tree, k) {
        AlonePhases(c, k + 1, tree, phasesLeft - 1, log);
      } else {
        AlonePhasesTurn(c, k, tree, phasesLeft, log);
      }
    }
  }

  lemma {:induction false} AlonePhasesTurn(c: Pass, k: nat, tree: PlanStatus, phasesLeft: int, log: seq<Run>)
    requires TasksAlone(c.plan) && AloneBefore(c.plan, k, tree, phasesLeft, log) && k < |c.plan.phases|
        && !PhaseShown(c.plan, tree, k)
    ensures
      var r := PhaseLoop(c, k, tree, phasesLeft, log);
      AloneEnd(c.plan, r.tree, r.log)
    decreases |c.plan.phases| - k, 0
  {
    PhaseLoopGoesOn(c, k, tree, phasesLeft, log);
    var s, next := AlonePhaseTurn(c, k, tree, phasesLeft, log);
    if s.err.None? {
      if s.left != {} && c.plan.strategy.Serial? {
        AloneFinish(c.plan, k + 1, next, phasesLeft, s.log);
      } else {
        AlonePhases(c, k + 1, next, if s.left == {} then phasesLeft - 1 else phasesLeft, s.log);
      }
    }
  }

  lemma {:induction false} AloneFinish(plan: Plan, k: nat, tree: PlanStatus, phasesLeft: int, log: seq<Run>)
    requires AloneBefore(plan, k, tree, phasesLeft, log)
    ensures
      var end := Finish(tree, phasesLeft, log).tree;
      AloneEnd(plan, end, log)
  {
    AlonePlanStatus(plan, tree, log, Complete);
    if phasesLeft == 0 { ShownStays(plan, tree, tree.(status := Complete), k); }
  }

  lemma {:induction false} AloneRuns(plan: Plan, tasks: seq<Task>, tree: PlanStatus, asks: seq<Oracle>)
    requires TasksAlone(plan) && IsReset(plan, tree)
    ensures
      var r := RunAll(plan, tasks, tree, asks);
      AloneEnd(plan, r.tree, r.log)
    decreases |asks|
  {
    if asks == [] {
      ResetIsConsistent(plan, tree);
      assert forall i: nat, j: nat | InPlan(plan, i, j) && StepComplete(tree, i, j) ::
        (i, j) in CompleteSteps(plan, tree);
    } else {
      var n := |asks| - 1;
      AloneRuns(plan, tasks, tree, asks[..n]);
      var r := RunAll(plan, tasks, tree, asks[..n]);
      if !r.tree.status.IsTerminal() {
        AlonePlanStatus(plan, r.tree, r.log, InProgress);
        AlonePhases(Pass(plan, tasks, asks[n], n), 0, r.tree.(status := InProgress), |plan.phases|, r.log);
      }
    }
  }

  /** A run from a reset status to COMPLETE has got every step done, whatever the strategies, if no
      step with tasks shares its status with another step. */
  lemma {:induction false} AloneLosesNothing(plan: Plan, tasks: seq<Task>, tree: PlanStatus, asks: seq<Oracle>)
    requires TasksAlone(plan) && IsReset(plan, tree) && RunAll(plan, tasks, tree, asks).tree.status.Complete?
    ensures forall i: nat, j: nat | InPlan(plan, i, j) :: !Undone(plan, RunAll(plan, tasks, tree, asks).log, i, j)
  {
    var r := RunAll(plan, tasks, tree, asks);
    AloneRuns(plan, tasks, tree, asks);
    forall i: nat, j: nat | InPlan(plan, i, j) ensures !Undone(plan, r.log, i, j) {
      if plan.phases[i].steps[j].tasks == [] {
        assert StepDone(plan, r.log, 0, i, j);
      } else {
        assert HasTasks(plan, i, j) && PhaseShown(plan, r.tree, i);
        AloneSlot(plan, i, j, i, j);
        assert EverDone({}, plan, r.log, i, j);
      }
    }
  }

  // ----- parallel phases: otherwise some run loses work -----

  /** Phase names are pairwise distinct, and all phases are parallel. */
  ghost predicate ParallelPhases(plan: Plan) {
    && (forall a: nat, b: nat | a < b < |plan.phases| :: plan.phases[a].name != plan.phases[b].name)
    && (forall a: nat | a < |plan.phases| :: plan.phases[a].strategy.Parallel?)
  }

  ghost predicate Succeeds(c: Pass, i: nat, j: nat)
    requires InPlan(c.plan, i, j)
  {
    forall k: nat | k < |c.plan.phases[i].steps[j].tasks| :: c.ask(i, j, k).Done?
  }

  /** Every task can be run and none fails, and the last step of each name succeeds. */
  ghost predicate LastSucceeds(c: Pass) {
    forall i: nat, j: nat {:trigger StepGoesThrough(c, i, j)} | InPlan(c.plan, i, j) :: StepGoesThrough(c, i, j)
  }

  ghost predicate StepGoesThrough(c: Pass, i: nat, j: nat)
    requires InPlan(c.plan, i, j)
  {
    && (forall k: nat | k < |c.plan.phases[i].steps[j].tasks| ::
        EngineVisits.Runnable(c, i, j, k) && !c.ask(i, j, k).Fatal?)
    && SucceedsFrom(c, i, j, c.plan.phases[i].steps[j].name)
  }

  ghost predicate Flows(c: Pass) {
    ParallelPhases(c.plan) && LastSucceeds(c)
  }

  /** From step `j` on there is a step of that name that succeeds. */
  ghost predicate SucceedsFrom(c: Pass, i: nat, j: nat, name: string) {
    exists b: nat :: j <= b && InPlan(c.plan, i, b) && c.plan.phases[i].steps[b].name == name && Succeeds(c, i, b)
  }

  lemma {:induction false} VisitGoesThrough(c: Pass, i: nat, j: nat, status: Status, log: seq<Run>)
    requires LastSucceeds(c) && InPlan(c.plan, i, j)
    ensures
      var t := TaskLoop(c, i, j, 0, status, NameSet(c.plan.phases[i].steps[j].tasks), log);
      t.err.None? && (Succeeds(c, i, j) ==> t.left == {})
  {
    var tasks := c.plan.phases[i].steps[j].tasks;
    assert StepGoesThrough(c, i, j);
    var t := TaskLoop(c, i, j, 0, status, NameSet(tasks), log);
    var end := EngineVisits.TaskLoopVisits(c, i, j, 0, status, NameSet(tasks), log);
    assert forall k: nat | k < |tasks| :: EngineVisits.Runnable(c, i, j, k) && !c.ask(i, j, k).Fatal?;
    if Succeeds(c, i, j) {
      forall x | x in NameSet(tasks) ensures EngineVisits.DoneBetween(c, i, j, 0, |tasks|, x) {
        var m: nat :| m < |tasks| && tasks[m] == x;
        assert c.ask(i, j, m).Done?;
      }
    }
  }

  ghost predicate WentThrough(plan: Plan, tree: PlanStatus, r: StepScan) {
    && r.err.None? && r.left == {} && Aligned(plan, r.tree) && r.tree.status == tree.status
    && (forall a: nat :: PhaseComplete(r.tree, a) == PhaseComplete(tree, a))
  }

  lemma {:induction false} WentThroughAfter(plan: Plan, t0: PlanStatus, t1: PlanStatus, r: StepScan)
    requires WentThrough(plan, t1, r) && t1.status == t0.status && forall a: nat ::
        PhaseComplete(t1, a) == PhaseComplete(t0, a)
    ensures WentThrough(plan, t0, r)
  {
  }

  lemma {:induction false} StepsGoThrough(c: Pass, i: nat, j: nat, tree: PlanStatus, left: set<string>, log: seq<Run>)
    requires Flows(c) && Aligned(c.plan, tree)
    requires i < |c.plan.phases| && j <= |c.plan.phases[i].steps|
    requires forall x | x in left :: SucceedsFrom(c, i, j, x)
    ensures WentThrough(c.plan, tree, StepLoop(c, i, i, j, tree, left, log))
    decreases |c.plan.phases[i].steps| - j
  {
    var steps := c.plan.phases[i].steps;
    SlotIndex(c.plan, tree, i);
    OwnSlot(c.plan, i);
    if j == |steps| {
      assert forall x :: !SucceedsFrom(c, i, j, x);
    } else if StepShown(c.plan, tree, i, j) {
      LaterSucceeds(c, i, j, left - {steps[j].name});
      StepsGoThrough(c, i, j + 1, tree, left - {steps[j].name}, log);
    } else {
      StepsGoThroughTurn(c, i, j, tree, left, log);
    }
  }

  lemma {:induction false} LaterSucceeds(c: Pass, i: nat, j: nat, left: set<string>)
    requires InPlan(c.plan, i, j) && forall x | x in left :: SucceedsFrom(c, i, j, x)
    requires c.plan.phases[i].steps[j].name in left ==> !Succeeds(c, i, j)
    ensures forall x | x in left :: SucceedsFrom(c, i, j + 1, x)
  {
    forall x | x in left ensures SucceedsFrom(c, i, j + 1, x) {
      var b: nat :| j <= b && InPlan(c.plan, i, b) && c.plan.phases[i].steps[b].name == x && Succeeds(c, i, b);
      assert b != j;
    }
  }

  lemma {:induction false} StepsGoThroughTurn(c: Pass, i: nat, j: nat, tree: PlanStatus, left: set<string>,
                                              log: seq<Run>)
    requires Flows(c) && Aligned(c.plan, tree) && InPlan(c.plan, i, j)
    requires !StepShown(c.plan, tree, i, j) && forall x | x in left :: SucceedsFrom(c, i, j, x)
    ensures WentThrough(c.plan, tree, StepLoop(c, i, i, j, tree, left, log))
    decreases |c.plan.phases[i].steps| - j, 0
  {
    var next, left', more := StepGoesOn(c, i, j, tree, left, log);
    LaterSucceeds(c, i, j, left');
    StepsGoThrough(c, i, j + 1, next, left', more);
  }

  /** The step loop goes on after the visit of an open step, which drops out if it succeeds. */
  lemma {:induction false} StepGoesOn(c: Pass, i: nat, j: nat, tree: PlanStatus, left: set<string>, log: seq<Run>)
    returns (next: PlanStatus, left': set<string>, more: seq<Run>)
    requires Flows(c) && Aligned(c.plan, tree) && InPlan(c.plan, i, j)
    requires !StepShown(c.plan, tree, i, j)
    ensures i < |tree.phases| && i < |next.phases| && Aligned(c.plan, next)
    ensures left' <= left && (c.plan.phases[i].steps[j].name in left' ==> !Succeeds(c, i, j))
    ensures WentThrough(c.plan, next, StepLoop(c, i, i, j + 1, next, left', more)) ==>
              WentThrough(c.plan, tree, StepLoop(c, i, i, j, tree, left, log))
  {
    OwnSlot(c.plan, i);
    SlotIndex(c.plan, tree, i);
    var b := StepSlot(c.plan, i, j);
    var resumed := Resumed(tree.phases[i].steps[b].status);
    var t := TaskLoop(c, i, j, 0, resumed, NameSet(c.plan.phases[i].steps[j].tasks), log);
    VisitGoesThrough(c, i, j, resumed, log);
    VisitShows(c.plan, tree, i, j, Verdict(t));
    StepLoopGoesOn(c, i, j, tree, left, log, t);
    left' := if t.left == {} then left - {c.plan.phases[i].steps[j].name} else left;
    next, more := SetStep(tree, i, b, Verdict(t)), t.log;
    var r := StepLoop(c, i, i, j + 1, next, left', more);
    if WentThrough(c.plan, next, r) { WentThroughAfter(c.plan, tree, next, r); }
  }

  lemma {:induction false} PhasesGoThrough(c: Pass, k: nat, tree: PlanStatus, phasesLeft: int, log: seq<Run>)
    requires Flows(c) && Aligned(c.plan, tree) && k <= |c.plan.phases| && phasesLeft == |c.plan.phases| - k
    ensures PhaseLoop(c, k, tree, phasesLeft, log).tree.status == Complete
    decreases |c.plan.phases| - k
  {
    if k == |c.plan.phases| {
      assert PhaseLoop(c, k, tree, phasesLeft, log) == Finish(tree, 0, log);
    } else {
      var more, next := PhaseGoesOn(c, k, tree, phasesLeft, log);
      PhasesGoThrough(c, k + 1, next, phasesLeft - 1, more);
    }
  }

  lemma {:induction false} OwnSlot(plan: Plan, k: nat)
    requires ParallelPhases(plan) && k < |plan.phases|
    ensures PhaseSlot(plan, k) == k
  {
  }

  /** The phase loop goes on with the next phase, and counts this one. */
  lemma {:induction false} PhaseGoesOn(c: Pass, k: nat, tree: PlanStatus, phasesLeft: int, log: seq<Run>)
    returns (more: seq<Run>, next: PlanStatus)
    requires Flows(c) && Aligned(c.plan, tree) && k < |c.plan.phases|
    ensures Aligned(c.plan, next)
    ensures PhaseLoop(c, k + 1, next, phasesLeft - 1, more).tree.status == Complete ==>
              PhaseLoop(c, k, tree, phasesLeft, log).tree.status == Complete
  {
    PhaseLoopGoesOn(c, k, tree, phasesLeft, log);
    OwnSlot(c.plan, k);
    more, next := log, tree;
    if !PhaseShown(c.plan, tree, k) {
      var s := PhaseGoesThrough(c, k, tree, log);
      more, next := s.log, SetPhase(s.tree, k, Complete);
    }
  }

  lemma {:induction false} PhaseGoesThrough(c: Pass, k: nat, tree: PlanStatus, log: seq<Run>) returns (s: StepScan)
    requires Flows(c) && Aligned(c.plan, tree) && k < |c.plan.phases|
    ensures k < |tree.phases|
    ensures s == StepLoop(c, k, k, 0, SetPhase(tree, k, Resumed(tree.phases[k].status)),
        StepNames(c.plan.phases[k].steps), log)
    ensures s.err.None? && s.left == {} && k < |s.tree.phases| && Aligned(c.plan, SetPhase(s.tree, k, Complete))
  {
    var started, names := SetPhase(tree, k, Resumed(tree.phases[k].status)), StepNames(c.plan.phases[k].steps);
    assert AlignedPhase(c.plan.phases[k], tree.phases[k]);
    forall x | x in names ensures SucceedsFrom(c, k, 0, x) {
      var b: nat :| b < |c.plan.phases[k].steps| && c.plan.phases[k].steps[b].name == x;
      assert StepGoesThrough(c, k, b) && SucceedsFrom(c, k, b, x);
    }
    StepsGoThrough(c, k, 0, started, names, log);
    s := StepLoop(c, k, k, 0, started, names, log);
    assert AlignedPhase(c.plan.phases[k], s.tree.phases[k]);
  }

  /** Every task of the plan is known and builds. */
  ghost predicate AllKnown(plan: Plan, tasks: seq<Task>) {
    forall i: nat, j: nat, k: nat | InPlan(plan, i, j) && k < |plan.phases[i].steps[j].tasks| ::
      IsKnown(tasks, plan.phases[i].steps[j].tasks[k])
  }

  ghost predicate IsKnown(tasks: seq<Task>, name: string) {
    TaskIndex(tasks, name) < |tasks| && tasks[TaskIndex(tasks, name)].builds
  }

  /** Every task reports done, but for those of one step. */
  function AllBut(i: nat, j: nat): Oracle { (a, b, k) => if a == i && b == j then NotDone else Done }

  const ALL_DONE: Oracle := (_, _, _) => Done

  lemma {:induction false} OnePassRun(plan: Plan, tasks: seq<Task>, tree: PlanStatus, ask: Oracle)
    requires ParallelPhases(plan) && IsReset(plan, tree) && LastSucceeds(Pass(plan, tasks, ask, 0))
    ensures RunAll(plan, tasks, tree, [ask]) == ExecutePass(Pass(plan, tasks, ask, 0), tree, [])
    ensures RunAll(plan, tasks, tree, [ask]).tree.status.Complete?
  {
    assert [ask][..0] == [] && RunAll(plan, tasks, tree, []) == Result(tree, None, []);
    var started := tree.(status := InProgress);
    assert Aligned(plan, started);
    PhasesGoThrough(Pass(plan, tasks, ask, 0), 0, started, |plan.phases|, []);
  }

  lemma {:induction false} AllDoneGoesThrough(plan: Plan, tasks: seq<Task>)
    requires AllKnown(plan, tasks)
    ensures LastSucceeds(Pass(plan, tasks, ALL_DONE, 0))
  {
    var c := Pass(plan, tasks, ALL_DONE, 0);
    forall i: nat, j: nat | InPlan(plan, i, j) ensures StepGoesThrough(c, i, j) {
      SucceedsAt(c, i, j, j);
      KnownRuns(c, i, j);
    }
  }

  lemma {:induction false} KnownRuns(c: Pass, i: nat, j: nat)
    requires AllKnown(c.plan, c.tasks) && InPlan(c.plan, i, j)
    ensures forall k: nat | k < |c.plan.phases[i].steps[j].tasks| :: EngineVisits.Runnable(c, i, j, k)
  {
    forall k: nat | k < |c.plan.phases[i].steps[j].tasks| ensures EngineVisits.Runnable(c, i, j, k) {
      assert IsKnown(c.tasks, c.plan.phases[i].steps[j].tasks[k]);
    }
  }

  lemma {:induction false} AllButGoesThrough(plan: Plan, tasks: seq<Task>, i: nat, j: nat, y: nat)
    requires AllKnown(plan, tasks) && InPlan(plan, i, j) && InPlan(plan, i, y) && j < y
    requires plan.phases[i].steps[y].name == plan.phases[i].steps[j].name
    ensures LastSucceeds(Pass(plan, tasks, AllBut(i, j), 0))
  {
    var c := Pass(plan, tasks, AllBut(i, j), 0);
    forall a: nat, b: nat | InPlan(plan, a, b) ensures StepGoesThrough(c, a, b) {
      SucceedsAt(c, a, b, if a == i && b == j then y else b);
      KnownRuns(c, a, b);
    }
  }

  lemma {:induction false} SucceedsAt(c: Pass, i: nat, j: nat, b: nat)
    requires InPlan(c.plan, i, j) && InPlan(c.plan, i, b) && j <= b && Succeeds(c, i, b)
    requires c.plan.phases[i].steps[b].name == c.plan.phases[i].steps[j].name
    ensures SucceedsFrom(c, i, j, c.plan.phases[i].steps[j].name)
  {
  }

  lemma {:induction false} NotDoneIsUndone(plan: Plan, tasks: seq<Task>, tree: PlanStatus, i: nat, j: nat)
    requires HasTasks(plan, i, j)
    ensures Undone(plan, ExecutePass(Pass(plan, tasks, AllBut(i, j), 0), tree, []).log, i, j)
  {
    var c := Pass(plan, tasks, AllBut(i, j), 0);
    var log := ExecutePass(c, tree, []).log;
    EngineLogs.PassRuns(c, tree);
    forall pass: nat ensures !StepDone(plan, log, pass, i, j) {
      var name := plan.phases[i].steps[j].tasks[0];
      forall n | 0 <= n < |log| ensures !IsDone(plan, log[n], pass, i, j, name) {
        assert EngineLogs.IsRunOf(c, log[n]);
      }
      assert !TaskDone(plan, log, pass, i, j, name);
    }
  }

  /** If a step with tasks shares its status with another step of its parallel phase, then some run
      from a reset status to COMPLETE, a single pass without a failure, loses work. */
  lemma {:induction false} SharedCanLose(plan: Plan, tasks: seq<Task>, tree: PlanStatus, i: nat, j: nat)
    returns (ask: Oracle)
    requires ParallelPhases(plan) && AllKnown(plan, tasks) && IsReset(plan, tree) && HasTasks(plan, i, j)
        && !Alone(plan, i, j)
    ensures RunAll(plan, tasks, tree, [ask]).tree.status.Complete?
    ensures exists x: nat, y: nat :: Undone(plan, RunAll(plan, tasks, tree, [ask]).log, x, y)
  {
    var y: nat :| y < |plan.phases[i].steps| && y != j && plan.phases[i].steps[y].name == plan.phases[i].steps[j].name;
    if j < y && plan.phases[i].steps[y].tasks == [] {
      ask := AllBut(i, j);
      AllButGoesThrough(plan, tasks, i, j, y);
      OnePassRun(plan, tasks, tree, ask);
      NotDoneIsUndone(plan, tasks, tree, i, j);
    } else {
      ask := ALL_DONE;
      AllDoneGoesThrough(plan, tasks);
      OnePassRun(plan, tasks, tree, ask);
      SharedStatusLosesWork(plan, tasks, tree, [ask], i, if j < y then y else j);
    }
  }

  /** For plans with parallel phases of different names, the tasks of which all build: every run
      from a reset status to COMPLETE gets every step done if and only if no step with tasks shares
      its name with another step of its phase. */
  lemma {:induction false} ParallelLosesNothingExactly(plan: Plan, tasks: seq<Task>, tree: PlanStatus)
    requires ParallelPhases(plan) && AllKnown(plan, tasks) && IsReset(plan, tree)
    ensures (forall asks :: LosesNothing(plan, tasks, tree, asks)) <==> TasksAlone(plan)
  {
    if TasksAlone(plan) {
      forall asks ensures LosesNothing(plan, tasks, tree, asks) {
        if RunAll(plan, tasks, tree, asks).tree.status.Complete? { AloneLosesNothing(plan, tasks, tree, asks); }
      }
    } else {
      var i: nat, j: nat :| HasTasks(plan, i, j) && !Alone(plan, i, j);
      var ask := SharedCanLose(plan, tasks, tree, i, j);
      assert !LosesNothing(plan, tasks, tree, [ask]);
    }
  }

  ghost predicate LosesNothing(plan: Plan, tasks: seq<Task>, tree: PlanStatus, asks: seq<Oracle>) {
    RunAll(plan, tasks, tree, asks).tree.status.Complete? ==>
      forall x: nat, y: nat | InPlan(plan, x, y) :: !Undone(plan, RunAll(plan, tasks, tree, asks).log, x, y)
  }
}
