/** The frontier of a serial plan, and how many passes a plan needs. */
module EngineProgress {
  import opened Plans
  import opened Engine
  import opened EngineRuns
  import opened EngineTheorems
  import opened EngineStatus

  // ----- a serial plan reads COMPLETE*, one frontier item, PENDING* -----

  /** The steps of phase `i`: COMPLETE before `f`, PENDING after it. */
  ghost predicate PhaseFrontier(plan: Plan, tree: PlanStatus, i: nat, f: nat)
    requires i < |plan.phases|
  {
    && f <= |plan.phases[i].steps|
    && (forall b: nat | b < f :: StepComplete(tree, i, b))
    && (forall b: nat | f < b < |plan.phases[i].steps| :: StepPending(tree, i, b))
  }

  ghost predicate PhasePending(plan: Plan, tree: PlanStatus, i: nat)
    requires i < |plan.phases|
  {
    && i < |tree.phases| && tree.phases[i].status.Pending?
    && (forall b: nat | b < |plan.phases[i].steps| :: StepPending(tree, i, b))
  }

  /** The plan has got as far as step `f` of phase `i`; past the last phase it is done. */
  ghost predicate Frontier(plan: Plan, tree: PlanStatus, i: nat, f: nat) {
    && i <= |plan.phases|
    && (forall a: nat | a < i :: PhaseComplete(tree, a))
    && (forall a: nat | i < a < |plan.phases| :: PhasePending(plan, tree, a))
    && (i < |plan.phases| ==> PhaseFrontier(plan, tree, i, f))
  }

  lemma {:induction false} VisitFrontier(plan: Plan, tree: PlanStatus, i: nat, f: nat, status: Status)
    requires Aligned(plan, tree) && InPlan(plan, i, f) && PhaseFrontier(plan, tree, i, f)
    ensures
      var next := SetStep(tree, i, f, status);
      && PhaseFrontier(plan, next, i, if status.Complete? then f + 1 else f)
      && (status.FatalError? ==> PhaseFrontier(plan, Abort(next, i), i, f))
  {
    var next := SetStep(tree, i, f, status);
    assert forall b: nat | b != f :: StepComplete(next, i, b) == StepComplete(tree, i, b);
    assert forall b: nat | b != f :: StepPending(next, i, b) == StepPending(tree, i, b);
    assert forall b: nat :: StepComplete(Abort(next, i), i, b) == StepComplete(next, i, b);
    assert forall b: nat :: StepPending(Abort(next, i), i, b) == StepPending(next, i, b);
  }

  ghost predicate SameOtherPhases(t0: PlanStatus, t1: PlanStatus, i: nat) {
    |t0.phases| == |t1.phases| && forall a | 0 <= a < |t0.phases| && a != i :: t1.phases[a] == t0.phases[a]
  }

  lemma {:induction false} StepLoopFrontier(c: Pass, i: nat, j: nat, tree: PlanStatus, left: set<string>, log: seq<Run>,
                                            f: nat)
    returns (f': nat)
    requires UniqueNames(c.plan) && Aligned(c.plan, tree) && i < |c.plan.phases| && c.plan.phases[i].strategy.Serial?
    requires PhaseFrontier(c.plan, tree, i, f) && j <= f
    ensures PhaseFrontier(c.plan, StepLoop(c, i, i, j, tree, left, log).tree, i, f')
    ensures SameOtherPhases(tree, StepLoop(c, i, i, j, tree, left, log).tree, i)
    decreases |c.plan.phases[i].steps| - j
  {
    var steps := c.plan.phases[i].steps;
    f' := f;
    if j < |steps| {
      AlignedIndex(c.plan, tree, i);
      if StepComplete(tree, i, j) {
        f' := StepLoopFrontier(c, i, j + 1, tree, left - {steps[j].name}, log, if j == f then f + 1 else f);
      } else {
        f' := StepLoopFrontierTurn(c, i, tree, left, log, f);
      }
    }
  }

  /** One visit of the frontier step: `t` is what its tasks came to, `next` the tree it leaves. */
  lemma {:induction false} FrontierVisit(c: Pass, i: nat, tree: PlanStatus, log: seq<Run>, f: nat)
    returns (t: TaskScan, next: PlanStatus)
    requires Aligned(c.plan, tree) && InPlan(c.plan, i, f) && f < |tree.phases[i].steps|
    requires PhaseFrontier(c.plan, tree, i, f) && !StepComplete(tree, i, f)
    ensures t == TaskLoop(c, i, f, 0, Resumed(tree.phases[i].steps[f].status),
        NameSet(c.plan.phases[i].steps[f].tasks), log)
    ensures
      var moved := SetStep(tree, i, f, Verdict(t));
      next == if t.err.Some? then Abort(moved, i) else moved
    ensures Aligned(c.plan, next) && SameOtherPhases(tree, next, i)
    ensures PhaseFrontier(c.plan, next, i, if t.err.None? && t.left == {} then f + 1 else f)
  {
    var resumed := Resumed(tree.phases[i].steps[f].status);
    var names := NameSet(c.plan.phases[i].steps[f].tasks);
    t := TaskLoop(c, i, f, 0, resumed, names, log);
    TaskLoopFacts(c, i, f, 0, resumed, names, log);
    VisitFrontier(c.plan, tree, i, f, Verdict(t));
    next := SetStep(tree, i, f, Verdict(t));
    if t.err.Some? { next := Abort(next, i); }
  }

  lemma {:induction false} StepLoopFrontierTurn(c: Pass, i: nat, tree: PlanStatus, left: set<string>, log: seq<Run>,
                                                f: nat)
    returns (f': nat)
    requires UniqueNames(c.plan) && Aligned(c.plan, tree) && InPlan(c.plan, i, f) && c.plan.phases[i].strategy.Serial?
    requires PhaseFrontier(c.plan, tree, i, f) && !StepComplete(tree, i, f)
    ensures PhaseFrontier(c.plan, StepLoop(c, i, i, f, tree, left, log).tree, i, f')
    ensures SameOtherPhases(tree, StepLoop(c, i, i, f, tree, left, log).tree, i)
    decreases |c.plan.phases[i].steps| - f, 0
  {
    AlignedIndex(c.plan, tree, i);
    var t, next := FrontierVisit(c, i, tree, log, f);
    f' := f;
    if t.err.None? && t.left == {} {
      f' := StepLoopFrontier(c, i, f + 1, next, left - {c.plan.phases[i].steps[f].name}, t.log, f + 1);
    }
  }

  /** A COMPLETE frontier phase hands the frontier on to the next one. */
  lemma {:induction false} FrontierAdvances(plan: Plan, tree: PlanStatus, i: nat, f: nat)
    requires Frontier(plan, tree, i, f) && i < |plan.phases| && PhaseComplete(tree, i)
    ensures Frontier(plan, tree, i + 1, 0)
  {
    if i + 1 < |plan.phases| { assert PhasePending(plan, tree, i + 1); }
  }

  lemma {:induction false} PhaseLoopFrontier(given: Given, c: Pass, i: nat, tree: PlanStatus, phasesLeft: int,
                                             log: seq<Run>, fi: nat, f: nat)
    returns (fi': nat, f': nat)
    requires UniqueNames(c.plan) && FullySerial(c.plan) && Good(given, c.plan, tree, log) && tree.status.InProgress?
    requires Frontier(c.plan, tree, fi, f) && i <= fi
    ensures Frontier(c.plan, PhaseLoop(c, i, tree, phasesLeft, log).tree, fi', f')
    decreases |c.plan.phases| - i
  {
    fi', f' := fi, f;
    if i == |c.plan.phases| {
      FrontierIgnoresPlanStatus(c.plan, tree, fi, f, Complete);
    } else if PhaseComplete(tree, i) {
      AlignedIndex(c.plan, tree, i);
      if i == fi {
        FrontierAdvances(c.plan, tree, fi, f);
        fi', f' := fi + 1, 0;
      }
      fi', f' := PhaseLoopFrontier(given, c, i + 1, tree, phasesLeft - 1, log, fi', f');
    } else {
      fi', f' := PhaseLoopFrontierTurn(given, c, i, tree, phasesLeft, log, f);
    }
  }

  lemma {:induction false} PhaseLoopFrontierTurn(given: Given, c: Pass, i: nat, tree: PlanStatus, phasesLeft: int,
                                                 log: seq<Run>, f: nat)
    returns (fi': nat, f': nat)
    requires UniqueNames(c.plan) && FullySerial(c.plan) && Good(given, c.plan, tree, log) && tree.status.InProgress?
    requires i < |c.plan.phases| && Frontier(c.plan, tree, i, f) && !PhaseComplete(tree, i)
    ensures Frontier(c.plan, PhaseLoop(c, i, tree, phasesLeft, log).tree, fi', f')
    decreases |c.plan.phases| - i, 0
  {
    AlignedIndex(c.plan, tree, i);
    var s, next, g := PhaseTurnFrontier(given, c, i, tree, log, f);
    fi', f' := i, g;
    if s.err.None? && s.left == {} {
      FrontierAdvances(c.plan, next, i, g);
      fi', f' := PhaseLoopFrontier(given, c, i + 1, next, phasesLeft - 1, s.log, i + 1, 0);
    } else {
      FrontierIgnoresPlanStatus(c.plan, next, i, g, Complete);
    }
  }

  lemma {:induction false} PhaseTurnFrontier(given: Given, c: Pass, i: nat, tree: PlanStatus, log: seq<Run>, f: nat)
    returns (s: StepScan, next: PlanStatus, f': nat)
    requires UniqueNames(c.plan) && FullySerial(c.plan) && Good(given, c.plan, tree, log) && tree.status.InProgress?
    requires i < |c.plan.phases| && Frontier(c.plan, tree, i, f) && !PhaseComplete(tree, i)
    ensures s == StepLoop(c, i, i, 0, SetPhase(tree, i, Resumed(tree.phases[i].status)),
        StepNames(c.plan.phases[i].steps), log)
    ensures i < |s.tree.phases|
    ensures next == if s.err.None? && s.left == {} then SetPhase(s.tree, i, Complete) else s.tree
    ensures Frontier(c.plan, next, i, f') && Good(given, c.plan, next, s.log)
    ensures s.err.None? ==> next.status.InProgress? && PhaseComplete(next, i) == (s.left == {})
  {
    s, next := PhaseTurn(given, c, i, tree, log);
    var started := SetPhase(tree, i, Resumed(tree.phases[i].status));
    assert forall b: nat :: StepComplete(started, i, b) == StepComplete(tree, i, b);
    assert forall b: nat :: StepPending(started, i, b) == StepPending(tree, i, b);
    f' := StepLoopFrontier(c, i, 0, started, StepNames(c.plan.phases[i].steps), log, f);
    OthersPending(c.plan, tree, s.tree, i);
    OthersPending(c.plan, s.tree, next, i);
    assert forall b: nat :: StepComplete(next, i, b) == StepComplete(s.tree, i, b);
    assert forall b: nat :: StepPending(next, i, b) == StepPending(s.tree, i, b);
  }

  lemma {:induction false} OthersPending(plan: Plan, t0: PlanStatus, t1: PlanStatus, i: nat)
    requires |t0.phases| == |t1.phases| == |plan.phases|
    requires SameOtherPhases(t0, t1, i)
    ensures forall a: nat | a < |plan.phases| && a != i && PhasePending(plan, t0, a) :: PhasePending(plan, t1, a)
    ensures forall a: nat | a < |plan.phases| && a != i :: PhaseComplete(t1, a) == PhaseComplete(t0, a)
  {
    assert forall a: nat, b: nat | a != i && StepPending(t0, a, b) :: StepPending(t1, a, b);
  }

  lemma {:induction false} FrontierIgnoresPlanStatus(plan: Plan, tree: PlanStatus, i: nat, f: nat, status: Status)
    requires Frontier(plan, tree, i, f)
    ensures Frontier(plan, tree.(status := status), i, f)
  {
    var next := tree.(status := status);
    assert forall a: nat :: PhaseComplete(next, a) == PhaseComplete(tree, a);
    assert forall a: nat, b: nat ::
        StepComplete(next, a, b) == StepComplete(tree, a, b) && StepPending(next, a, b) == StepPending(tree, a, b);
    assert forall a: nat | a < |plan.phases| && PhasePending(plan, tree, a) :: PhasePending(plan, next, a);
  }

  /** Over any run of a serial plan with serial phases from a reset status, the statuses read
      COMPLETE up to a frontier and PENDING beyond it. */
  lemma {:induction false} SerialFrontier(plan: Plan, tasks: seq<Task>, tree: PlanStatus, asks: seq<Oracle>)
    returns (i: nat, f: nat)
    requires UniqueNames(plan) && FullySerial(plan) && IsReset(plan, tree)
    ensures Frontier(plan, RunAll(plan, tasks, tree, asks).tree, i, f)
    decreases |asks|
  {
    i, f := 0, 0;
    if asks == [] {
      assert forall a: nat | a < |plan.phases| :: PhasePending(plan, tree, a);
    } else {
      var n := |asks| - 1;
      i, f := SerialFrontier(plan, tasks, tree, asks[..n]);
      var before := RunAll(plan, tasks, tree, asks[..n]);
      if !before.tree.status.IsTerminal() {
        ResetIsConsistent(plan, tree);
        RunInvariant(plan, tasks, tree, asks[..n]);
        FrontierIgnoresPlanStatus(plan, before.tree, i, f, InProgress);
        GoodIgnoresPlanStatus({}, plan, before.tree, before.log, InProgress);
        i, f := PhaseLoopFrontier({}, Pass(plan, tasks, asks[n], n), 0, before.tree.(status := InProgress),
          |plan.phases|, before.log, i, f);
      }
    }
  }

  lemma {:induction false} GoodIgnoresPlanStatus(given: Given, plan: Plan, tree: PlanStatus, log: seq<Run>,
                                                 status: Status)
    requires Good(given, plan, tree, log)
    ensures Good(given, plan, tree.(status := status), log)
  {
    var next := tree.(status := status);
    assert forall a: nat, b: nat :: StepComplete(next, a, b) == StepComplete(tree, a, b);
    assert forall a: nat :: PhaseComplete(next, a) == PhaseComplete(tree, a);
  }

  // ----- how many passes a plan needs -----

  ghost function OpenSteps(plan: Plan, tree: PlanStatus): set<(nat, nat)> {
    set i, j | 0 <= i < |plan.phases| && 0 <= j < |plan.phases[i].steps| && !StepComplete(tree, i, j) :: (i, j)
  }

  lemma {:induction false} SmallerSet<T>(a: set<T>, b: set<T>)
    requires a <= b
    ensures |a| <= |b|
    ensures a != b ==> |a| < |b|
  {
    if a != b {
      var x :| x in b && x !in a;
      if a == b - {x} {
      } else {
        SmallerSet(a, b - {x});
      }
    }
  }

  /** The number of incomplete steps never rises between passes. */
  lemma {:induction false} OpenStepsNeverRise(c: Pass, tree: PlanStatus, log: seq<Run>)
    ensures
      var end := ExecutePass(c, tree, log).tree;
      OpenSteps(c.plan, end) <= OpenSteps(c.plan, tree) && |OpenSteps(c.plan, end)| <= |OpenSteps(c.plan, tree)|
  {
    CompleteIsNeverLeft(c, tree, log);
    SmallerSet(OpenSteps(c.plan, ExecutePass(c, tree, log).tree), OpenSteps(c.plan, tree));
  }

  /** No pass can meet a missing, an unbuildable or a fatally failing task. */
  ghost predicate NothingFails(c: Pass) {
    forall i: nat, j: nat, k: nat | InPlan(c.plan, i, j) && k < |c.plan.phases[i].steps[j].tasks| ::
      TaskRuns(c, i, j, k)
  }

  ghost predicate TaskRuns(c: Pass, i: nat, j: nat, k: nat)
    requires InPlan(c.plan, i, j) && k < |c.plan.phases[i].steps[j].tasks|
  {
    var t := TaskIndex(c.tasks, c.plan.phases[i].steps[j].tasks[k]);
    t < |c.tasks| && c.tasks[t].builds && !c.ask(i, j, k).Fatal?
  }

  /** (i, j) is the first incomplete step, in plan order. */
  ghost predicate FirstOpen(plan: Plan, tree: PlanStatus, i: nat, j: nat) {
    && InPlan(plan, i, j) && !StepComplete(tree, i, j)
    && (forall i0: nat, j0: nat | InPlan(plan, i0, j0) && Earlier(i0, j0, i, j) :: StepComplete(tree, i0, j0))
  }

  ghost predicate StepSucceeds(c: Pass, i: nat, j: nat)
    requires InPlan(c.plan, i, j)
  {
    forall k: nat | k < |c.plan.phases[i].steps[j].tasks| :: c.ask(i, j, k).Done?
  }

  lemma {:induction false} TaskLoopSucceeds(c: Pass, i: nat, j: nat, k: nat, status: Status, left: set<string>,
                                            log: seq<Run>)
    requires NothingFails(c) && InPlan(c.plan, i, j) && k <= |c.plan.phases[i].steps[j].tasks|
    requires StepSucceeds(c, i, j) ==> left <= NameSet(c.plan.phases[i].steps[j].tasks[k..])
    ensures TaskLoop(c, i, j, k, status, left, log).err.None?
    ensures StepSucceeds(c, i, j) ==> TaskLoop(c, i, j, k, status, left, log).left == {}
    decreases |c.plan.phases[i].steps[j].tasks| - k
  {
    var names := c.plan.phases[i].steps[j].tasks;
    if k < |names| {
      assert TaskRuns(c, i, j, k);
      var outcome := c.ask(i, j, k);
      var left' := if outcome.Done? then left - {names[k]} else left;
      assert names[k..] == [names[k]] + names[k + 1..];
      TaskLoopSucceeds(c, i, j, k + 1, if outcome.Transient? then Error else status, left',
                       log + [Run(c.number, i, j, k, outcome)]);
    }
  }

  /** Nothing fails, so the step loop goes through. */
  lemma {:induction false} StepLoopGoesThrough(c: Pass, i: nat, j: nat, tree: PlanStatus, left: set<string>,
                                               log: seq<Run>)
    requires UniqueNames(c.plan) && Aligned(c.plan, tree) && NothingFails(c)
    requires i < |c.plan.phases| && j <= |c.plan.phases[i].steps|
    ensures StepLoop(c, i, i, j, tree, left, log).err.None?
    decreases |c.plan.phases[i].steps| - j
  {
    var steps := c.plan.phases[i].steps;
    if j < |steps| {
      AlignedIndex(c.plan, tree, i);
      if StepComplete(tree, i, j) {
        StepLoopGoesThrough(c, i, j + 1, tree, left - {steps[j].name}, log);
      } else {
        var t := VisitSucceeds(c, i, j, tree, log);
        if t.left == {} {
          StepLoopGoesThrough(c, i, j + 1, SetStep(tree, i, j, Complete), left - {steps[j].name}, t.log);
        } else if !c.plan.phases[i].strategy.Serial? {
          StepLoopGoesThrough(c, i, j + 1, SetStep(tree, i, j, t.status), left, t.log);
        }
      }
    }
  }

  lemma {:induction false} VisitSucceeds(c: Pass, i: nat, j: nat, tree: PlanStatus, log: seq<Run>) returns (t: TaskScan)
    requires Aligned(c.plan, tree) && NothingFails(c) && InPlan(c.plan, i, j) && j < |tree.phases[i].steps|
    ensures t == TaskLoop(c, i, j, 0, Resumed(tree.phases[i].steps[j].status),
        NameSet(c.plan.phases[i].steps[j].tasks), log)
    ensures t.err.None? && (StepSucceeds(c, i, j) ==> t.left == {})
  {
    var names := c.plan.phases[i].steps[j].tasks;
    assert names[0..] == names;
    TaskLoopSucceeds(c, i, j, 0, Resumed(tree.phases[i].steps[j].status), NameSet(names), log);
    t := TaskLoop(c, i, j, 0, Resumed(tree.phases[i].steps[j].status), NameSet(names), log);
  }

  /** The step loop reaches step `f`, the first open one, and completes it. */
  lemma {:induction false} StepLoopReaches(c: Pass, i: nat, j: nat, tree: PlanStatus, left: set<string>, log: seq<Run>,
                                           f: nat)
    requires UniqueNames(c.plan) && Aligned(c.plan, tree) && NothingFails(c) && InPlan(c.plan, i, f)
    requires j <= f && !PhaseComplete(tree, i) && StepSucceeds(c, i, f)
    requires forall b: nat | b < f :: StepComplete(tree, i, b)
    ensures StepComplete(StepLoop(c, i, i, j, tree, left, log).tree, i, f)
    decreases |c.plan.phases[i].steps| - j
  {
    var name := c.plan.phases[i].steps[j].name;
    AlignedIndex(c.plan, tree, i);
    if j < f {
      assert StepComplete(tree, i, j);
      StepLoopReaches(c, i, j + 1, tree, left - {name}, log, f);
    } else if StepComplete(tree, i, j) {
      StepLoopKeepsComplete(c, i, i, j, tree, left, log);
    } else {
      var t := VisitSucceeds(c, i, j, tree, log);
      var next := SetStep(tree, i, j, Complete);
      assert StepComplete(next, i, j);
      StepLoopKeepsComplete(c, i, i, j + 1, next, left - {name}, t.log);
    }
  }

  ghost predicate Settled(plan: Plan, tree: PlanStatus, i: nat)
    requires i < |plan.phases|
  {
    PhaseComplete(tree, i) || exists b: nat | b < |plan.phases[i].steps| :: !StepComplete(tree, i, b)
  }

  /** One turn of the phase loop in which nothing fails. */
  lemma {:induction false} PhaseTurnSucceeds(given: Given, c: Pass, i: nat, tree: PlanStatus, log: seq<Run>)
    returns (s: StepScan, next: PlanStatus)
    requires UniqueNames(c.plan) && NothingFails(c) && i < |c.plan.phases| && tree.status.InProgress?
    requires Good(given, c.plan, tree, log) && PhaseGate(c.plan, tree, i) && !PhaseComplete(tree, i)
    ensures s == StepLoop(c, i, i, 0, SetPhase(tree, i, Resumed(tree.phases[i].status)),
        StepNames(c.plan.phases[i].steps), log)
    ensures s.err.None? && i < |s.tree.phases|
    ensures next == if s.left == {} then SetPhase(s.tree, i, Complete) else s.tree
    ensures Good(given, c.plan, next, s.log) && Follows(c, tree, log, next, s.log) && next.status.InProgress?
    ensures SameOtherPhases(tree, next, i)
    ensures PhaseGate(c.plan, next, i) && PhaseComplete(next, i) == (s.left == {})
    ensures s.left == {} <==> forall b: nat | b < |c.plan.phases[i].steps| :: StepComplete(next, i, b)
    ensures forall b: nat :: StepComplete(next, i, b) == StepComplete(s.tree, i, b)
  {
    s, next := PhaseTurn(given, c, i, tree, log);
    var started := SetPhase(tree, i, Resumed(tree.phases[i].status));
    StepLoopGoesThrough(c, i, 0, started, StepNames(c.plan.phases[i].steps), log);
  }

  /** A pass in which nothing fails gets through; if it leaves no step open it leaves no phase open. */
  lemma {:induction false} PhaseLoopSettles(given: Given, c: Pass, i: nat, tree: PlanStatus, phasesLeft: int,
                                            log: seq<Run>)
    requires UniqueNames(c.plan) && NothingFails(c) && i <= |c.plan.phases|
    requires Good(given, c.plan, tree, log) && PhaseGate(c.plan, tree, i) && tree.status.InProgress?
    requires forall a: nat | a < i :: Settled(c.plan, tree, a)
    ensures
      var r := PhaseLoop(c, i, tree, phasesLeft, log);
      r.err.None? && (OpenSteps(c.plan, r.tree) == {} ==> AllComplete(c.plan, r.tree))
    decreases |c.plan.phases| - i
  {
    if i == |c.plan.phases| {
      NoOpenSteps(c.plan, tree, i);
      FinishSame(c.plan, tree, phasesLeft, log);
      return;
    }
    AlignedIndex(c.plan, tree, i);
    if PhaseComplete(tree, i) {
      PhaseLoopSettles(given, c, i + 1, tree, phasesLeft - 1, log);
      return;
    }
    var s, next := PhaseTurnSucceeds(given, c, i, tree, log);
    SettledAfter(c.plan, tree, next, i);
    if s.left != {} && c.plan.strategy.Serial? {
      NoOpenSteps(c.plan, next, i + 1);
      FinishSame(c.plan, next, phasesLeft, s.log);
    } else {
      PhaseLoopSettles(given, c, i + 1, next, if s.left == {} then phasesLeft - 1 else phasesLeft, s.log);
    }
  }

  /** A phase before that of the first open step is passed in one turn. */
  lemma {:induction false} PhaseTurnPasses(given: Given, c: Pass, i: nat, tree: PlanStatus, log: seq<Run>, fi: nat,
                                           f: nat)
    returns (s: StepScan, next: PlanStatus)
    requires UniqueNames(c.plan) && NothingFails(c) && i < fi && FirstOpen(c.plan, tree, fi, f)
    requires Good(given, c.plan, tree, log) && PhaseGate(c.plan, tree, i) && tree.status.InProgress?
        && !PhaseComplete(tree, i)
    ensures s == StepLoop(c, i, i, 0, SetPhase(tree, i, Resumed(tree.phases[i].status)),
        StepNames(c.plan.phases[i].steps), log)
    ensures s.err.None? && s.left == {} && i < |s.tree.phases| && next == SetPhase(s.tree, i, Complete)
    ensures Good(given, c.plan, next, s.log) && PhaseGate(c.plan, next, i + 1) && next.status.InProgress?
    ensures FirstOpen(c.plan, next, fi, f)
  {
    s, next := PhaseTurnSucceeds(given, c, i, tree, log);
    assert forall b: nat | b < |c.plan.phases[i].steps| :: InPlan(c.plan, i, b) && Earlier(i, b, fi, f);
    FirstOpenKept(c.plan, tree, next, i, fi, f);
  }

  /** The turn of the phase that holds the first open step completes that step. */
  lemma {:induction false} PhaseTurnReaches(given: Given, c: Pass, i: nat, tree: PlanStatus, log: seq<Run>, f: nat)
    returns (s: StepScan, next: PlanStatus)
    requires UniqueNames(c.plan) && NothingFails(c) && FirstOpen(c.plan, tree, i, f) && StepSucceeds(c, i, f)
    requires Good(given, c.plan, tree, log) && PhaseGate(c.plan, tree, i) && tree.status.InProgress?
        && !PhaseComplete(tree, i)
    ensures s == StepLoop(c, i, i, 0, SetPhase(tree, i, Resumed(tree.phases[i].status)),
        StepNames(c.plan.phases[i].steps), log)
    ensures s.err.None? && i < |s.tree.phases| && next == if s.left == {} then SetPhase(s.tree, i, Complete) else s.tree
    ensures StepComplete(next, i, f)
  {
    s, next := PhaseTurnSucceeds(given, c, i, tree, log);
    var started := SetPhase(tree, i, Resumed(tree.phases[i].status));
    assert forall b: nat :: StepComplete(started, i, b) == StepComplete(tree, i, b);
    assert forall b: nat | b < f :: InPlan(c.plan, i, b) && Earlier(i, b, i, f);
    StepLoopReaches(c, i, 0, started, StepNames(c.plan.phases[i].steps), log, f);
  }

  /** The phase loop reaches the first open step and completes it, if all its tasks succeed. */
  lemma {:induction false} PhaseLoopReaches(given: Given, c: Pass, i: nat, tree: PlanStatus, phasesLeft: int,
                                            log: seq<Run>, fi: nat, f: nat)
    requires UniqueNames(c.plan) && NothingFails(c) && i <= fi
    requires Good(given, c.plan, tree, log) && PhaseGate(c.plan, tree, i) && tree.status.InProgress?
    requires FirstOpen(c.plan, tree, fi, f) && StepSucceeds(c, fi, f)
    ensures StepComplete(PhaseLoop(c, i, tree, phasesLeft, log).tree, fi, f)
    decreases |c.plan.phases| - i
  {
    AlignedIndex(c.plan, tree, i);
    if PhaseComplete(tree, i) {
      assert i < fi;
      PhaseLoopReaches(given, c, i + 1, tree, phasesLeft - 1, log, fi, f);
    } else if i < fi {
      var s, next := PhaseTurnPasses(given, c, i, tree, log, fi, f);
      PhaseLoopReaches(given, c, i + 1, next, phasesLeft - 1, s.log, fi, f);
    } else {
      var s, next := PhaseTurnReaches(given, c, i, tree, log, f);
      FinishSame(c.plan, next, phasesLeft, s.log);
      PhaseLoopKeepsComplete(c, i + 1, next, if s.left == {} then phasesLeft - 1 else phasesLeft, s.log);
    }
  }

  lemma {:induction false} FinishSame(plan: Plan, tree: PlanStatus, phasesLeft: int, log: seq<Run>)
    ensures
      var end := Finish(tree, phasesLeft, log).tree;
      && OpenSteps(plan, end) == OpenSteps(plan, tree)
      && (forall a: nat, b: nat :: StepComplete(end, a, b) == StepComplete(tree, a, b))
      && (forall a: nat :: PhaseComplete(end, a) == PhaseComplete(tree, a))
  {
  }

  lemma {:induction false} SettledAfter(plan: Plan, tree: PlanStatus, next: PlanStatus, i: nat)
    requires i < |plan.phases| == |tree.phases| && SameOtherPhases(tree, next, i)
    requires forall a: nat | a < i :: Settled(plan, tree, a)
    requires PhaseComplete(next, i) <==> forall b: nat | b < |plan.phases[i].steps| :: StepComplete(next, i, b)
    ensures forall a: nat | a < i + 1 :: Settled(plan, next, a)
  {
    forall a: nat | a < i ensures Settled(plan, next, a) {
      assert Settled(plan, tree, a);
      assert forall b: nat :: StepComplete(next, a, b) == StepComplete(tree, a, b);
    }
  }

  lemma {:induction false} FirstOpenKept(plan: Plan, tree: PlanStatus, next: PlanStatus, i: nat, fi: nat, f: nat)
    requires i < fi && FirstOpen(plan, tree, fi, f) && SameOtherPhases(tree, next, i)
    requires forall a: nat, b: nat | StepComplete(tree, a, b) :: StepComplete(next, a, b)
    ensures FirstOpen(plan, next, fi, f)
  {
  }

  lemma {:induction false} NoOpenSteps(plan: Plan, tree: PlanStatus, n: nat)
    requires n <= |plan.phases| && forall a: nat | a < n :: Settled(plan, tree, a)
    ensures OpenSteps(plan, tree) == {} ==> forall a: nat | a < n :: PhaseComplete(tree, a)
  {
    forall a: nat | a < n && !PhaseComplete(tree, a) ensures OpenSteps(plan, tree) != {} {
      assert Settled(plan, tree, a);
      var b: nat :| b < |plan.phases[a].steps| && !StepComplete(tree, a, b);
      assert (a, b) in OpenSteps(plan, tree);
    }
  }

  lemma {:induction false} FindFirstOpen(plan: Plan, tree: PlanStatus, open: set<(nat, nat)>) returns (i: nat, j: nat)
    requires open != {} && open <= OpenSteps(plan, tree)
    ensures (i, j) in open && forall p | p in open :: !Earlier(p.0, p.1, i, j)
    decreases |open|
  {
    var p :| p in open;
    i, j := p.0, p.1;
    if open != {p} {
      var a, b := FindFirstOpen(plan, tree, open - {p});
      if Earlier(a, b, i, j) { i, j := a, b; }
    }
  }

  /** One pass with a successful first open step closes at least that step, and a pass that
      leaves no step open leaves the plan COMPLETE. */
  lemma {:induction false} PassProgress(given: Given, c: Pass, tree: PlanStatus, log: seq<Run>)
    requires UniqueNames(c.plan) && Good(given, c.plan, tree, log) && !tree.status.IsTerminal() && NothingFails(c)
    requires forall i: nat, j: nat | FirstOpen(c.plan, tree, i, j) :: StepSucceeds(c, i, j)
    ensures
      var end := ExecutePass(c, tree, log).tree;
      && end.status == (if OpenSteps(c.plan, end) == {} then Complete else InProgress)
      && (OpenSteps(c.plan, tree) != {} ==> |OpenSteps(c.plan, end)| < |OpenSteps(c.plan, tree)|)
  {
    var started := tree.(status := InProgress);
    var end := ExecutePass(c, tree, log).tree;
    assert forall a: nat, b: nat :: StepComplete(started, a, b) == StepComplete(tree, a, b);
    GoodIgnoresPlanStatus(given, c.plan, tree, log, InProgress);
    OnePass(given, c, tree, log);
    OpenStepsNeverRise(c, tree, log);
    PhaseLoopSettles(given, c, 0, started, |c.plan.phases|, log);
    if OpenSteps(c.plan, tree) != {} {
      var i, j := FindFirstOpen(c.plan, tree, OpenSteps(c.plan, tree));
      assert FirstOpen(c.plan, tree, i, j) by {
        forall i0: nat, j0: nat | InPlan(c.plan, i0, j0) && Earlier(i0, j0, i, j) ensures StepComplete(tree, i0, j0) {
          assert !StepComplete(tree, i0, j0) ==> (i0, j0) in OpenSteps(c.plan, tree);
        }
      }
      assert FirstOpen(c.plan, started, i, j);
      PhaseLoopReaches(given, c, 0, started, |c.plan.phases|, log, i, j);
      assert (i, j) in OpenSteps(c.plan, tree) && (i, j) !in OpenSteps(c.plan, end);
      SmallerSet(OpenSteps(c.plan, end), OpenSteps(c.plan, tree));
    }
    CompleteHasNoOpenSteps(c.plan, end);
  }

  lemma {:induction false} CompleteHasNoOpenSteps(plan: Plan, tree: PlanStatus)
    requires PhasesSound(plan, tree)
    ensures AllComplete(plan, tree) ==> OpenSteps(plan, tree) == {}
  {
    if AllComplete(plan, tree) {
      forall i: nat, j: nat | InPlan(plan, i, j) ensures StepComplete(tree, i, j) {
        assert PhaseComplete(tree, i);
      }
    }
  }

  /** In every pass nothing fails and the step that is then the first incomplete one succeeds. */
  ghost predicate AlwaysAdvances(plan: Plan, tasks: seq<Task>, tree: PlanStatus, asks: seq<Oracle>) {
    forall n: nat | n < |asks| ::
      var c := Pass(plan, tasks, asks[n], n);
      && NothingFails(c)
      && (forall i: nat, j: nat | FirstOpen(plan, RunAll(plan, tasks, tree, asks[..n]).tree, i, j) ::
        StepSucceeds(c, i, j))
  }

  /** From a consistent tree with n incomplete steps, max(1, n) such passes complete the plan. */
  lemma {:induction false} ProgressBound(plan: Plan, tasks: seq<Task>, tree: PlanStatus, asks: seq<Oracle>)
    requires UniqueNames(plan) && Consistent(plan, tree) && !tree.status.IsTerminal()
    requires AlwaysAdvances(plan, tasks, tree, asks)
    ensures
      var end := RunAll(plan, tasks, tree, asks).tree;
      && (|asks| >= 1 && |asks| >= |OpenSteps(plan, tree)| ==> end.status.Complete?)
      && (end.status.Complete? || |OpenSteps(plan, end)| + |asks| <= |OpenSteps(plan, tree)|)
      && !end.status.FatalError?
    decreases |asks|
  {
    if asks != [] {
      var n := |asks| - 1;
      assert forall m: nat | m < n :: asks[..n][..m] == asks[..m];
      ProgressBound(plan, tasks, tree, asks[..n]);
      var before := RunAll(plan, tasks, tree, asks[..n]);
      if !before.tree.status.Complete? {
        RunInvariant(plan, tasks, tree, asks[..n]);
        PassProgress(CompleteSteps(plan, tree), Pass(plan, tasks, asks[n], n), before.tree, before.log);
        OpenStepsNeverRise(Pass(plan, tasks, asks[n], n), before.tree, before.log);
      }
    }
  }
}
