/** What any number of executor passes over one plan guarantee. */
module EngineRuns {
  import opened Plans
  import opened Engine

  // ----- reading a log -----

  ghost predicate InPlan(plan: Plan, i: nat, j: nat) {
    i < |plan.phases| && j < |plan.phases[i].steps|
  }

  /** `r` is a run of task `name` of step (i, j), made by pass `pass`, that reported done. */
  ghost predicate IsDone(plan: Plan, r: Run, pass: nat, i: nat, j: nat, name: string)
    requires InPlan(plan, i, j)
  {
    var tasks := plan.phases[i].steps[j].tasks;
    r.pass == pass && r.phase == i && r.step == j && r.outcome.Done? && r.task < |tasks| && tasks[r.task] == name
  }

  ghost predicate TaskDone(plan: Plan, log: seq<Run>, pass: nat, i: nat, j: nat, name: string)
    requires InPlan(plan, i, j)
  {
    exists n | 0 <= n < |log| :: IsDone(plan, log[n], pass, i, j, name)
  }

  /** Pass `pass` saw every task of step (i, j) report done. */
  ghost predicate StepDone(plan: Plan, log: seq<Run>, pass: nat, i: nat, j: nat)
    requires InPlan(plan, i, j)
  {
    forall name | name in plan.phases[i].steps[j].tasks :: TaskDone(plan, log, pass, i, j, name)
  }

  /** The steps that were COMPLETE before the first pass of a run. */
  type Given = set<(nat, nat)>

  ghost predicate EverDone(given: Given, plan: Plan, log: seq<Run>, i: nat, j: nat)
    requires InPlan(plan, i, j)
  {
    (i, j) in given || exists pass: nat :: StepDone(plan, log, pass, i, j)
  }

  /** The strategies make step (i, j) wait for step (i0, j0). */
  ghost predicate MustPrecede(plan: Plan, i0: nat, j0: nat, i: nat, j: nat)
    requires i < |plan.phases|
  {
    || (i0 < i && plan.strategy.Serial?)
    || (i0 == i && j0 < j && plan.phases[i].strategy.Serial?)
  }

  ghost predicate Ready(given: Given, plan: Plan, log: seq<Run>, i: nat, j: nat)
    requires i < |plan.phases|
  {
    forall i0: nat, j0: nat | InPlan(plan, i0, j0) && MustPrecede(plan, i0, j0, i, j) ::
      EverDone(given, plan, log, i0, j0)
  }

  /** No task was run before every step it has to wait for was done. */
  ghost predicate Ordered(given: Given, plan: Plan, log: seq<Run>) {
    forall n | 0 <= n < |log| :: InPlan(plan, log[n].phase, log[n].step)
                                 && Ready(given, plan, log[..n], log[n].phase, log[n].step)
  }

  lemma {:induction false} LongerLog(given: Given, plan: Plan, log: seq<Run>, more: seq<Run>, i: nat, j: nat)
    requires InPlan(plan, i, j) && log <= more
    ensures forall pass: nat | StepDone(plan, log, pass, i, j) :: StepDone(plan, more, pass, i, j)
    ensures EverDone(given, plan, log, i, j) ==> EverDone(given, plan, more, i, j)
  {
    forall pass: nat, name | TaskDone(plan, log, pass, i, j, name) ensures TaskDone(plan, more, pass, i, j, name) {
      var n :| 0 <= n < |log| && IsDone(plan, log[n], pass, i, j, name);
      assert more[n] == log[n];
    }
  }

  lemma {:induction false} LongerReady(given: Given, plan: Plan, log: seq<Run>, more: seq<Run>, i: nat, j: nat)
    requires i < |plan.phases| && log <= more && Ready(given, plan, log, i, j)
    ensures Ready(given, plan, more, i, j)
  {
    forall i0: nat, j0: nat | InPlan(plan, i0, j0) && MustPrecede(plan, i0, j0, i, j)
      ensures EverDone(given, plan, more, i0, j0)
    {
      LongerLog(given, plan, log, more, i0, j0);
    }
  }

  lemma {:induction false} ExtendOrdered(given: Given, plan: Plan, log: seq<Run>, more: seq<Run>, i: nat, j: nat)
    requires InPlan(plan, i, j) && Ordered(given, plan, log) && Ready(given, plan, log, i, j) && log <= more
    requires forall n | |log| <= n < |more| :: more[n].phase == i && more[n].step == j
    ensures Ordered(given, plan, more)
  {
    forall n | 0 <= n < |more|
      ensures InPlan(plan, more[n].phase, more[n].step) && Ready(given, plan, more[..n], more[n].phase, more[n].step)
    {
      if n < |log| {
        assert more[..n] == log[..n] && more[n] == log[n];
      } else {
        LongerReady(given, plan, log, more[..n], i, j);
      }
    }
  }

  // ----- the invariant of a status tree and the log that led to it -----

  ghost predicate StepComplete(tree: PlanStatus, i: nat, j: nat) {
    i < |tree.phases| && j < |tree.phases[i].steps| && tree.phases[i].steps[j].status.Complete?
  }

  ghost predicate PhaseComplete(tree: PlanStatus, i: nat) {
    i < |tree.phases| && tree.phases[i].status.Complete?
  }

  /** A COMPLETE phase has only COMPLETE steps. */
  ghost predicate PhasesSound(plan: Plan, tree: PlanStatus) {
    forall i: nat, j: nat | InPlan(plan, i, j) && PhaseComplete(tree, i) :: StepComplete(tree, i, j)
  }

  /** Every COMPLETE step is backed by one pass in which all its tasks were done. */
  ghost predicate Backed(given: Given, plan: Plan, tree: PlanStatus, log: seq<Run>) {
    forall i: nat, j: nat | InPlan(plan, i, j) && StepComplete(tree, i, j) :: EverDone(given, plan, log, i, j)
  }

  ghost predicate Good(given: Given, plan: Plan, tree: PlanStatus, log: seq<Run>) {
    Aligned(plan, tree) && PhasesSound(plan, tree) && Backed(given, plan, tree, log) && Ordered(given, plan, log)
  }

  /** `later` follows `earlier` in one pass: COMPLETE is kept, each newly COMPLETE step had all
      its tasks done in this very pass, and only steps that were incomplete were run. */
  ghost predicate Follows(c: Pass, earlier: PlanStatus, log: seq<Run>, later: PlanStatus, more: seq<Run>) {
    && log <= more
    && (forall i: nat, j: nat | StepComplete(earlier, i, j) :: StepComplete(later, i, j))
    && (forall i: nat | PhaseComplete(earlier, i) :: PhaseComplete(later, i))
    && (forall i: nat, j: nat | InPlan(c.plan, i, j) && StepComplete(later, i, j) && !StepComplete(earlier, i, j) ::
          StepDone(c.plan, more, c.number, i, j))
    && (forall n | |log| <= n < |more| ::
        more[n].pass == c.number && !StepComplete(earlier, more[n].phase, more[n].step))
  }

  lemma {:induction false} FollowsTransitive(c: Pass, t0: PlanStatus, l0: seq<Run>, t1: PlanStatus, l1: seq<Run>,
                                             t2: PlanStatus, l2: seq<Run>)
    requires Follows(c, t0, l0, t1, l1) && Follows(c, t1, l1, t2, l2)
    ensures Follows(c, t0, l0, t2, l2)
  {
    forall i: nat, j: nat | InPlan(c.plan, i, j) && StepComplete(t2, i, j) && !StepComplete(t0, i, j)
      ensures StepDone(c.plan, l2, c.number, i, j)
    {
      LongerLog({}, c.plan, l1, l2, i, j);
    }
    forall n | |l0| <= n < |l2|
      ensures l2[n].pass == c.number && !StepComplete(t0, l2[n].phase, l2[n].step)
    {
      if n < |l1| { assert l2[n] == l1[n]; }
    }
  }

  lemma {:induction false} FollowsGood(given: Given, c: Pass, earlier: PlanStatus, log: seq<Run>, later: PlanStatus,
                                       more: seq<Run>)
    requires Good(given, c.plan, earlier, log) && Follows(c, earlier, log, later, more)
    ensures Backed(given, c.plan, later, more)
  {
    forall i: nat, j: nat | InPlan(c.plan, i, j) && StepComplete(later, i, j)
      ensures EverDone(given, c.plan, more, i, j)
    {
      LongerLog(given, c.plan, log, more, i, j);
    }
  }

  // ----- the loops keep it -----

  /** What the task loop hands back, having started with `status`, `left` and `log`. */
  ghost predicate TasksOk(c: Pass, i: nat, j: nat, status: Status, left: set<string>, log: seq<Run>, r: TaskScan)
    requires InPlan(c.plan, i, j)
  {
    && log <= r.log
    && (forall n | |log| <= n < |r.log| :: r.log[n].pass == c.number && r.log[n].phase == i && r.log[n].step == j)
    && r.left <= left
    && (forall x | x in left && x !in r.left :: TaskDone(c.plan, r.log, c.number, i, j, x))
    && (r.status == status || r.status.Error?)
    && (r.err.Some? ==> !r.err.value.MissingPhase? && !r.err.value.MissingStep?)
  }

  lemma {:induction false} TasksCompose(c: Pass, i: nat, j: nat, k: nat, status: Status, left: set<string>,
                                        log: seq<Run>, outcome: Outcome, r: TaskScan)
    requires InPlan(c.plan, i, j) && k < |c.plan.phases[i].steps[j].tasks|
    requires
      var left' := if outcome.Done? then left - {c.plan.phases[i].steps[j].tasks[k]} else left;
      var status' := if outcome.Transient? then Error else status;
      TasksOk(c, i, j, status', left', log + [Run(c.number, i, j, k, outcome)], r)
    ensures TasksOk(c, i, j, status, left, log, r)
  {
    var log' := log + [Run(c.number, i, j, k, outcome)];
    assert log < log' <= r.log && r.log[|log|] == log'[|log|];
    if outcome.Done? {
      assert IsDone(c.plan, r.log[|log|], c.number, i, j, c.plan.phases[i].steps[j].tasks[k]);
    }
  }

  lemma {:induction false} TaskLoopFacts(c: Pass, i: nat, j: nat, k: nat, status: Status, left: set<string>,
                                         log: seq<Run>)
    requires InPlan(c.plan, i, j) && k <= |c.plan.phases[i].steps[j].tasks|
    ensures TasksOk(c, i, j, status, left, log, TaskLoop(c, i, j, k, status, left, log))
    decreases |c.plan.phases[i].steps[j].tasks| - k
  {
    var names := c.plan.phases[i].steps[j].tasks;
    if k < |names| {
      var outcome := c.ask(i, j, k);
      var log' := log + [Run(c.number, i, j, k, outcome)];
      var left' := if outcome.Done? then left - {names[k]} else left;
      var status' := if outcome.Transient? then Error else status;
      TaskLoopFacts(c, i, j, k + 1, status', left', log');
      TasksCompose(c, i, j, k, status, left, log, outcome, TaskLoop(c, i, j, k + 1, status', left', log'));
    }
  }

  ghost predicate PhaseGate(plan: Plan, tree: PlanStatus, i: nat) {
    plan.strategy.Serial? ==> forall i0: nat | i0 < i :: PhaseComplete(tree, i0)
  }

  ghost predicate StepGate(plan: Plan, tree: PlanStatus, i: nat, j: nat)
    requires i < |plan.phases|
  {
    plan.phases[i].strategy.Serial? ==> forall j0: nat | j0 < j :: StepComplete(tree, i, j0)
  }

  lemma {:induction false} GatesMakeReady(given: Given, plan: Plan, tree: PlanStatus, log: seq<Run>, i: nat, j: nat)
    requires InPlan(plan, i, j) && Good(given, plan, tree, log) && PhaseGate(plan, tree, i)
        && StepGate(plan, tree, i, j)
    ensures Ready(given, plan, log, i, j)
  {
  }

  /** `stepsLeft` holds the names of the steps not reached yet or found incomplete. */
  ghost predicate LeftIs(plan: Plan, tree: PlanStatus, i: nat, j: nat, left: set<string>)
    requires i < |plan.phases|
  {
    && (forall b: nat | b < |plan.phases[i].steps| ::
          plan.phases[i].steps[b].name in left <==> (b >= j || !StepComplete(tree, i, b)))
    && left <= StepNames(plan.phases[i].steps)
  }

  /** One turn of the step loop: only step `j` of phase `i` moves from `tree` to `next`. */
  lemma {:induction false} StepTurn(given: Given, c: Pass, i: nat, j: nat, tree: PlanStatus, log: seq<Run>,
                                    status: Status, more: seq<Run>)
    requires InPlan(c.plan, i, j) && Good(given, c.plan, tree, log)
    requires PhaseGate(c.plan, tree, i) && StepGate(c.plan, tree, i, j)
    requires !PhaseComplete(tree, i) && !StepComplete(tree, i, j)
    requires log <= more
    requires forall n | |log| <= n < |more| :: more[n].pass == c.number && more[n].phase == i && more[n].step == j
    requires status.Complete? ==> StepDone(c.plan, more, c.number, i, j)
    ensures
      var next := SetStep(tree, i, j, status);
      && Good(given, c.plan, next, more) && Follows(c, tree, log, next, more)
      && PhaseGate(c.plan, next, i) && (status.Complete? ==> StepGate(c.plan, next, i, j + 1))
  {
    var next := SetStep(tree, i, j, status);
    assert forall i0: nat, j0: nat :: i0 != i || j0 != j ==> StepComplete(next, i0, j0) == StepComplete(tree, i0, j0);
    assert forall i0: nat :: PhaseComplete(next, i0) == PhaseComplete(tree, i0);
    GatesMakeReady(given, c.plan, tree, log, i, j);
    ExtendOrdered(given, c.plan, log, more, i, j);
    FollowsGood(given, c, tree, log, next, more);
  }

  lemma {:induction false} AlignedIndex(plan: Plan, tree: PlanStatus, i: nat)
    requires UniqueNames(plan) && Aligned(plan, tree) && i < |plan.phases|
    ensures PhaseIndex(tree.phases, plan.phases[i].name) == i
    ensures forall j: nat | j < |plan.phases[i].steps| ::
              StepIndex(tree.phases[i].steps, plan.phases[i].steps[j].name) == j
  {
    var a := PhaseIndex(tree.phases, plan.phases[i].name);
    assert AlignedPhase(plan.phases[i], tree.phases[i]);
    assert a <= i && AlignedPhase(plan.phases[a], tree.phases[a]);
    assert UniqueSteps(plan.phases[i].steps);
  }

  /** What the step loop hands back, having started phase `i` at `tree`. */
  ghost predicate ScanOk(given: Given, c: Pass, i: nat, tree: PlanStatus, log: seq<Run>, r: StepScan)
    requires i < |c.plan.phases|
  {
    && Good(given, c.plan, r.tree, r.log) && Follows(c, tree, log, r.tree, r.log)
    && PhaseGate(c.plan, r.tree, i) && !PhaseComplete(r.tree, i) && i < |tree.phases| == |r.tree.phases|
    && (forall a | 0 <= a < |tree.phases| && a != i :: r.tree.phases[a] == tree.phases[a])
    && (r.err.None? ==> (r.left == {} <==> forall b: nat | b < |c.plan.phases[i].steps| :: StepComplete(r.tree, i, b)))
    && (r.err.None? ==> r.tree.status == tree.status && r.tree.phases[i].status == tree.phases[i].status)
    && (r.err.Some? ==> r.tree.status.FatalError? && !r.err.value.MissingPhase? && !r.err.value.MissingStep?)
  }

  lemma {:induction false} ScanCompose(given: Given, c: Pass, i: nat, t0: PlanStatus, l0: seq<Run>, t1: PlanStatus,
                                       l1: seq<Run>, r: StepScan)
    requires i < |c.plan.phases| && i < |t0.phases| == |t1.phases|
    requires forall a | 0 <= a < |t0.phases| && a != i :: t0.phases[a] == t1.phases[a]
    requires Follows(c, t0, l0, t1, l1) && ScanOk(given, c, i, t1, l1, r)
    requires t0.status == t1.status && t0.phases[i].status == t1.phases[i].status
    ensures ScanOk(given, c, i, t0, l0, r)
  {
    FollowsTransitive(c, t0, l0, t1, l1, r.tree, r.log);
  }

  lemma {:induction false} LeftAdvances(plan: Plan, tree: PlanStatus, i: nat, j: nat, left: set<string>, status: Status)
    requires UniqueNames(plan) && Aligned(plan, tree) && InPlan(plan, i, j) && LeftIs(plan, tree, i, j, left)
    ensures
      LeftIs(plan, SetStep(tree, i, j, status), i, j + 1,
             if status.Complete? then left - {plan.phases[i].steps[j].name} else left)
  {
    var next := SetStep(tree, i, j, status);
    assert UniqueSteps(plan.phases[i].steps);
    assert forall b: nat | b != j :: StepComplete(next, i, b) == StepComplete(tree, i, b);
  }

  lemma {:induction false} LeftAtEnd(plan: Plan, tree: PlanStatus, i: nat, left: set<string>)
    requires i < |plan.phases| && LeftIs(plan, tree, i, |plan.phases[i].steps|, left)
    ensures left == {} <==> forall b: nat | b < |plan.phases[i].steps| :: StepComplete(tree, i, b)
  {
    var steps := plan.phases[i].steps;
    if x :| x in left {
      var b: nat :| b < |steps| && steps[b].name == x;
      assert !StepComplete(tree, i, b);
    }
  }

  lemma {:induction false} StepLoopFacts(given: Given, c: Pass, i: nat, j: nat, tree: PlanStatus, left: set<string>,
                                         log: seq<Run>)
    requires UniqueNames(c.plan) && i < |c.plan.phases| && j <= |c.plan.phases[i].steps|
    requires Good(given, c.plan, tree, log) && !PhaseComplete(tree, i)
    requires PhaseGate(c.plan, tree, i) && StepGate(c.plan, tree, i, j) && LeftIs(c.plan, tree, i, j, left)
    ensures ScanOk(given, c, i, tree, log, StepLoop(c, i, i, j, tree, left, log))
    decreases |c.plan.phases[i].steps| - j
  {
    var steps := c.plan.phases[i].steps;
    AlignedIndex(c.plan, tree, i);
    if j == |steps| {
      LeftAtEnd(c.plan, tree, i, left);
    } else if StepComplete(tree, i, j) {
      LeftSkips(c.plan, tree, i, j, left);
      StepLoopFacts(given, c, i, j + 1, tree, left - {steps[j].name}, log);
    } else {
      StepLoopTurn(given, c, i, j, tree, left, log);
    }
  }

  /** A step that is COMPLETE already is skipped. */
  lemma {:induction false} LeftSkips(plan: Plan, tree: PlanStatus, i: nat, j: nat, left: set<string>)
    requires UniqueNames(plan) && Aligned(plan, tree) && InPlan(plan, i, j) && LeftIs(plan, tree, i, j, left)
    requires StepComplete(tree, i, j)
    ensures LeftIs(plan, tree, i, j + 1, left - {plan.phases[i].steps[j].name})
    ensures StepGate(plan, tree, i, j) ==> StepGate(plan, tree, i, j + 1)
  {
    LeftAdvances(plan, tree, i, j, left, Complete);
    SetStepTwice(tree, i, j, Complete, Complete);
  }

  /** The status in which the task loop leaves its step. */
  ghost function Verdict(t: TaskScan): Status {
    if t.err.Some? then FatalError else if t.left == {} then Complete else t.status
  }

  /** One visit of the open step (i, j): `t` is what its tasks came to, `next` the tree it leaves. */
  lemma {:induction false} StepVisit(given: Given, c: Pass, i: nat, j: nat, tree: PlanStatus, log: seq<Run>)
    returns (t: TaskScan, next: PlanStatus)
    requires UniqueNames(c.plan) && InPlan(c.plan, i, j)
    requires Good(given, c.plan, tree, log) && !PhaseComplete(tree, i) && !StepComplete(tree, i, j)
    requires PhaseGate(c.plan, tree, i) && StepGate(c.plan, tree, i, j)
    ensures t == TaskLoop(c, i, j, 0, Resumed(tree.phases[i].steps[j].status),
        NameSet(c.plan.phases[i].steps[j].tasks), log)
    ensures next == SetStep(tree, i, j, Verdict(t)) && (Verdict(t).Complete? ==> t.err.None? && t.left == {})
    ensures t.err.Some? ==> !t.err.value.MissingPhase? && !t.err.value.MissingStep?
    ensures Good(given, c.plan, next, t.log) && Follows(c, tree, log, next, t.log) && !PhaseComplete(next, i)
    ensures PhaseGate(c.plan, next, i) && (Verdict(t).Complete? ==> StepGate(c.plan, next, i, j + 1))
  {
    var resumed := Resumed(tree.phases[i].steps[j].status);
    var names := NameSet(c.plan.phases[i].steps[j].tasks);
    t := TaskLoop(c, i, j, 0, resumed, names, log);
    TaskLoopFacts(c, i, j, 0, resumed, names, log);
    StepTurn(given, c, i, j, tree, log, Verdict(t), t.log);
    next := SetStep(tree, i, j, Verdict(t));
  }

  lemma {:induction false} StepLoopTurn(given: Given, c: Pass, i: nat, j: nat, tree: PlanStatus, left: set<string>,
                                        log: seq<Run>)
    requires UniqueNames(c.plan) && InPlan(c.plan, i, j)
    requires Good(given, c.plan, tree, log) && !PhaseComplete(tree, i) && !StepComplete(tree, i, j)
    requires PhaseGate(c.plan, tree, i) && StepGate(c.plan, tree, i, j) && LeftIs(c.plan, tree, i, j, left)
    ensures ScanOk(given, c, i, tree, log, StepLoop(c, i, i, j, tree, left, log))
    decreases |c.plan.phases[i].steps| - j, 0
  {
    var steps := c.plan.phases[i].steps;
    var t, next := StepVisit(given, c, i, j, tree, log);
    AlignedIndex(c.plan, tree, i);
    LeftAdvances(c.plan, tree, i, j, left, Verdict(t));
    if t.err.Some? {
      AbortFacts(given, c, i, next, t.log);
      FollowsTransitive(c, tree, log, next, t.log, Abort(next, i), t.log);
    } else if t.left == {} || !c.plan.phases[i].strategy.Serial? {
      var left' := if t.left == {} then left - {steps[j].name} else left;
      StepLoopFacts(given, c, i, j + 1, next, left', t.log);
      ScanCompose(given, c, i, tree, log, next, t.log, StepLoop(c, i, i, j + 1, next, left', t.log));
    }
  }

  lemma {:induction false} AbortFacts(given: Given, c: Pass, i: nat, tree: PlanStatus, log: seq<Run>)
    requires Good(given, c.plan, tree, log) && i < |c.plan.phases| && !PhaseComplete(tree, i)
        && PhaseGate(c.plan, tree, i)
    ensures Good(given, c.plan, Abort(tree, i), log) && Follows(c, tree, log, Abort(tree, i), log)
    ensures PhaseGate(c.plan, Abort(tree, i), i) && !PhaseComplete(Abort(tree, i), i)
  {
    var next := Abort(tree, i);
    assert forall a: nat, b: nat :: StepComplete(next, a, b) == StepComplete(tree, a, b);
    assert forall a: nat :: PhaseComplete(next, a) == PhaseComplete(tree, a);
  }

  ghost function OpenPhases(tree: PlanStatus, n: nat): nat {
    if n == 0 then 0 else OpenPhases(tree, n - 1) + if PhaseComplete(tree, n - 1) then 0 else 1
  }

  lemma {:induction false} OpenPhasesSame(t0: PlanStatus, t1: PlanStatus, n: nat)
    requires forall a: nat | a < n :: PhaseComplete(t0, a) == PhaseComplete(t1, a)
    ensures OpenPhases(t0, n) == OpenPhases(t1, n)
  {
    if n > 0 { OpenPhasesSame(t0, t1, n - 1); }
  }

  lemma {:induction false} OpenPhasesZero(tree: PlanStatus, n: nat)
    ensures OpenPhases(tree, n) == 0 <==> forall a: nat | a < n :: PhaseComplete(tree, a)
  {
    if n > 0 { OpenPhasesZero(tree, n - 1); }
  }

  lemma {:induction false} SetPhaseFacts(given: Given, c: Pass, i: nat, tree: PlanStatus, log: seq<Run>, status: Status)
    requires Good(given, c.plan, tree, log) && i < |c.plan.phases| && !PhaseComplete(tree, i)
        && PhaseGate(c.plan, tree, i)
    requires status.Complete? ==> forall b: nat | b < |c.plan.phases[i].steps| :: StepComplete(tree, i, b)
    ensures
      var next := SetPhase(tree, i, status);
      && Good(given, c.plan, next, log) && Follows(c, tree, log, next, log) && PhaseGate(c.plan, next, i)
      && (status.Complete? ==> PhaseGate(c.plan, next, i + 1))
      && OpenPhases(next, i) == OpenPhases(tree, i)
      && OpenPhases(next, i + 1) == OpenPhases(tree, i) + if status.Complete? then 0 else 1
  {
    var next := SetPhase(tree, i, status);
    assert forall a: nat, b: nat :: StepComplete(next, a, b) == StepComplete(tree, a, b);
    assert forall a: nat | a != i :: PhaseComplete(next, a) == PhaseComplete(tree, a);
    OpenPhasesSame(next, tree, i);
  }

  /** What a pass hands back, having started at `tree` with `log`. */
  ghost predicate PassOk(given: Given, c: Pass, tree: PlanStatus, log: seq<Run>, r: Result) {
    && Good(given, c.plan, r.tree, r.log) && Follows(c, tree, log, r.tree, r.log)
    && (r.err.None? ==> r.tree.status == if AllComplete(c.plan, r.tree) then Complete else InProgress)
    && (r.err.Some? ==> r.tree.status.FatalError? && !r.err.value.MissingPhase? && !r.err.value.MissingStep?)
  }

  ghost predicate AllComplete(plan: Plan, tree: PlanStatus) {
    forall i: nat | i < |plan.phases| :: PhaseComplete(tree, i)
  }

  lemma {:induction false} FinishFacts(given: Given, c: Pass, i: nat, tree: PlanStatus, phasesLeft: int, log: seq<Run>)
    requires Good(given, c.plan, tree, log) && tree.status.InProgress? && i <= |c.plan.phases|
    requires phasesLeft == |c.plan.phases| - i + OpenPhases(tree, i)
    requires i < |c.plan.phases| ==> !PhaseComplete(tree, i)
    ensures PassOk(given, c, tree, log, Finish(tree, phasesLeft, log))
  {
    OpenPhasesZero(tree, i);
    var next := tree.(status := Complete);
    assert forall a: nat, b: nat :: StepComplete(next, a, b) == StepComplete(tree, a, b);
    assert forall a: nat :: PhaseComplete(next, a) == PhaseComplete(tree, a);
  }

  lemma {:induction false} PassCompose(given: Given, c: Pass, t0: PlanStatus, l0: seq<Run>, t1: PlanStatus,
                                       l1: seq<Run>, r: Result)
    requires Follows(c, t0, l0, t1, l1) && PassOk(given, c, t1, l1, r)
    ensures PassOk(given, c, t0, l0, r)
  {
    FollowsTransitive(c, t0, l0, t1, l1, r.tree, r.log);
  }

  /** One turn of the phase loop: `s` is what its steps came to, `next` the tree it leaves. */
  lemma {:induction false} PhaseTurn(given: Given, c: Pass, i: nat, tree: PlanStatus, log: seq<Run>)
    returns (s: StepScan, next: PlanStatus)
    requires UniqueNames(c.plan) && i < |c.plan.phases| && tree.status.InProgress?
    requires Good(given, c.plan, tree, log) && PhaseGate(c.plan, tree, i) && !PhaseComplete(tree, i)
    ensures s == StepLoop(c, i, i, 0, SetPhase(tree, i, Resumed(tree.phases[i].status)),
        StepNames(c.plan.phases[i].steps), log)
    ensures i < |s.tree.phases|
    ensures next == if s.err.None? && s.left == {} then SetPhase(s.tree, i, Complete) else s.tree
    ensures Good(given, c.plan, next, s.log) && Follows(c, tree, log, next, s.log) && PhaseGate(c.plan, next, i)
    ensures s.err.None? ==>
              && OpenPhases(next, i) == OpenPhases(tree, i) && next.status.InProgress?
              && PhaseComplete(next, i) == (s.left == {})
              && (s.left == {} <==> forall b: nat | b < |c.plan.phases[i].steps| :: StepComplete(next, i, b))
              && |next.phases| == |tree.phases|
              && (forall a | 0 <= a < |tree.phases| && a != i :: next.phases[a] == tree.phases[a])
    ensures s.err.Some? ==> next.status.FatalError? && !s.err.value.MissingPhase? && !s.err.value.MissingStep?
  {
    var started := SetPhase(tree, i, Resumed(tree.phases[i].status));
    s := StepLoop(c, i, i, 0, started, StepNames(c.plan.phases[i].steps), log);
    SetPhaseFacts(given, c, i, tree, log, Resumed(tree.phases[i].status));
    StepLoopFacts(given, c, i, 0, started, StepNames(c.plan.phases[i].steps), log);
    FollowsTransitive(c, tree, log, started, log, s.tree, s.log);
    OpenPhasesSame(started, s.tree, i);
    next := s.tree;
    if s.err.None? && s.left == {} {
      next := SetPhase(s.tree, i, Complete);
      SetPhaseFacts(given, c, i, s.tree, s.log, Complete);
      FollowsTransitive(c, tree, log, s.tree, s.log, next, s.log);
      assert forall b: nat :: StepComplete(next, i, b) == StepComplete(s.tree, i, b);
    }
  }

  lemma {:induction false} PhaseLoopFacts(given: Given, c: Pass, i: nat, tree: PlanStatus, phasesLeft: int,
                                          log: seq<Run>)
    requires UniqueNames(c.plan) && i <= |c.plan.phases|
    requires Good(given, c.plan, tree, log) && PhaseGate(c.plan, tree, i) && tree.status.InProgress?
    requires phasesLeft == |c.plan.phases| - i + OpenPhases(tree, i)
    ensures PassOk(given, c, tree, log, PhaseLoop(c, i, tree, phasesLeft, log))
    decreases |c.plan.phases| - i
  {
    if i == |c.plan.phases| {
      FinishFacts(given, c, i, tree, phasesLeft, log);
      return;
    }
    if PhaseComplete(tree, i) {
      PhaseLoopSkip(given, c, i, tree, phasesLeft, log);
    } else {
      PhaseLoopTurn(given, c, i, tree, phasesLeft, log);
    }
  }

  /** A phase that is COMPLETE already is skipped. */
  lemma {:induction false} PhaseLoopSkip(given: Given, c: Pass, i: nat, tree: PlanStatus, phasesLeft: int,
                                         log: seq<Run>)
    requires UniqueNames(c.plan) && i < |c.plan.phases| && PhaseComplete(tree, i)
    requires Good(given, c.plan, tree, log) && PhaseGate(c.plan, tree, i) && tree.status.InProgress?
    requires phasesLeft == |c.plan.phases| - i + OpenPhases(tree, i)
    ensures PassOk(given, c, tree, log, PhaseLoop(c, i, tree, phasesLeft, log))
    decreases |c.plan.phases| - i, 0
  {
    AlignedIndex(c.plan, tree, i);
    PhaseLoopFacts(given, c, i + 1, tree, phasesLeft - 1, log);
  }

  lemma {:induction false} PhaseLoopTurn(given: Given, c: Pass, i: nat, tree: PlanStatus, phasesLeft: int,
                                         log: seq<Run>)
    requires UniqueNames(c.plan) && i < |c.plan.phases| && !PhaseComplete(tree, i)
    requires Good(given, c.plan, tree, log) && PhaseGate(c.plan, tree, i) && tree.status.InProgress?
    requires phasesLeft == |c.plan.phases| - i + OpenPhases(tree, i)
    ensures PassOk(given, c, tree, log, PhaseLoop(c, i, tree, phasesLeft, log))
    decreases |c.plan.phases| - i, 0
  {
    AlignedIndex(c.plan, tree, i);
    var s, next := PhaseTurn(given, c, i, tree, log);
    if s.err.None? {
      var phasesLeft' := if s.left == {} then phasesLeft - 1 else phasesLeft;
      if s.left != {} && c.plan.strategy.Serial? {
        FinishFacts(given, c, i, next, phasesLeft', s.log);
      } else {
        PhaseLoopFacts(given, c, i + 1, next, phasesLeft', s.log);
      }
      PassCompose(given, c, tree, log, next, s.log, PhaseLoop(c, i, tree, phasesLeft, log));
    }
  }
}
