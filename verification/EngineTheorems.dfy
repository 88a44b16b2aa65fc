/** The promises of the plan executor, over whole runs: any number of passes, any answers. */
module EngineTheorems {
  import opened Plans
  import opened Engine
  import opened EngineRuns

  /** `|asks|` passes over one plan, starting at `tree`; pass number n gets the answers `asks[n]`. */
  ghost function RunAll(plan: Plan, tasks: seq<Task>, tree: PlanStatus, asks: seq<Oracle>): Result {
    if asks == [] then Result(tree, None, []) else
    var n := |asks| - 1;
    var r := RunAll(plan, tasks, tree, asks[..n]);
    ExecutePass(Pass(plan, tasks, asks[n], n), r.tree, r.log)
  }

  /** A status tree that matches the plan and whose levels agree. */
  ghost predicate Consistent(plan: Plan, tree: PlanStatus) {
    && Aligned(plan, tree) && PhasesSound(plan, tree)
    && (tree.status.Complete? ==> AllComplete(plan, tree))
  }

  /** What `ResetPlanStatus` leaves: everything is PENDING. */
  ghost predicate IsReset(plan: Plan, tree: PlanStatus) {
    && Aligned(plan, tree) && tree.status.Pending?
    && (forall i: nat | i < |tree.phases| :: tree.phases[i].status.Pending?)
    && (forall i: nat, j: nat | InPlan(plan, i, j) :: StepPending(tree, i, j))
  }

  ghost predicate StepPending(tree: PlanStatus, i: nat, j: nat) {
    i < |tree.phases| && j < |tree.phases[i].steps| && tree.phases[i].steps[j].status.Pending?
  }

  ghost function CompleteSteps(plan: Plan, tree: PlanStatus): Given {
    set i, j | 0 <= i < |plan.phases| && 0 <= j < |plan.phases[i].steps| && StepComplete(tree, i, j) :: (i, j)
  }

  lemma {:induction false} ResetIsConsistent(plan: Plan, tree: PlanStatus)
    requires IsReset(plan, tree)
    ensures Consistent(plan, tree) && CompleteSteps(plan, tree) == {}
  {
    forall i: nat, j: nat | InPlan(plan, i, j) ensures !StepComplete(tree, i, j) {
      assert StepPending(tree, i, j);
    }
  }

  lemma {:induction false} OnePass(given: Given, c: Pass, tree: PlanStatus, log: seq<Run>)
    requires UniqueNames(c.plan) && Good(given, c.plan, tree, log)
    requires tree.status.Complete? ==> AllComplete(c.plan, tree)
    ensures
      var r := ExecutePass(c, tree, log);
      && Good(given, c.plan, r.tree, r.log) && Follows(c, tree, log, r.tree, r.log)
      && (r.tree.status.Complete? ==> AllComplete(c.plan, r.tree))
      && (!tree.status.IsTerminal() ==> PassOk(given, c, tree, log, r))
  {
    if !tree.status.IsTerminal() {
      var started := tree.(status := InProgress);
      assert forall i: nat, j: nat :: StepComplete(started, i, j) == StepComplete(tree, i, j);
      assert forall i: nat :: PhaseComplete(started, i) == PhaseComplete(tree, i);
      PhaseLoopFacts(given, c, 0, started, |c.plan.phases|, log);
      PassCompose(given, c, tree, log, started, log, ExecutePass(c, tree, log));
    }
  }

  lemma {:induction false} RunInvariant(plan: Plan, tasks: seq<Task>, tree: PlanStatus, asks: seq<Oracle>)
    requires UniqueNames(plan) && Consistent(plan, tree)
    ensures
      var r := RunAll(plan, tasks, tree, asks);
      && Good(CompleteSteps(plan, tree), plan, r.tree, r.log)
      && (r.tree.status.Complete? ==> AllComplete(plan, r.tree))
      && (forall n | 0 <= n < |r.log| :: r.log[n].pass < |asks|)
  {
    if asks != [] {
      var n := |asks| - 1;
      RunInvariant(plan, tasks, tree, asks[..n]);
      var r := RunAll(plan, tasks, tree, asks[..n]);
      OnePass(CompleteSteps(plan, tree), Pass(plan, tasks, asks[n], n), r.tree, r.log);
      var r' := RunAll(plan, tasks, tree, asks);
      forall m | 0 <= m < |r'.log| ensures r'.log[m].pass < |asks| {
        if m < |r.log| { assert r'.log[m] == r.log[m]; }
      }
    }
  }

  lemma {:induction false} OneMorePass(plan: Plan, tasks: seq<Task>, tree: PlanStatus, asks: seq<Oracle>)
    requires UniqueNames(plan) && Consistent(plan, tree) && asks != []
    ensures
      var n := |asks| - 1;
      var before, after := RunAll(plan, tasks, tree, asks[..n]), RunAll(plan, tasks, tree, asks);
      Follows(Pass(plan, tasks, asks[n], n), before.tree, before.log, after.tree, after.log)
  {
    var n := |asks| - 1;
    RunInvariant(plan, tasks, tree, asks[..n]);
    var r := RunAll(plan, tasks, tree, asks[..n]);
    OnePass(CompleteSteps(plan, tree), Pass(plan, tasks, asks[n], n), r.tree, r.log);
  }

  // ----- order -----

  /** Whatever the strategies: a task runs only after every task of every step it has to wait
      for has reported done, unless that step was COMPLETE before the run began. */
  lemma {:induction false} TasksRunInOrder(plan: Plan, tasks: seq<Task>, tree: PlanStatus, asks: seq<Oracle>,
                        n: nat, i0: nat, j0: nat, name: string)
    requires UniqueNames(plan) && Consistent(plan, tree) && InPlan(plan, i0, j0)
    requires n < |RunAll(plan, tasks, tree, asks).log|
    requires
      var run := RunAll(plan, tasks, tree, asks).log[n];
      run.phase < |plan.phases| && MustPrecede(plan, i0, j0, run.phase, run.step)
    requires name in plan.phases[i0].steps[j0].tasks
    ensures
      var log := RunAll(plan, tasks, tree, asks).log;
      StepComplete(tree, i0, j0) || exists m, pass: nat | 0 <= m < n :: IsDone(plan, log[m], pass, i0, j0, name)
  {
    RunInvariant(plan, tasks, tree, asks);
    var given, log := CompleteSteps(plan, tree), RunAll(plan, tasks, tree, asks).log;
    assert Ready(given, plan, log[..n], log[n].phase, log[n].step);
    assert EverDone(given, plan, log[..n], i0, j0);
    if (i0, j0) !in given {
      var pass: nat :| StepDone(plan, log[..n], pass, i0, j0);
      assert TaskDone(plan, log[..n], pass, i0, j0, name);
      var m :| 0 <= m < n && IsDone(plan, log[..n][m], pass, i0, j0, name);
      assert IsDone(plan, log[m], pass, i0, j0, name);
    }
  }

  ghost predicate FullySerial(plan: Plan) {
    plan.strategy.Serial? && forall i: nat | i < |plan.phases| :: plan.phases[i].strategy.Serial?
  }

  ghost predicate Earlier(i0: nat, j0: nat, i: nat, j: nat) {
    i0 < i || (i0 == i && j0 < j)
  }

  /** A serial plan with serial phases, run from a reset status: no task of a later step or
      phase ever runs before every task of all earlier steps has reported done. */
  lemma {:induction false} SerialOrder(plan: Plan, tasks: seq<Task>, tree: PlanStatus, asks: seq<Oracle>)
    requires UniqueNames(plan) && FullySerial(plan) && IsReset(plan, tree)
    ensures
      var log := RunAll(plan, tasks, tree, asks).log;
      forall n: nat, i0: nat, j0: nat, name |
        n < |log| && InPlan(plan, i0, j0) && Earlier(i0, j0, log[n].phase, log[n].step)
        && name in plan.phases[i0].steps[j0].tasks ::
        TaskDoneBefore(plan, log, n, i0, j0, name)
  {
    var log := RunAll(plan, tasks, tree, asks).log;
    ResetIsConsistent(plan, tree);
    RunInvariant(plan, tasks, tree, asks);
    forall n: nat, i0: nat, j0: nat, name |
      n < |log| && InPlan(plan, i0, j0) && Earlier(i0, j0, log[n].phase, log[n].step)
      && name in plan.phases[i0].steps[j0].tasks
      ensures TaskDoneBefore(plan, log, n, i0, j0, name)
    {
      assert InPlan(plan, log[n].phase, log[n].step);
      TasksRunInOrder(plan, tasks, tree, asks, n, i0, j0, name);
      assert (i0, j0) !in CompleteSteps(plan, tree);
    }
  }

  ghost predicate TaskDoneBefore(plan: Plan, log: seq<Run>, n: nat, i: nat, j: nat, name: string)
    requires InPlan(plan, i, j) && n <= |log|
  {
    exists m, pass: nat | 0 <= m < n :: IsDone(plan, log[m], pass, i, j, name)
  }

  // ----- no lost work, no repeated work -----

  /** Pass `p` of the run made step (i, j) COMPLETE. */
  ghost predicate BecameComplete(plan: Plan, tasks: seq<Task>, tree: PlanStatus, asks: seq<Oracle>, p: nat, i: nat,
                                 j: nat)
    requires p < |asks|
  {
    && !StepComplete(RunAll(plan, tasks, tree, asks[..p]).tree, i, j)
    && StepComplete(RunAll(plan, tasks, tree, asks[..p + 1]).tree, i, j)
  }

  /** A step that is COMPLETE at the end was so at the beginning, or exactly the pass that made
      it COMPLETE saw each of its tasks report done. */
  lemma {:induction false} CompletedInOnePass(plan: Plan, tasks: seq<Task>, tree: PlanStatus, asks: seq<Oracle>, i: nat,
                                              j: nat)
    requires UniqueNames(plan) && Consistent(plan, tree) && InPlan(plan, i, j)
    requires StepComplete(RunAll(plan, tasks, tree, asks).tree, i, j)
    ensures
      || StepComplete(tree, i, j)
      || exists p: nat | p < |asks| ::
           && BecameComplete(plan, tasks, tree, asks, p, i, j)
           && StepDone(plan, RunAll(plan, tasks, tree, asks).log, p, i, j)
    decreases |asks|
  {
    if asks != [] {
      var n := |asks| - 1;
      var before, after := RunAll(plan, tasks, tree, asks[..n]), RunAll(plan, tasks, tree, asks);
      OneMorePass(plan, tasks, tree, asks);
      assert asks[..n + 1] == asks;
      if StepComplete(before.tree, i, j) {
        CompletedInOnePass(plan, tasks, tree, asks[..n], i, j);
        if !StepComplete(tree, i, j) {
          var p: nat :| p < n && BecameComplete(plan, tasks, tree, asks[..n], p, i, j)
            && StepDone(plan, before.log, p, i, j);
          CompletedEarlier(plan, tasks, tree, asks, i, j, p);
        }
      } else {
        assert BecameComplete(plan, tasks, tree, asks, n, i, j);
      }
    }
  }

  lemma {:induction false} CompletedEarlier(plan: Plan, tasks: seq<Task>, tree: PlanStatus, asks: seq<Oracle>, i: nat,
                                            j: nat, p: nat)
    requires UniqueNames(plan) && Consistent(plan, tree) && InPlan(plan, i, j) && asks != [] && p < |asks| - 1
    requires BecameComplete(plan, tasks, tree, asks[..|asks| - 1], p, i, j)
    requires StepDone(plan, RunAll(plan, tasks, tree, asks[..|asks| - 1]).log, p, i, j)
    ensures BecameComplete(plan, tasks, tree, asks, p, i, j)
        && StepDone(plan, RunAll(plan, tasks, tree, asks).log, p, i, j)
  {
    var n := |asks| - 1;
    OneMorePass(plan, tasks, tree, asks);
    assert asks[..n][..p] == asks[..p] && asks[..n][..p + 1] == asks[..p + 1];
    LongerLog({}, plan, RunAll(plan, tasks, tree, asks[..n]).log, RunAll(plan, tasks, tree, asks).log, i, j);
  }

  /** If a run takes a reset plan to COMPLETE, then every step had all its tasks done, all of
      them in the one pass in which the step became COMPLETE. */
  lemma {:induction false} NoLostWork(plan: Plan, tasks: seq<Task>, tree: PlanStatus, asks: seq<Oracle>)
    requires UniqueNames(plan) && IsReset(plan, tree)
    requires RunAll(plan, tasks, tree, asks).tree.status.Complete?
    ensures
      forall i: nat, j: nat | InPlan(plan, i, j) ::
        exists p: nat | p < |asks| ::
          BecameComplete(plan, tasks, tree, asks, p, i, j)
            && StepDone(plan, RunAll(plan, tasks, tree, asks).log, p, i, j)
  {
    ResetIsConsistent(plan, tree);
    RunInvariant(plan, tasks, tree, asks);
    forall i: nat, j: nat | InPlan(plan, i, j)
      ensures exists p: nat | p < |asks| ::
                BecameComplete(plan, tasks, tree, asks, p, i, j)
                  && StepDone(plan, RunAll(plan, tasks, tree, asks).log, p, i, j)
    {
      assert PhaseComplete(RunAll(plan, tasks, tree, asks).tree, i);
      CompletedInOnePass(plan, tasks, tree, asks, i, j);
      assert (i, j) !in CompleteSteps(plan, tree);
    }
  }

  /** A step that is COMPLETE is never run again. */
  lemma {:induction false} CompleteStepsAreNotRerun(plan: Plan, tasks: seq<Task>, tree: PlanStatus, asks: seq<Oracle>,
                                                    n: nat)
    requires UniqueNames(plan) && Consistent(plan, tree)
    requires n < |RunAll(plan, tasks, tree, asks).log|
    ensures
      var run := RunAll(plan, tasks, tree, asks).log[n];
      run.pass < |asks| && !StepComplete(RunAll(plan, tasks, tree, asks[..run.pass]).tree, run.phase, run.step)
    decreases |asks|
  {
    var last := |asks| - 1;
    var before, after := RunAll(plan, tasks, tree, asks[..last]), RunAll(plan, tasks, tree, asks);
    OneMorePass(plan, tasks, tree, asks);
    if n < |before.log| {
      assert after.log[n] == before.log[n];
      CompleteStepsAreNotRerun(plan, tasks, tree, asks[..last], n);
      assert asks[..last][..after.log[n].pass] == asks[..after.log[n].pass];
    }
  }
}
