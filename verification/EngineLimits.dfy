/** Why the promises of the executor ask for unique names. */
module EngineLimits {
  import opened Plans
  import opened Engine
  import opened EngineTheorems
  import EngineRuns

  function TwiceNamed(phase: string, step: string, first: string, second: string): Plan {
    Plan(Serial, [Phase(phase, Serial, [Step(step, [first]), Step(step, [second])])])
  }

  lemma {:induction false} FirstStepIsDone(c: Pass, task: string)
    requires |c.plan.phases| > 0 && |c.plan.phases[0].steps| > 0 && c.plan.phases[0].steps[0].tasks == [task]
    requires c.ask(0, 0, 0).Done? && c.number == 0
    requires TaskIndex(c.tasks, task) < |c.tasks| && c.tasks[TaskIndex(c.tasks, task)].builds
    ensures TaskLoop(c, 0, 0, 0, InProgress, NameSet([task]), [])
        == TaskScan(InProgress, {}, None, [Run(0, 0, 0, 0, Done)])
  {
    var log := [Run(0, 0, 0, 0, Done)];
    assert [] + log == log;
    assert NameSet([task]) == {task} && {task} - {task} == {};
    assert TaskLoop(c, 0, 0, 1, InProgress, {}, log) == TaskScan(InProgress, {}, None, log);
  }

  /** Two steps of one name share one status: when the first step is done, the second counts as
      done too. The plan becomes COMPLETE and the task of the second step is never run. */
  lemma {:induction false} DuplicateStepLosesWork(phase: string, step: string, first: string, second: string,
                                                  tasks: seq<Task>, ask: Oracle, tree: PlanStatus)
    requires ask(0, 0, 0).Done?
    requires TaskIndex(tasks, first) < |tasks| && tasks[TaskIndex(tasks, first)].builds
    requires IsReset(TwiceNamed(phase, step, first, second), tree)
    ensures
      var r := ExecutePass(Pass(TwiceNamed(phase, step, first, second), tasks, ask, 0), tree, []);
      r.tree.status.Complete? && r.log == [Run(0, 0, 0, 0, Done)]
  {
    var plan := TwiceNamed(phase, step, first, second);
    var c := Pass(plan, tasks, ask, 0);
    var started := SetPhase(tree.(status := InProgress), 0, InProgress);
    assert AlignedPhase(plan.phases[0], tree.phases[0]);
    assert StepPending(tree, 0, 0) by { assert EngineRuns.InPlan(plan, 0, 0); }
    var log := [Run(0, 0, 0, 0, Done)];
    FirstStepIsDone(c, first);
    var one := SetStep(started, 0, 0, Complete);
    var names := StepNames(plan.phases[0].steps);
    assert plan.phases[0].steps[0].name in names;
    assert names == {step} && names - {step} == {} && {} - {step} == {};
    assert started.phases[0].name == phase && started.phases[0].steps == tree.phases[0].steps;
    assert StepIndex(started.phases[0].steps, step) == 0;
    assert StepIndex(one.phases[0].steps, step) == 0;
    assert StepLoop(c, 0, 0, 2, one, {}, log) == StepScan(one, {}, None, log);
    assert StepLoop(c, 0, 0, 1, one, {}, log) == StepScan(one, {}, None, log);
    assert StepLoop(c, 0, 0, 0, started, names, []) == StepLoop(c, 0, 0, 1, one, {}, log);
    assert PhaseLoop(c, 1, SetPhase(one, 0, Complete), 0, log) == Finish(SetPhase(one, 0, Complete), 0, log);
  }
}
