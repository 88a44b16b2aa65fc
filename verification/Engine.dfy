/** One pass of the plan executor, `workflow.Execute`. */
module Engine {
  import opened Plans

  /** What running a task reports back to the executor. */
  datatype Outcome = Done | NotDone | Transient | Fatal

  /** The answer of the task at (phase, step, position in the step) during one pass. Every
      position runs at most once in a pass, so a function of the position loses nothing. */
  type Oracle = (nat, nat, nat) -> Outcome

  datatype ExecError = MissingPhase | MissingStep | MissingTask | BuildError | TaskFailed

  /** One run of a task, with the number of the pass that made it. */
  datatype Run = Run(pass: nat, phase: nat, step: nat, task: nat, outcome: Outcome)

  /** Everything a pass reads and does not change. */
  datatype Pass = Pass(plan: Plan, tasks: seq<Task>, ask: Oracle, number: nat)

  datatype TaskScan = TaskScan(status: Status, left: set<string>, err: Option<ExecError>, log: seq<Run>)
  datatype StepScan = StepScan(tree: PlanStatus, left: set<string>, err: Option<ExecError>, log: seq<Run>)
  datatype Result = Result(tree: PlanStatus, err: Option<ExecError>, log: seq<Run>)

  /** A running item is set to IN_PROGRESS; every other one keeps its status and is
      nevertheless executed, because `break` only leaves the `switch`. */
  function Resumed(s: Status): Status {
    if s.IsRunning() then InProgress else s
  }

  function NameSet(names: seq<string>): set<string> {
    set n | n in names
  }

  function StepNames(steps: seq<Step>): set<string> {
    set b | 0 <= b < |steps| :: steps[b].name
  }

  function SetPhase(tree: PlanStatus, a: nat, status: Status): PlanStatus
    requires a < |tree.phases|
  {
    tree.(phases := tree.phases[a := tree.phases[a].(status := status)])
  }

  function SetStep(tree: PlanStatus, a: nat, b: nat, status: Status): PlanStatus
    requires a < |tree.phases| && b < |tree.phases[a].steps|
  {
    var ph := tree.phases[a];
    tree.(phases := tree.phases[a := ph.(steps := ph.steps[b := ph.steps[b].(status := status)])])
  }

  /** A fatal error is propagated to the phase and the plan. */
  function Abort(tree: PlanStatus, a: nat): PlanStatus
    requires a < |tree.phases|
  {
    SetPhase(tree, a, FatalError).(status := FatalError)
  }

  // ----- what the three nested loops compute, from a given point on -----

  ghost function TaskLoop(c: Pass, i: nat, j: nat, k: nat, status: Status, left: set<string>, log: seq<Run>): TaskScan
    requires i < |c.plan.phases| && j < |c.plan.phases[i].steps| && k <= |c.plan.phases[i].steps[j].tasks|
    decreases |c.plan.phases[i].steps[j].tasks| - k
  {
    var names := c.plan.phases[i].steps[j].tasks;
    if k == |names| then TaskScan(status, left, None, log) else
    var t := TaskIndex(c.tasks, names[k]);
    if t == |c.tasks| then TaskScan(status, left, Some(MissingTask), log)
    else if !c.tasks[t].builds then TaskScan(status, left, Some(BuildError), log)
    else
      var outcome := c.ask(i, j, k);
      var log' := log + [Run(c.number, i, j, k, outcome)];
      match outcome
      case Fatal => TaskScan(status, left, Some(TaskFailed), log')
      case Transient => TaskLoop(c, i, j, k + 1, Error, left, log')
      case Done => TaskLoop(c, i, j, k + 1, status, left - {names[k]}, log')
      case NotDone => TaskLoop(c, i, j, k + 1, status, left, log')
  }

  ghost function StepLoop(c: Pass, i: nat, a: nat, j: nat, tree: PlanStatus, left: set<string>,
                          log: seq<Run>): (r: StepScan)
    requires i < |c.plan.phases| && j <= |c.plan.phases[i].steps| && a < |tree.phases|
    ensures |r.tree.phases| == |tree.phases|
    decreases |c.plan.phases[i].steps| - j
  {
    var ph := c.plan.phases[i];
    if j == |ph.steps| then StepScan(tree, left, None, log) else
    var name := ph.steps[j].name;
    var b := StepIndex(tree.phases[a].steps, name);
    if b == |tree.phases[a].steps| then StepScan(Abort(tree, a), left, Some(MissingStep), log) else
    var status := tree.phases[a].steps[b].status;
    if status.IsFinished() then StepLoop(c, i, a, j + 1, tree, left - {name}, log) else
    var t := TaskLoop(c, i, j, 0, Resumed(status), NameSet(ph.steps[j].tasks), log);
    if t.err.Some? then StepScan(Abort(SetStep(tree, a, b, FatalError), a), left, t.err, t.log)
    else if t.left == {} then StepLoop(c, i, a, j + 1, SetStep(tree, a, b, Complete), left - {name}, t.log)
    else if ph.strategy.Serial? then StepScan(SetStep(tree, a, b, t.status), left, None, t.log)
    else StepLoop(c, i, a, j + 1, SetStep(tree, a, b, t.status), left, t.log)
  }

  ghost function PhaseLoop(c: Pass, i: nat, tree: PlanStatus, phasesLeft: int, log: seq<Run>): Result
    requires i <= |c.plan.phases|
    decreases |c.plan.phases| - i
  {
    if i == |c.plan.phases| then Finish(tree, phasesLeft, log) else
    var ph := c.plan.phases[i];
    var a := PhaseIndex(tree.phases, ph.name);
    if a == |tree.phases| then Result(tree.(status := FatalError), Some(MissingPhase), log) else
    var status := tree.phases[a].status;
    if status.IsFinished() then PhaseLoop(c, i + 1, tree, phasesLeft - 1, log) else
    var s := StepLoop(c, i, a, 0, SetPhase(tree, a, Resumed(status)), StepNames(ph.steps), log);
    if s.err.Some? then Result(s.tree, s.err, s.log)
    else if s.left == {} then PhaseLoop(c, i + 1, SetPhase(s.tree, a, Complete), phasesLeft - 1, s.log)
    else if c.plan.strategy.Serial? then Finish(s.tree, phasesLeft, s.log)
    else PhaseLoop(c, i + 1, s.tree, phasesLeft, s.log)
  }

  ghost function Finish(tree: PlanStatus, phasesLeft: int, log: seq<Run>): Result {
    Result(if phasesLeft == 0 then tree.(status := Complete) else tree, None, log)
  }

  /** The outcome of one pass: the new status tree, the error and the log extended by its runs. */
  ghost function ExecutePass(c: Pass, tree: PlanStatus, log: seq<Run>): Result {
    if tree.status.IsTerminal() then Result(tree, None, log)
    else PhaseLoop(c, 0, tree.(status := InProgress), |c.plan.phases|, log)
  }

  // ----- the executor itself -----

  lemma {:induction false} SetStepTwice(tree: PlanStatus, a: nat, b: nat, first: Status, second: Status)
    requires a < |tree.phases| && b < |tree.phases[a].steps|
    ensures SetStep(SetStep(tree, a, b, first), a, b, second) == SetStep(tree, a, b, second)
    ensures SetStep(tree, a, b, tree.phases[a].steps[b].status) == tree
  {
    var ph := tree.phases[a];
    var st := ph.steps[b];
    assert ph.steps[b := st.(status := first)][b := st.(status := second)] == ph.steps[b := st.(status := second)];
    var one := tree.phases[a := ph.(steps := ph.steps[b := st.(status := first)])];
    assert one[a := ph.(steps := ph.steps[b := st.(status := second)])]
        == tree.phases[a := ph.(steps := ph.steps[b := st.(status := second)])];
    assert ph.steps[b := st] == ph.steps && tree.phases[a := ph] == tree.phases;
  }

  /** The innermost loop, on the step whose status is at position `b` of phase status `a`. */
  method RunTasks(c: Pass, i: nat, j: nat, start: PlanStatus, a: nat, b: nat, ghost log0: seq<Run>)
    returns (tree: PlanStatus, err: Option<ExecError>, left: set<string>, ghost log: seq<Run>)
    requires i < |c.plan.phases| && j < |c.plan.phases[i].steps|
    requires a < |start.phases| && b < |start.phases[a].steps|
    ensures
      var t := TaskLoop(c, i, j, 0, start.phases[a].steps[b].status, NameSet(c.plan.phases[i].steps[j].tasks), log0);
      && err == t.err && left == t.left && log == t.log
      && tree == if err.Some? then Abort(SetStep(start, a, b, FatalError), a) else SetStep(start, a, b, t.status)
  {
    var names := c.plan.phases[i].steps[j].tasks;
    ghost var scan := TaskLoop(c, i, j, 0, start.phases[a].steps[b].status, NameSet(names), log0);
    tree, err, left, log := start, None, NameSet(names), log0;
    SetStepTwice(start, a, b, Unset, Unset);
    var k := 0;
    while k < |names|
      invariant 0 <= k <= |names| && err.None?
      invariant |tree.phases| == |start.phases| && |tree.phases[a].steps| == |start.phases[a].steps|
      invariant tree == SetStep(start, a, b, tree.phases[a].steps[b].status)
      invariant TaskLoop(c, i, j, k, tree.phases[a].steps[b].status, left, log) == scan
    {
      SetStepTwice(start, a, b, tree.phases[a].steps[b].status, Error);
      SetStepTwice(start, a, b, tree.phases[a].steps[b].status, FatalError);
      var t := TaskIndex(c.tasks, names[k]);
      if t == |c.tasks| {
        err := Some(MissingTask);
      } else if !c.tasks[t].builds {
        err := Some(BuildError);
      } else {
        var outcome := c.ask(i, j, k);
        log := log + [Run(c.number, i, j, k, outcome)];
        match outcome {
          case Fatal => err := Some(TaskFailed);
          case Transient => tree := SetStep(tree, a, b, Error);
          case Done => left := left - {names[k]};
          case NotDone =>
        }
      }
      if err.Some? {
        tree := Abort(SetStep(tree, a, b, FatalError), a);
        return;
      }
      k := k + 1;
    }
  }

  /** The middle loop, on the phase whose status is at position `a`. */
  method RunSteps(c: Pass, i: nat, start: PlanStatus, a: nat, ghost log0: seq<Run>)
    returns (tree: PlanStatus, err: Option<ExecError>, left: set<string>, ghost log: seq<Run>)
    requires i < |c.plan.phases| && a < |start.phases|
    ensures StepScan(tree, left, err, log) == StepLoop(c, i, a, 0, start, StepNames(c.plan.phases[i].steps), log0)
    ensures tree.status == if err.Some? then FatalError else start.status
  {
    var ph := c.plan.phases[i];
    tree, err, left, log := start, None, StepNames(ph.steps), log0;
    var j := 0;
    while j < |ph.steps|
      invariant 0 <= j <= |ph.steps| && |tree.phases| == |start.phases|
      invariant tree.status == start.status && err.None?
      invariant StepLoop(c, i, a, j, tree, left, log) == StepLoop(c, i, a, 0, start, StepNames(ph.steps), log0)
    {
      var b := StepIndex(tree.phases[a].steps, ph.steps[j].name);
      if b == |tree.phases[a].steps| {
        tree, err := Abort(tree, a), Some(MissingStep);
        return;
      }
      var status := tree.phases[a].steps[b].status;
      if status.IsFinished() {
        left, j := left - {ph.steps[j].name}, j + 1;
        continue;
      }
      ghost var before := tree;
      var tasksLeft;
      tree := SetStep(tree, a, b, Resumed(status));
      tree, err, tasksLeft, log := RunTasks(c, i, j, tree, a, b, log);
      SetStepTwice(before, a, b, Resumed(status), tree.phases[a].steps[b].status);
      if err.Some? {
        SetStepTwice(before, a, b, Resumed(status), FatalError);
        return;
      }
      if tasksLeft != {} {
        if ph.strategy.Serial? { return; }
      } else {
        SetStepTwice(before, a, b, tree.phases[a].steps[b].status, Complete);
        tree, left := SetStep(tree, a, b, Complete), left - {ph.steps[j].name};
      }
      j := j + 1;
    }
  }

  /** One call of `workflow.Execute`. */
  method Execute(c: Pass, start: PlanStatus, ghost log0: seq<Run>)
    returns (tree: PlanStatus, err: Option<ExecError>, ghost log: seq<Run>)
    ensures Result(tree, err, log) == ExecutePass(c, start, log0)
    ensures !start.status.IsTerminal() ==>
              || (tree.status.InProgress? && err.None?)
              || (tree.status.Complete? && err.None?)
              || (tree.status.FatalError? && err.Some?)
  {
    tree, err, log := start, None, log0;
    if start.status.IsTerminal() { return; }
    tree := tree.(status := InProgress);
    var phasesLeft := |c.plan.phases|;
    var i := 0;
    while i < |c.plan.phases|
      invariant 0 <= i <= |c.plan.phases|
      invariant tree.status.InProgress? && err.None?
      invariant PhaseLoop(c, i, tree, phasesLeft, log) == ExecutePass(c, start, log0)
    {
      var a := PhaseIndex(tree.phases, c.plan.phases[i].name);
      if a == |tree.phases| {
        tree, err := tree.(status := FatalError), Some(MissingPhase);
        return;
      }
      if tree.phases[a].status.IsFinished() {
        phasesLeft, i := phasesLeft - 1, i + 1;
        continue;
      }
      var stepsLeft;
      tree := SetPhase(tree, a, Resumed(tree.phases[a].status));
      tree, err, stepsLeft, log := RunSteps(c, i, tree, a, log);
      if err.Some? { return; }
      if stepsLeft != {} {
        if c.plan.strategy.Serial? { break; }
      } else {
        tree, phasesLeft := SetPhase(tree, a, Complete), phasesLeft - 1;
      }
      i := i + 1;
    }
    if phasesLeft == 0 {
      tree := tree.(status := Complete);
    }
  }
}
