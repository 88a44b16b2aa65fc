/** What a pass does, apart from adding to it, does not depend on the log it starts with. */
module EngineLogs {
  import opened Plans
  import opened Engine

  function After(log: seq<Run>, r: Result): Result { r.(log := log + r.log) }

  lemma {:induction false} TaskLoopLog(c: Pass, i: nat, j: nat, k: nat, status: Status, left: set<string>,
                                       log: seq<Run>, more: seq<Run>)
    requires i < |c.plan.phases| && j < |c.plan.phases[i].steps| && k <= |c.plan.phases[i].steps[j].tasks|
    ensures
      var r := TaskLoop(c, i, j, k, status, left, more);
      TaskLoop(c, i, j, k, status, left, log + more) == r.(log := log + r.log)
    decreases |c.plan.phases[i].steps[j].tasks| - k
  {
    var names := c.plan.phases[i].steps[j].tasks;
    if k < |names| {
      var outcome := c.ask(i, j, k);
      var run := [Run(c.number, i, j, k, outcome)];
      assert (log + more) + run == log + (more + run);
      TaskLoopLog(c, i, j, k + 1, if outcome.Transient? then Error else status,
                  if outcome.Done? then left - {names[k]} else left, log, more + run);
    }
  }

  lemma {:induction false} StepLoopLog(c: Pass, i: nat, a: nat, j: nat, tree: PlanStatus, left: set<string>,
                                       log: seq<Run>, more: seq<Run>)
    requires i < |c.plan.phases| && j <= |c.plan.phases[i].steps| && a < |tree.phases|
    ensures
      var r := StepLoop(c, i, a, j, tree, left, more);
      StepLoop(c, i, a, j, tree, left, log + more) == r.(log := log + r.log)
    decreases |c.plan.phases[i].steps| - j
  {
    var ph := c.plan.phases[i];
    if j < |ph.steps| {
      var name := ph.steps[j].name;
      var b := StepIndex(tree.phases[a].steps, name);
      if b < |tree.phases[a].steps| {
        var status := tree.phases[a].steps[b].status;
        if status.IsFinished() {
          StepLoopLog(c, i, a, j + 1, tree, left - {name}, log, more);
        } else {
          var t := TaskLoop(c, i, j, 0, Resumed(status), NameSet(ph.steps[j].tasks), more);
          TaskLoopLog(c, i, j, 0, Resumed(status), NameSet(ph.steps[j].tasks), log, more);
          if t.err.None? && t.left == {} {
            StepLoopLog(c, i, a, j + 1, SetStep(tree, a, b, Complete), left - {name}, log, t.log);
          } else if t.err.None? && !ph.strategy.Serial? {
            StepLoopLog(c, i, a, j + 1, SetStep(tree, a, b, t.status), left, log, t.log);
          }
        }
      }
    }
  }

  lemma {:induction false} PhaseLoopLog(c: Pass, i: nat, tree: PlanStatus, phasesLeft: int, log: seq<Run>,
                                        more: seq<Run>)
    requires i <= |c.plan.phases|
    ensures PhaseLoop(c, i, tree, phasesLeft, log + more) == After(log, PhaseLoop(c, i, tree, phasesLeft, more))
    decreases |c.plan.phases| - i
  {
    if i < |c.plan.phases| {
      var ph := c.plan.phases[i];
      var a := PhaseIndex(tree.phases, ph.name);
      if a < |tree.phases| {
        if tree.phases[a].status.IsFinished() {
          PhaseLoopLog(c, i + 1, tree, phasesLeft - 1, log, more);
        } else {
          var started := SetPhase(tree, a, Resumed(tree.phases[a].status));
          StepLoopLog(c, i, a, 0, started, StepNames(ph.steps), log, more);
          var s := StepLoop(c, i, a, 0, started, StepNames(ph.steps), more);
          if s.err.None? && s.left == {} {
            PhaseLoopLog(c, i + 1, SetPhase(s.tree, a, Complete), phasesLeft - 1, log, s.log);
          } else if s.err.None? && !c.plan.strategy.Serial? {
            PhaseLoopLog(c, i + 1, s.tree, phasesLeft, log, s.log);
          }
        }
      }
    }
  }

  // ----- every run bears the number of its pass, and the answer of its task -----

  ghost predicate IsRunOf(c: Pass, r: Run) {
    r.pass == c.number && r.outcome == c.ask(r.phase, r.step, r.task)
  }

  ghost predicate AddsRuns(c: Pass, log: seq<Run>, more: seq<Run>) {
    log <= more && forall n | |log| <= n < |more| :: IsRunOf(c, more[n])
  }

  lemma {:induction false} TaskLoopRuns(c: Pass, i: nat, j: nat, k: nat, status: Status, left: set<string>,
                                        log: seq<Run>)
    requires i < |c.plan.phases| && j < |c.plan.phases[i].steps| && k <= |c.plan.phases[i].steps[j].tasks|
    ensures AddsRuns(c, log, TaskLoop(c, i, j, k, status, left, log).log)
    decreases |c.plan.phases[i].steps[j].tasks| - k
  {
    var names := c.plan.phases[i].steps[j].tasks;
    if k < |names| {
      var outcome := c.ask(i, j, k);
      var log' := log + [Run(c.number, i, j, k, outcome)];
      TaskLoopRuns(c, i, j, k + 1, if outcome.Transient? then Error else status,
                      if outcome.Done? then left - {names[k]} else left, log');
    }
  }

  lemma {:induction false} StepLoopRuns(c: Pass, i: nat, a: nat, j: nat, tree: PlanStatus, left: set<string>,
                                        log: seq<Run>)
    requires i < |c.plan.phases| && j <= |c.plan.phases[i].steps| && a < |tree.phases|
    ensures AddsRuns(c, log, StepLoop(c, i, a, j, tree, left, log).log)
    decreases |c.plan.phases[i].steps| - j
  {
    var ph := c.plan.phases[i];
    if j < |ph.steps| {
      var name := ph.steps[j].name;
      var b := StepIndex(tree.phases[a].steps, name);
      if b < |tree.phases[a].steps| {
        var status := tree.phases[a].steps[b].status;
        if status.IsFinished() {
          StepLoopRuns(c, i, a, j + 1, tree, left - {name}, log);
        } else {
          var t := TaskLoop(c, i, j, 0, Resumed(status), NameSet(ph.steps[j].tasks), log);
          TaskLoopRuns(c, i, j, 0, Resumed(status), NameSet(ph.steps[j].tasks), log);
          if t.err.None? && t.left == {} {
            StepLoopRuns(c, i, a, j + 1, SetStep(tree, a, b, Complete), left - {name}, t.log);
          } else if t.err.None? && !ph.strategy.Serial? {
            StepLoopRuns(c, i, a, j + 1, SetStep(tree, a, b, t.status), left, t.log);
          }
        }
      }
    }
  }

  lemma {:induction false} PhaseLoopRuns(c: Pass, i: nat, tree: PlanStatus, phasesLeft: int, log: seq<Run>)
    requires i <= |c.plan.phases|
    ensures AddsRuns(c, log, PhaseLoop(c, i, tree, phasesLeft, log).log)
    decreases |c.plan.phases| - i
  {
    if i < |c.plan.phases| {
      var ph := c.plan.phases[i];
      var a := PhaseIndex(tree.phases, ph.name);
      if a < |tree.phases| {
        if tree.phases[a].status.IsFinished() {
          PhaseLoopRuns(c, i + 1, tree, phasesLeft - 1, log);
        } else {
          var started := SetPhase(tree, a, Resumed(tree.phases[a].status));
          StepLoopRuns(c, i, a, 0, started, StepNames(ph.steps), log);
          var s := StepLoop(c, i, a, 0, started, StepNames(ph.steps), log);
          if s.err.None? && s.left == {} {
            PhaseLoopRuns(c, i + 1, SetPhase(s.tree, a, Complete), phasesLeft - 1, s.log);
          } else if s.err.None? && !c.plan.strategy.Serial? {
            PhaseLoopRuns(c, i + 1, s.tree, phasesLeft, s.log);
          }
        }
      }
    }
  }

  lemma {:induction false} PassRuns(c: Pass, tree: PlanStatus)
    ensures forall r | r in ExecutePass(c, tree, []).log :: IsRunOf(c, r)
  {
    if !tree.status.IsTerminal() { PhaseLoopRuns(c, 0, tree.(status := InProgress), |c.plan.phases|, []); }
  }

  /** A pass that starts with a log adds the runs it makes when it starts with none. */
  lemma {:induction false} PassLog(c: Pass, tree: PlanStatus, log: seq<Run>)
    ensures ExecutePass(c, tree, log) == After(log, ExecutePass(c, tree, []))
  {
    assert log + [] == log;
    if !tree.status.IsTerminal() { PhaseLoopLog(c, 0, tree.(status := InProgress), |c.plan.phases|, log, []); }
  }
}
