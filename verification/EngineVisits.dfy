/** What one visit of a step amounts to, told by the runs it adds to the log. */
module EngineVisits {
  import opened Plans
  import opened Engine
  import opened EngineRuns

  /** The run of task `k` of step (i, j) in this pass. */
  ghost function RunOf(c: Pass, i: nat, j: nat, k: nat): Run {
    Run(c.number, i, j, k, c.ask(i, j, k))
  }

  /** `more` adds to `log` the runs of the tasks from `k` on, in order and without a gap. */
  ghost predicate AddsRuns(c: Pass, i: nat, j: nat, k: nat, log: seq<Run>, more: seq<Run>) {
    log <= more && forall n | |log| <= n < |more| :: more[n] == RunOf(c, i, j, k + n - |log|)
  }

  /** Among the tasks from `k` up to `end`, one called `name` reported done. */
  ghost predicate DoneBetween(c: Pass, i: nat, j: nat, k: nat, end: nat, name: string)
    requires InPlan(c.plan, i, j) && end <= |c.plan.phases[i].steps[j].tasks|
  {
    exists m | k <= m < end :: c.plan.phases[i].steps[j].tasks[m] == name && c.ask(i, j, m).Done?
  }

  ghost predicate TransientBetween(c: Pass, i: nat, j: nat, k: nat, end: nat) {
    exists m: nat | k <= m < end :: c.ask(i, j, m).Transient?
  }

  /** Task `k` can be run at all: it is known and it builds. */
  ghost predicate Runnable(c: Pass, i: nat, j: nat, k: nat)
    requires InPlan(c.plan, i, j) && k < |c.plan.phases[i].steps[j].tasks|
  {
    var t := TaskIndex(c.tasks, c.plan.phases[i].steps[j].tasks[k]);
    t < |c.tasks| && c.tasks[t].builds
  }

  ghost predicate Unknown(c: Pass, name: string) {
    forall t | t in c.tasks :: t.name != name
  }

  /** The tasks from `k` on, up to `end`, run without a fatal error. */
  ghost predicate RunsBetween(c: Pass, i: nat, j: nat, k: nat, end: nat)
    requires InPlan(c.plan, i, j) && end <= |c.plan.phases[i].steps[j].tasks|
  {
    forall m: nat | k <= m < end :: Runnable(c, i, j, m) && !c.ask(i, j, m).Fatal?
  }

  /** The error says why the visit ended at task `end`. */
  ghost predicate ErrorTells(c: Pass, i: nat, j: nat, end: nat, err: Option<ExecError>)
    requires InPlan(c.plan, i, j)
  {
    var names := c.plan.phases[i].steps[j].tasks;
    && (err == Some(TaskFailed) <==> end < |names| && Runnable(c, i, j, end) && c.ask(i, j, end).Fatal?)
    && (err == Some(MissingTask) <==> end < |names| && Unknown(c, names[end]))
    && (err.Some? ==> err.value.TaskFailed? || err.value.MissingTask? || err.value.BuildError?)
  }

  /** `end` is where the visit that starts at task `k` comes to its end: at the first task that
      cannot be run or fails fatally, or past the last one. */
  ghost predicate EndsAt(c: Pass, i: nat, j: nat, k: nat, end: nat, err: Option<ExecError>)
    requires InPlan(c.plan, i, j)
  {
    var names := c.plan.phases[i].steps[j].tasks;
    && k <= end <= |names| && RunsBetween(c, i, j, k, end)
    && (err.None? <==> end == |names|)
    && (err.Some? ==> !Runnable(c, i, j, end) || c.ask(i, j, end).Fatal?)
    && ErrorTells(c, i, j, end, err)
  }

  ghost predicate VisitOk(c: Pass, i: nat, j: nat, k: nat, end: nat, status: Status, left: set<string>, log: seq<Run>,
                          r: TaskScan)
    requires InPlan(c.plan, i, j)
  {
    && EndsAt(c, i, j, k, end, r.err)
    && AddsRuns(c, i, j, k, log, r.log)
    && |r.log| == |log| + end - k + (if r.err == Some(TaskFailed) then 1 else 0)
    && r.status == (if TransientBetween(c, i, j, k, end) then Error else status)
    && (forall x :: x in r.left <==> x in left && !DoneBetween(c, i, j, k, end, x))
  }

  /** One visit runs the tasks of a step in order, each at most once, up to the first that cannot
      be run or fails fatally; a name is left exactly when no task so called reported done, and
      the step turns to ERROR exactly when some task failed transiently. */
  lemma {:induction false} TaskLoopVisits(c: Pass, i: nat, j: nat, k: nat, status: Status, left: set<string>,
                                          log: seq<Run>)
    returns (end: nat)
    requires InPlan(c.plan, i, j) && k <= |c.plan.phases[i].steps[j].tasks|
    ensures VisitOk(c, i, j, k, end, status, left, log, TaskLoop(c, i, j, k, status, left, log))
    decreases |c.plan.phases[i].steps[j].tasks| - k
  {
    var names := c.plan.phases[i].steps[j].tasks;
    end := k;
    if k < |names| && Runnable(c, i, j, k) && !c.ask(i, j, k).Fatal? {
      var outcome := c.ask(i, j, k);
      var left' := if outcome.Done? then left - {names[k]} else left;
      var status' := if outcome.Transient? then Error else status;
      var log' := log + [RunOf(c, i, j, k)];
      end := TaskLoopVisits(c, i, j, k + 1, status', left', log');
      VisitComposes(c, i, j, k, end, status, left, log, TaskLoop(c, i, j, k + 1, status', left', log'));
    }
  }

  lemma {:induction false} EndComposes(c: Pass, i: nat, j: nat, k: nat, end: nat, err: Option<ExecError>)
    requires InPlan(c.plan, i, j) && k < |c.plan.phases[i].steps[j].tasks|
    requires Runnable(c, i, j, k) && !c.ask(i, j, k).Fatal? && EndsAt(c, i, j, k + 1, end, err)
    ensures EndsAt(c, i, j, k, end, err)
  {
  }

  lemma {:induction false} RunsCompose(c: Pass, i: nat, j: nat, k: nat, log: seq<Run>, more: seq<Run>)
    requires AddsRuns(c, i, j, k + 1, log + [RunOf(c, i, j, k)], more)
    ensures AddsRuns(c, i, j, k, log, more)
  {
    var log' := log + [RunOf(c, i, j, k)];
    assert more[|log|] == log'[|log|];
  }

  lemma {:induction false} VisitComposes(c: Pass, i: nat, j: nat, k: nat, end: nat, status: Status, left: set<string>,
                                         log: seq<Run>, r: TaskScan)
    requires InPlan(c.plan, i, j) && k < |c.plan.phases[i].steps[j].tasks|
    requires Runnable(c, i, j, k) && !c.ask(i, j, k).Fatal?
    requires
      var outcome := c.ask(i, j, k);
      var left' := if outcome.Done? then left - {c.plan.phases[i].steps[j].tasks[k]} else left;
      VisitOk(c, i, j, k + 1, end, if outcome.Transient? then Error else status, left', log + [RunOf(c, i, j, k)], r)
    ensures VisitOk(c, i, j, k, end, status, left, log, r)
  {
    EndComposes(c, i, j, k, end, r.err);
    RunsCompose(c, i, j, k, log, r.log);
    assert TransientBetween(c, i, j, k, end) <==> c.ask(i, j, k).Transient? || TransientBetween(c, i, j, k + 1, end);
    forall x
      ensures DoneBetween(c, i, j, k, end, x) <==>
                || DoneBetween(c, i, j, k + 1, end, x)
                || (c.plan.phases[i].steps[j].tasks[k] == x && c.ask(i, j, k).Done?)
    {
    }
  }
}
