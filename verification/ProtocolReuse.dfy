/** A run in which a task is run under a UID that has finished. */
module ProtocolReuse {
  import opened Plans
  import opened Parameters
  import opened Instances
  import opened Admission
  import opened Controller
  import opened Engine
  import opened Protocol
  import opened ProtocolSafety
  import opened ProtocolLimits
  import EngineStatus

  const TASK := Task("t", "Delete", true, "", "", "")

  /** A plan with a single task. */
  const ONE_TASK := Plan(Serial, [Phase("p", Serial, [Step("s", ["t"])])])

  /** Every plan runs one task. */
  function Worker(plans: set<string>): OperatorVersion {
    OperatorVersion("op", "1.0.0", "", [TASK], [], map k | k in plans :: ONE_TASK)
  }

  function RunOnce(pass: nat): Run { Run(pass, 0, 0, 0, Done) }

  /** A pass over the reset tree runs the task and is done. */
  lemma {:induction false} TaskIsRun(tree: PlanStatus, x: Inputs)
    requires tree.status.Pending? && tree.phases == [PhaseStatus("p", Pending, [StepStatus("s", Pending)])]
        && x.ask(0, 0, 0).Done?
    ensures
      var r := ExecutePass(Pass(ONE_TASK, [TASK], x.ask, x.pass), tree, []);
      r.log == [RunOnce(x.pass)] && r.tree.status.Complete?
  {
    var c := Pass(ONE_TASK, [TASK], x.ask, x.pass);
    var started := SetPhase(tree.(status := InProgress), 0, InProgress);
    var log := [Run(x.pass, 0, 0, 0, Done)];
    assert TaskIndex([TASK], "t") == 0 && NameSet(["t"]) == {"t"} && [] + log == log;
    assert TaskLoop(c, 0, 0, 1, InProgress, {}, log) == TaskScan(InProgress, {}, None, log);
    assert {"t"} - {"t"} == {};
    assert TaskLoop(c, 0, 0, 0, InProgress, {"t"}, []) == TaskScan(InProgress, {}, None, log);
    var names := StepNames(ONE_TASK.phases[0].steps);
    var one := SetStep(started, 0, 0, Complete);
    assert ONE_TASK.phases[0].steps[0].name in names;
    assert names == {"s"} && names - {"s"} == {};
    assert StepLoop(c, 0, 0, 1, one, {}, log) == StepScan(one, {}, None, log);
    assert PhaseIndex(tree.phases, "p") == 0 && StepIndex(started.phases[0].steps, "s") == 0;
    assert StepLoop(c, 0, 0, 0, started, names, []) == StepLoop(c, 0, 0, 1, one, {}, log);
    assert PhaseLoop(c, 1, SetPhase(one, 0, Complete), 0, log) == Finish(SetPhase(one, 0, Complete), 0, log);
  }

  lemma {:induction false} FreshTree(plan: string, ps: PlanStatus, uid: UID)
    requires ps == InitPlan(plan, ONE_TASK, map[])
    ensures ps.name == plan && ps.uid == "" && ps.status.NeverRun?
    ensures ResetTree(ps, uid).phases == [PhaseStatus("p", Pending, [StepStatus("s", Pending)])]
  {
    assert InitPhases(ONE_TASK.phases, []) == [PhaseFor(ONE_TASK.phases[0], [])] + InitPhases([], []);
    var steps := [StepStatus("s", NeverRun)];
    assert InitSteps(ONE_TASK.phases[0].steps, []) == steps;
    assert ps.phases == [PhaseStatus("p", NeverRun, steps)];
    assert ResetPhase(ps.phases[0]) == PhaseStatus("p", Pending, [StepStatus("s", Pending)]);
  }

  /** A reconciliation that starts a plan, no status being stored, runs its task. */
  lemma {:induction false} PlanRuns(plans: set<string>, i: InstanceData, x: Inputs)
    requires i.planStatus == map[] && i.spec.ovRef == "ov" && i.spec.execution.planName in plans - {""}
        && i.spec.execution.uid != ""
    requires i.deleting ==> i.spec.execution.planName == CLEANUP
    requires x.resolves && x.prepares && x.ask(0, 0, 0).Done?
    ensures
      var w, plan := WorldOf(Worker(plans)), i.spec.execution.planName;
      && Reconciled(w, i, x).Writes? && Reconciled(w, i, x).runs == [RunOnce(x.pass)]
      && (var next := Reconciled(w, i, x).next;
          && next.spec == i.spec.(execution := i.spec.execution.(status := Complete)) && next.deleting == i.deleting
          && next.finalizers == i.finalizers && next.planStatus.Keys == plans
          && forall k | k in plans - {plan} :: next.planStatus[k].status.NeverRun?)
  {
    var w, ov, plan, uid := WorldOf(Worker(plans)), Worker(plans), i.spec.execution.planName, i.spec.execution.uid;
    var s := i.(readiness := x.readiness);
    assert WithCleanup(i, ov, x.uuid) == i && w.ovs["ov"] == ov && ov.plans.Keys == plans;
    var all := InitStatus(s.planStatus, ov.plans);
    forall k | k in plans
      ensures all[k] == InitPlan(k, ONE_TASK, map[]) && all[k].status.NeverRun? && all[k].name == k
      && all[k].uid == "" {
      FreshTree(k, all[k], uid);
    }
    FreshTree(plan, all[plan], uid);
    var r := Prepared(s, ov, x.now).value;
    assert r.planStatus[plan] == Stamped(ResetTree(all[plan], uid), x.now);
    TaskIsRun(r.planStatus[plan], x);
    EngineStatus.PassKeepsIdentity(Pass(ONE_TASK, [TASK], x.ask, x.pass), r.planStatus[plan], []);
  }

  lemma {:induction false} DeployEnds(u: Ids, plans: set<string>) returns (next: InstanceData)
    requires u.Distinct() && DEPLOY in plans && CLEANUP in plans
    ensures
      var w, i, x := WorldOf(Worker(plans)), Created0(u, plans), First(u);
      && Reconciled(w, i, x).Writes? && Reconciled(w, i, x).runs == [RunOnce(1)] && next == NextOf(w, i, x)
      && next.spec == i.spec.(execution := i.spec.execution.(status := Complete))
      && next.finalizers == i.finalizers && !next.deleting
  {
    PlanRuns(plans, Created0(u, plans), First(u));
    next := NextOf(WorldOf(Worker(plans)), Created0(u, plans), First(u));
  }

  lemma {:induction false} WorkerIsCreated(u: Ids, plans: set<string>)
    requires DEPLOY in plans
    ensures Created(WorldOf(Worker(plans)), REQUEST, None, u.a) == Stored(Created0(u, plans))
  {
  }

  lemma {:induction false} DeployIsCleared(u: Ids, plans: set<string>, next: InstanceData)
    requires u.Distinct() && DEPLOY in plans
    requires
      var i := Created0(u, plans);
      && next.spec == i.spec.(execution := i.spec.execution.(status := Complete)) && next.finalizers == i.finalizers
        && !next.deleting
    ensures
      var w, i := WorldOf(Worker(plans)), Created0(u, plans);
      && NeedsSpecWrite(i, next) && Updated(w, i, next, u.c) == Stored(next.(spec := NONE_SCHEDULED))
      && Merged(i, next.(spec := NONE_SCHEDULED)) == Idle0(u, plans) && FinishedBy(i, next) == {u.a}
  {
    ProgressVerdict(WorldOf(Worker(plans)), Created0(u, plans), next, u.c);
  }

  /** Deploy is created, completed and cleared; its UID has finished. The controller stops. */
  lemma {:induction false} DeployFinishes(u: Ids, plans: set<string>) returns (acts: seq<Action>, s: State)
    requires u.Distinct() && DEPLOY in plans && CLEANUP in plans
    ensures
      && Reaches(WorldOf(Worker(plans)), acts, s)
      && Rests(s, Idle0(u, plans), 2, {u.a, "", u.b, u.c}) && s.finished == {u.a}
      && s.log == [Executed(u.a, "ov", DEPLOY, RunOnce(1))]
  {
    acts, s := DeployWritten(u, plans);
    acts, s := Stops(WorldOf(Worker(plans)), acts, s, Idle0(u, plans), 2);
  }

  lemma {:induction false} DeployWritten(u: Ids, plans: set<string>) returns (acts: seq<Action>, s: State)
    requires u.Distinct() && DEPLOY in plans && CLEANUP in plans
    ensures
      && Reaches(WorldOf(Worker(plans)), acts, s)
      && s.reg == Register(Some(Idle0(u, plans)), 2) && s.used == {u.a, "", u.b, u.c} && s.finished == {u.a}
      && s.log == [Executed(u.a, "ov", DEPLOY, RunOnce(1))]
  {
    var w, i := WorldOf(Worker(plans)), Created0(u, plans);
    var next := DeployEnds(u, plans);
    WorkerIsCreated(u, plans);
    DeployIsCleared(u, plans, next);
    acts, s := FirstReconcile(w, u, REQUEST, i, First(u), next.(spec := NONE_SCHEDULED));
  }

  function Requested(u: Ids, plans: set<string>): InstanceData {
    Idle0(u, plans).(deleting := true, spec := Spec("ov", map[], PlanExecution(CLEANUP, u.a, Unset)))
  }

  lemma {:induction false} CleanupRequestStored(u: Ids, plans: set<string>)
    requires CLEANUP in plans
    ensures Updated(WorldOf(Worker(plans)), Idle0(u, plans).(deleting := true), Requested(u, plans), u.d)
        == Stored(Requested(u, plans))
  {
    assert ChangedKeys(map[], map[]) == {} && RemovedKeys(map[], map[]) == {};
  }

  /** The instance is being deleted, and the user requests cleanup under the finished UID. */
  lemma {:induction false} CleanupIsRequested(u: Ids, plans: set<string>) returns (acts: seq<Action>, s: State)
    requires u.Distinct() && DEPLOY in plans && CLEANUP in plans
    ensures Legal(WorldOf(Worker(plans)), acts) && After(WorldOf(Worker(plans)), acts) == s
    ensures Rests(s, Requested(u, plans), 4, {u.a, "", u.b, u.c, u.d}) && s.finished == {u.a}
    ensures s.log == [Executed(u.a, "ov", DEPLOY, RunOnce(1))]
  {
    var w, gone := WorldOf(Worker(plans)), Idle0(u, plans).(deleting := true);
    acts, s := DeployFinishes(u, plans);
    LegalNext(w, acts, Delete);
    acts, s := acts + [Delete], Next(w, s, Delete);
    assert Rests(s, gone, 3, {u.a, "", u.b, u.c});
    CleanupRequestStored(u, plans);
    var wanted := Requested(u, plans);
    LegalNext(w, acts, Update(wanted, u.d));
    acts, s := acts + [Update(wanted, u.d)], Next(w, s, Update(wanted, u.d));
    assert wanted.(deleting := true) == wanted && Merged(gone, wanted) == wanted;
  }

  /** The webhook lets the request through, and the next reconciliation runs the cleanup task
      under a UID that has finished, and under which deploy has run before. */
  lemma {:induction false} FinishedUidRunAgain(u: Ids, plans: set<string>) returns (acts: seq<Action>, s: State)
    requires u.Distinct() && DEPLOY in plans && CLEANUP in plans
    ensures Legal(WorldOf(Worker(plans)), acts) && After(WorldOf(Worker(plans)), acts) == s && acts != []
    ensures s.log == [Executed(u.a, "ov", DEPLOY, RunOnce(1)), Executed(u.a, "ov", CLEANUP, RunOnce(3))]
    ensures
      var before := After(WorldOf(Worker(plans)), acts[..|acts| - 1]);
      u.a in before.finished && before.log == s.log[..1]
  {
    var before, requested := CleanupIsRequested(u, plans);
    acts, s := CleanupFollows(u, plans, before, requested);
  }

  lemma {:induction false} CleanupFollows(u: Ids, plans: set<string>, before: seq<Action>, s0: State)
    returns (acts: seq<Action>, s: State)
    requires u.Distinct() && CLEANUP in plans
    requires Legal(WorldOf(Worker(plans)), before) && After(WorldOf(Worker(plans)), before) == s0
    requires Rests(s0, Requested(u, plans), 4, {u.a, "", u.b, u.c, u.d})
    requires s0.log == [Executed(u.a, "ov", DEPLOY, RunOnce(1))]
    ensures Legal(WorldOf(Worker(plans)), acts) && After(WorldOf(Worker(plans)), acts) == s && acts != []
    ensures s.log == [Executed(u.a, "ov", DEPLOY, RunOnce(1)), Executed(u.a, "ov", CLEANUP, RunOnce(3))]
    ensures After(WorldOf(Worker(plans)), acts[..|acts| - 1]) == s0
  {
    var w, x := WorldOf(Worker(plans)), Input(u.e, 3, "q", true);
    var used: set<UID> := {u.a, "", u.b, u.c, u.d};
    assert u.e !in used && u.e != "";
    CleanupRuns(u, plans, x);
    acts, s := RunsOnce(w, before, s0, Requested(u, plans), 4, used, x,
                        Executed(u.a, "ov", DEPLOY, RunOnce(1)), Executed(u.a, "ov", CLEANUP, RunOnce(3)));
  }

  /** A reconciliation that adds one run to a log of one. */
  lemma {:induction false} RunsOnce(w: World, before: seq<Action>, s0: State, i: InstanceData, version: nat,
                                    used: set<UID>, x: Inputs, first: Executed, more: Executed)
    returns (acts: seq<Action>, s: State)
    requires Legal(w, before) && After(w, before) == s0 && Rests(s0, i, version, used)
    requires x.uuid != "" && x.uuid !in used && s0.log == [first] && first.run.pass != x.pass
    requires Reconciled(w, i, x).Writes? && Logged(NextOf(w, i, x).spec, Reconciled(w, i, x).runs) == [more]
    ensures Legal(w, acts) && After(w, acts) == s && s.log == [first, more]
    ensures acts != [] && After(w, acts[..|acts| - 1]) == s0
  {
    acts, s := ReconcilesFrom(w, before, s0, i, version, used, x);
    assert acts[..|acts| - 1] == before;
  }

  lemma {:induction false} CleanupRuns(u: Ids, plans: set<string>, x: Inputs)
    requires u.Distinct() && CLEANUP in plans && x == Input(u.e, 3, "q", true)
    ensures
      var w, i := WorldOf(Worker(plans)), Requested(u, plans);
      && Reconciled(w, i, x).Writes?
      && Logged(NextOf(w, i, x).spec, Reconciled(w, i, x).runs) == [Executed(u.a, "ov", CLEANUP, RunOnce(3))]
  {
    PlanRuns(plans, Requested(u, plans), x);
  }
}
