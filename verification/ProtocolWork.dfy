/** No work is lost across reconciliations, crashes and lost writes. */
module ProtocolWork {
  import opened Plans
  import opened Instances
  import opened Admission
  import opened Controller
  import opened Engine
  import opened Protocol
  import opened ProtocolSafety
  import opened EngineRuns
  import opened ProtocolOrder
  import EngineLogs

  // ----- which reconciliation made a run -----

  lemma {:induction false} LogStep(w: World, s: State, a: Action)
    requires CtlOk(w, s.ctl)
    ensures s.log <= Next(w, s, a).log
    ensures !a.Reconciles? ==> Next(w, s, a).log == s.log
  {
  }

  lemma {:induction false} RunsBearNumber(w: World, i: InstanceData, x: Inputs)
    requires Reconciled(w, i, x).Writes?
    ensures forall r | r in Reconciled(w, i, x).runs :: r.pass == x.pass
  {
    var ov, s := w.ovs[i.spec.ovRef], Scheduling(w, i, x);
    var plan := s.spec.execution.planName;
    if plan != "" && x.resolves && plan in ov.plans && x.prepares {
      var r := Prepared(s, ov, x.now).value;
      var c := Pass(ov.plans[r.spec.execution.planName], ov.tasks, x.ask, x.pass);
      EngineLogs.PassRuns(c, r.planStatus[r.spec.execution.planName]);
    }
  }

  lemma {:induction false} StepNumbers(w: World, s: State, a: Action, m: nat)
    requires CtlOk(w, s.ctl) && |s.log| <= m < |Next(w, s, a).log|
    ensures a.Reconciles? && Next(w, s, a).log[m].run.pass == a.x.pass
  {
    LogStep(w, s, a);
    RunsBearNumber(w, s.reg.obj.value, a.x);
    var runs := Reconciled(w, s.reg.obj.value, a.x).runs;
    assert Next(w, s, a).log[m].run == runs[m - |s.log|];
  }

  lemma {:induction false} LogPrefix(w: World, acts: seq<Action>, k: nat)
    requires k <= |acts|
    ensures After(w, acts[..k]).log <= After(w, acts).log
    decreases |acts|
  {
    var n := |acts| - 1;
    if k <= n {
      LogPrefix(w, acts[..n], k);
      assert acts[..n][..k] == acts[..k];
      LogStep(w, After(w, acts[..n]), acts[n]);
    } else {
      assert acts[..k] == acts;
    }
  }

  /** Run `m` of the log was made by action `k`. */
  ghost predicate MadeIn(w: World, acts: seq<Action>, k: nat, m: nat) {
    k < |acts| && |After(w, acts[..k]).log| <= m < |After(w, acts[..k + 1]).log|
  }

  lemma {:induction false} MakerOf(w: World, acts: seq<Action>, m: nat) returns (k: nat)
    requires m < |After(w, acts).log|
    ensures MadeIn(w, acts, k, m) && acts[k].Reconciles? && After(w, acts).log[m].run.pass == acts[k].x.pass
    decreases |acts|
  {
    var n := |acts| - 1;
    var s := After(w, acts[..n]);
    LogStep(w, s, acts[n]);
    if m < |s.log| {
      k := MakerOf(w, acts[..n], m);
      assert acts[..n][..k] == acts[..k] && acts[..n][..k + 1] == acts[..k + 1];
    } else {
      k := n;
      assert acts[..n + 1] == acts;
      StepNumbers(w, s, acts[n], m);
    }
  }

  /** Two runs with one number were made by the same reconciliation. */
  lemma {:induction false} OneMaker(w: World, acts: seq<Action>, m: nat, k: nat, n: nat, l: nat)
    requires Legal(w, acts) && m < |After(w, acts).log| && n < |After(w, acts).log|
    requires MadeIn(w, acts, k, m) && acts[k].Reconciles? && After(w, acts).log[m].run.pass == acts[k].x.pass
    requires MadeIn(w, acts, l, n) && acts[l].Reconciles? && After(w, acts).log[n].run.pass == acts[l].x.pass
    requires acts[k].x.pass == acts[l].x.pass
    ensures k == l
  {
    if k < l {
      NotBefore(w, acts, m, k, l);
    } else if l < k {
      NotBefore(w, acts, n, l, k);
    }
  }

  lemma {:induction false} NotBefore(w: World, acts: seq<Action>, m: nat, k: nat, l: nat)
    requires Legal(w, acts) && k < l < |acts| && MadeIn(w, acts, k, m) && acts[l].Reconciles?
        && m < |After(w, acts).log|
    ensures After(w, acts).log[m].run.pass != acts[l].x.pass
  {
    LogPrefix(w, acts[..l], k + 1);
    assert acts[..l][..k + 1] == acts[..k + 1];
    LogPrefix(w, acts, l);
    assert Enabled(After(w, acts[..l]), acts[l]);
    assert After(w, acts[..l]).log[m] == After(w, acts).log[m];
  }

  // ----- the promise -----

  /** The instance is stored, or a reconciliation hands it over and can still write it. */
  ghost predicate Shows(w: World, s: State, i: InstanceData)
    requires CtlOk(w, s.ctl)
  {
    || s.reg.obj == Some(i)
    || (Current(s) && i == NextOf(w, s.ctl.base, s.ctl.x) && !WillBeRefused(s.ctl.base))
  }

  /** The instance holds the tree of its scheduled execution, and it is COMPLETE. */
  ghost predicate IsDoneWith(w: World, i: InstanceData) {
    var e := i.spec.execution;
    && e.planName != "" && KnownPlan(w, i.spec.ovRef, e.planName)
    && e.planName in i.planStatus && i.planStatus[e.planName].uid == e.uid && i.planStatus[e.planName].status.Complete?
  }

  ghost function ScheduledPlanOf(w: World, i: InstanceData): Plan
    requires IsDoneWith(w, i)
  {
    PlanOf(w, i.spec.ovRef, i.spec.execution.planName)
  }

  lemma {:induction false} TreeIsBacked(w: World, s: State, i: InstanceData)
    requires Basic(w, s) && OrderState(w, s) && Shows(w, s, i) && IsDoneWith(w, i)
    ensures TreeBacked(w, i.spec.ovRef, i.spec.execution.planName, i.planStatus, s.log)
  {
    if s.reg.obj != Some(i) { NextFacts(w, s.ctl.base, s.ctl.x); }
  }

  /** A COMPLETE tree has seen every task of the step report done, in one pass. */
  lemma {:induction false} CompleteIsDone(w: World, s: State, i: InstanceData, a: nat, b: nat) returns (pass: nat)
    requires Basic(w, s) && UniqueWorld(w) && OrderState(w, s) && Shows(w, s, i) && IsDoneWith(w, i)
    requires InPlan(ScheduledPlanOf(w, i), a, b)
    ensures StepDone(ScheduledPlanOf(w, i), RunsUnder(s.log, SpecKey(i.spec)), pass, a, b)
  {
    var name, plan, runs := i.spec.execution.planName, ScheduledPlanOf(w, i), RunsUnder(s.log, SpecKey(i.spec));
    TreeIsBacked(w, s, i);
    var tree := InitPlan(name, plan, i.planStatus);
    assert Backs(plan, tree, runs) && tree.status.Complete? && PhaseComplete(tree, a) && StepComplete(tree, a, b);
    assert EverDone({}, plan, runs, a, b);
    pass :| StepDone(plan, runs, pass, a, b);
  }

  /** If the tree of the scheduled execution is COMPLETE, as it is stored or as a reconciliation
      hands it over, then each of its steps with tasks had all of them report done under its UID,
      all in one reconciliation. */
  lemma {:induction false} NoWorkLostUnderUid(w: World, acts: seq<Action>, i: InstanceData, a: nat, b: nat)
    returns (k: nat)
    requires UniqueWorld(w) && Legal(w, acts) && Shows(w, After(w, acts), i) && IsDoneWith(w, i)
    requires InPlan(ScheduledPlanOf(w, i), a, b) && ScheduledPlanOf(w, i).phases[a].steps[b].tasks != []
    ensures k < |acts| && acts[k].Reconciles?
    ensures forall name | name in ScheduledPlanOf(w, i).phases[a].steps[b].tasks ::
        DoneIn(w, acts, k, SpecKey(i.spec), a, b, name)
  {
    AlwaysInOrder(w, acts);
    AlwaysBasic(w, acts);
    var log, plan, key := After(w, acts).log, ScheduledPlanOf(w, i), SpecKey(i.spec);
    var tasks := plan.phases[a].steps[b].tasks;
    var pass := CompleteIsDone(w, After(w, acts), i, a, b);
    var first := DoneRun(w, log, key, plan, pass, a, b, tasks[0]);
    k := MakerOf(w, acts, first);
    forall name | name in tasks ensures DoneIn(w, acts, k, key, a, b, name) {
      var m := DoneRun(w, log, key, plan, pass, a, b, name);
      var l := MakerOf(w, acts, m);
      OneMaker(w, acts, first, k, m, l);
    }
  }

  /** Action `k` made a run of task `name` of step (a, b) that reported done. */
  ghost predicate DoneIn(w: World, acts: seq<Action>, k: nat, key: Key, a: nat, b: nat, name: string) {
    exists m :: 0 <= m < |After(w, acts).log| && MadeIn(w, acts, k, m)
                && KeyOf(After(w, acts).log[m]) == key && Did(w, After(w, acts).log[m], a, b, name)
  }

  lemma {:induction false} DoneRun(w: World, log: seq<Executed>, key: Key, plan: Plan, pass: nat, a: nat, b: nat,
                                   name: string)
    returns (m: nat)
    requires KnownPlan(w, key.ovRef, key.plan) && plan == PlanOf(w, key.ovRef, key.plan) && InPlan(plan, a, b)
    requires StepDone(plan, RunsUnder(log, key), pass, a, b) && name in plan.phases[a].steps[b].tasks
    ensures m < |log| && KeyOf(log[m]) == key && log[m].run.pass == pass && Did(w, log[m], a, b, name)
  {
    var runs := RunsUnder(log, key);
    assert TaskDone(plan, runs, pass, a, b, name);
    var q :| 0 <= q < |runs| && IsDone(plan, runs[q], pass, a, b, name);
    m := RunIsLogged(log, key, q);
  }
}
