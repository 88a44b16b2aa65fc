/** The order of task runs across reconciliations, crashes and lost writes: what the executor
    promises for passes over one status tree holds for all runs of one plan under one UID. */
module ProtocolOrder {
  import opened Plans
  import opened Instances
  import opened Admission
  import opened Controller
  import opened Engine
  import opened Protocol
  import opened ProtocolSafety
  import opened ProtocolTheorems
  import opened EngineRuns
  import EngineTheorems
  import EngineProgress
  import EngineStatus
  import EngineLogs

  // ----- one execution: UID, operator version and plan -----

  datatype Key = Key(uid: UID, ovRef: string, plan: string)

  function KeyOf(e: Executed): Key { Key(e.uid, e.ovRef, e.plan) }

  function SpecKey(spec: Spec): Key { Key(spec.execution.uid, spec.ovRef, spec.execution.planName) }

  ghost predicate UniqueWorld(w: World) {
    forall r, p | r in w.ovs && p in w.ovs[r].plans :: UniqueNames(w.ovs[r].plans[p])
  }

  ghost predicate KnownPlan(w: World, ovRef: string, plan: string) {
    ovRef in w.ovs && plan in w.ovs[ovRef].plans
  }

  ghost function PlanOf(w: World, ovRef: string, plan: string): Plan
    requires KnownPlan(w, ovRef, plan)
  {
    w.ovs[ovRef].plans[plan]
  }

  ghost function RunsUnder(log: seq<Executed>, key: Key): seq<Run> {
    if log == [] then [] else
    var n := |log| - 1;
    RunsUnder(log[..n], key) + if KeyOf(log[n]) == key then [log[n].run] else []
  }

  lemma {:induction false} RunsUnderGrow(log: seq<Executed>, spec: Spec, runs: seq<Run>, key: Key)
    ensures
      RunsUnder(log + Logged(spec, runs), key)
      == if key == SpecKey(spec) then RunsUnder(log, key) + runs else RunsUnder(log, key)
    decreases |runs|
  {
    if runs == [] {
      assert log + Logged(spec, runs) == log && RunsUnder(log, key) + [] == RunsUnder(log, key);
    } else {
      var n := |runs| - 1;
      var more := log + Logged(spec, runs);
      assert more[..|more| - 1] == log + Logged(spec, runs[..n]) && runs == runs[..n] + [runs[n]];
      RunsUnderGrow(log, spec, runs[..n], key);
      if key == SpecKey(spec) {
        assert RunsUnder(log, key) + runs == (RunsUnder(log, key) + runs[..n]) + [runs[n]];
      } else {
        assert RunsUnder(log, key) + [] == RunsUnder(log, key);
      }
    }
  }

  lemma {:induction false} NoRunsUnder(log: seq<Executed>, key: Key)
    requires forall n | 0 <= n < |log| :: KeyOf(log[n]) != key
    ensures RunsUnder(log, key) == []
  {
    if log != [] { NoRunsUnder(log[..|log| - 1], key); }
  }

  // ----- trees and the runs that back them -----

  ghost predicate Backs(plan: Plan, tree: PlanStatus, log: seq<Run>) {
    Good({}, plan, tree, log) && (tree.status.Complete? ==> AllComplete(plan, tree))
  }

  /** Once initialised for this operator version, the tree of the plan is backed by the runs of
      the plan under the UID of the tree. */
  ghost predicate TreeBacked(w: World, ovRef: string, plan: string, statuses: map<string, PlanStatus>,
                             log: seq<Executed>)
    requires plan in statuses
  {
    KnownPlan(w, ovRef, plan) ==>
      Backs(PlanOf(w, ovRef, plan), InitPlan(plan, PlanOf(w, ovRef, plan), statuses),
            RunsUnder(log, Key(statuses[plan].uid, ovRef, plan)))
  }

  /** Nothing in the tree is COMPLETE. */
  ghost predicate Blank(tree: PlanStatus) {
    && !tree.status.Complete?
    && (forall a: nat :: !PhaseComplete(tree, a))
    && (forall a: nat, b: nat :: !StepComplete(tree, a, b))
  }

  lemma {:induction false} BacksLonger(plan: Plan, tree: PlanStatus, log: seq<Run>, more: seq<Run>)
    requires Backs(plan, tree, log) && log <= more && Ordered({}, plan, more)
    ensures Backs(plan, tree, more)
  {
    forall i: nat, j: nat | InPlan(plan, i, j) && StepComplete(tree, i, j) ensures EverDone({}, plan, more, i, j) {
      LongerLog({}, plan, log, more, i, j);
    }
  }

  lemma {:induction false} ResetIsBlank(plan: Plan, tree: PlanStatus)
    requires EngineTheorems.IsReset(plan, tree)
    ensures Blank(tree)
  {
    EngineTheorems.ResetIsConsistent(plan, tree);
    forall a: nat, b: nat ensures !StepComplete(tree, a, b) {
      if a < |plan.phases| { assert AlignedPhase(plan.phases[a], tree.phases[a]); }
      if InPlan(plan, a, b) { assert EngineTheorems.StepPending(tree, a, b); }
    }
  }

  /** An initialised tree of which nothing was COMPLETE. */
  lemma {:induction false} InitIsBlank(name: string, plan: Plan, statuses: map<string, PlanStatus>)
    requires UniqueNames(plan) && (name in statuses ==> Blank(statuses[name]))
    ensures Blank(InitPlan(name, plan, statuses)) && Aligned(plan, InitPlan(name, plan, statuses))
  {
    var before := if name in statuses then statuses[name] else PlanStatus(name, NeverRun, [], "", None);
    var tree := InitPlan(name, plan, statuses);
    StatusMatchesPlan(name, plan, statuses);
    forall a: nat ensures !PhaseComplete(tree, a) {
      if a < |tree.phases| {
        var x := PhaseIndex(before.phases, plan.phases[a].name);
        if x < |before.phases| { assert !PhaseComplete(before, x); }
      }
    }
    forall a: nat, b: nat ensures !StepComplete(tree, a, b) {
      if a < |tree.phases| && b < |tree.phases[a].steps| {
        assert AlignedPhase(plan.phases[a], tree.phases[a]);
        StepIsBlank(name, plan, statuses, before, a, b);
      }
    }
  }

  lemma {:induction false} StepIsBlank(name: string, plan: Plan, statuses: map<string, PlanStatus>, before: PlanStatus,
                                       a: nat, b: nat)
    requires UniqueNames(plan) && InPlan(plan, a, b) && Blank(before)
    requires before == if name in statuses then statuses[name] else PlanStatus(name, NeverRun, [], "", None)
    ensures !StepComplete(InitPlan(name, plan, statuses), a, b)
  {
    StatusMatchesPlan(name, plan, statuses);
    var x := PhaseIndex(before.phases, plan.phases[a].name);
    var known := if x < |before.phases| then before.phases[x].steps else [];
    var y := StepIndex(known, plan.phases[a].steps[b].name);
    if y < |known| { assert !StepComplete(before, x, y); }
  }

  lemma {:induction false} BlankIsBacked(plan: Plan, tree: PlanStatus, log: seq<Run>)
    requires Blank(tree) && Aligned(plan, tree) && Ordered({}, plan, log)
    ensures Backs(plan, tree, log)
  {
  }

  /** A pass extends the log of its execution and leaves a tree that the longer log backs. */
  lemma {:induction false} PassIsBacked(c: Pass, tree: PlanStatus, log: seq<Run>)
    requires UniqueNames(c.plan) && Backs(c.plan, tree, log)
    ensures
      var r := ExecutePass(c, tree, []);
      Backs(c.plan, r.tree, log + r.log) && Ordered({}, c.plan, log + r.log)
  {
    EngineTheorems.OnePass({}, c, tree, log);
    EngineLogs.PassLog(c, tree, log);
  }

  lemma {:induction false} BacksStamped(plan: Plan, tree: PlanStatus, log: seq<Run>, now: Mark)
    requires Backs(plan, tree, log)
    ensures Backs(plan, Stamped(tree, now), log)
  {
    var next := Stamped(tree, now);
    assert forall a: nat, b: nat :: StepComplete(next, a, b) == StepComplete(tree, a, b);
    assert forall a: nat :: PhaseComplete(next, a) == PhaseComplete(tree, a);
  }

  // ----- the invariant -----

  /** The runs of every execution in the log are in order. */
  ghost predicate LogOk(w: World, log: seq<Executed>) {
    forall n | 0 <= n < |log| :: EntryOk(w, log, KeyOf(log[n]))
  }

  ghost predicate EntryOk(w: World, log: seq<Executed>, key: Key) {
    KnownPlan(w, key.ovRef, key.plan) && Ordered({}, PlanOf(w, key.ovRef, key.plan), RunsUnder(log, key))
  }

  ghost predicate Known(statuses: map<string, PlanStatus>, used: set<UID>) {
    forall p | p in statuses :: statuses[p].uid in used + {""}
  }

  /** The tree of the scheduled plan, if it belongs to the scheduled execution, is backed. */
  ghost predicate ActiveOk(w: World, spec: Spec, statuses: map<string, PlanStatus>, log: seq<Executed>) {
    var e := spec.execution;
    e.planName !in {"", CLEANUP} && e.planName in statuses && statuses[e.planName].uid == e.uid ==>
      TreeBacked(w, spec.ovRef, e.planName, statuses, log)
  }

  /** The tree of cleanup is backed during deletion, whatever is scheduled, and blank before. */
  ghost predicate CleanupOk(w: World, ovRef: string, deleting: bool, statuses: map<string, PlanStatus>,
                            log: seq<Executed>) {
    CLEANUP in statuses ==> if deleting then TreeBacked(w, ovRef, CLEANUP, statuses, log) else Blank(statuses[CLEANUP])
  }

  /** Cleanup that is scheduled outside deletion, by a trigger, never gets off the ground. */
  ghost predicate CleanupWaits(i: InstanceData) {
    !i.deleting && i.spec.execution.planName == CLEANUP ==>
      && i.spec.execution.status.NeverRun? && i.spec.execution.uid != ""
      && (CLEANUP in i.planStatus ==> i.planStatus[CLEANUP].uid != i.spec.execution.uid)
  }

  ghost predicate TreesOk(w: World, i: InstanceData, log: seq<Executed>, used: set<UID>) {
    && Known(i.planStatus, used) && ActiveOk(w, i.spec, i.planStatus, log)
    && CleanupOk(w, i.spec.ovRef, i.deleting, i.planStatus, log)
  }

  predicate SameExecution(a: Spec, b: Spec) {
    SpecKey(a) == SpecKey(b)
  }

  ghost predicate Current(s: State) {
    !s.ctl.Idle? && s.ctl.version == s.reg.version && s.reg.obj.Some?
  }

  /** A reconciliation of cleanup outside deletion, the write of which will be refused. */
  predicate WillBeRefused(i: InstanceData) {
    !i.deleting && i.spec.execution.planName == CLEANUP
  }

  ghost predicate OrderState(w: World, s: State)
    requires CtlOk(w, s.ctl)
  {
    && LogOk(w, s.log)
    && (s.reg.obj.Some? ==> TreesOk(w, s.reg.obj.value, s.log, s.used) && CleanupWaits(s.reg.obj.value))
    && (Current(s) && !WillBeRefused(s.ctl.base) ==> TreesOk(w, NextOf(w, s.ctl.base, s.ctl.x), s.log, s.used))
    && (Current(s) && s.ctl.SpecWritten? ==>
          && !WillBeRefused(s.ctl.base)
          && (var spec := s.reg.obj.value.spec;
              && spec.ovRef == s.ctl.base.spec.ovRef
              && (spec.execution.planName == "" || SameExecution(spec, NextOf(w, s.ctl.base, s.ctl.x).spec))))
  }

  lemma {:induction false} OrderedUnder(w: World, log: seq<Executed>, key: Key)
    requires LogOk(w, log) && KnownPlan(w, key.ovRef, key.plan)
    ensures Ordered({}, PlanOf(w, key.ovRef, key.plan), RunsUnder(log, key))
  {
    if n :| 0 <= n < |log| && KeyOf(log[n]) == key {
      assert EntryOk(w, log, KeyOf(log[n]));
    } else {
      NoRunsUnder(log, key);
    }
  }

  // ----- one reconciliation -----

  /** The tree that a reconciliation goes on from. */
  lemma {:induction false} PreparedIsBacked(w: World, s: InstanceData, ov: OperatorVersion, now: Mark,
                                            log: seq<Executed>)
    requires UniqueWorld(w) && KeyedByName(s.planStatus) && LogOk(w, log)
    requires s.spec.ovRef in w.ovs && w.ovs[s.spec.ovRef] == ov && s.spec.execution.planName in ov.plans
    requires
      var e := s.spec.execution;
      e.planName in s.planStatus && s.planStatus[e.planName].uid == e.uid ==>
        TreeBacked(w, s.spec.ovRef, e.planName, s.planStatus, log)
    ensures
      var plan := s.spec.execution.planName;
      && Prepared(s, ov, now).Some? && plan in Prepared(s, ov, now).value.planStatus
      && (var tree := Prepared(s, ov, now).value.planStatus[plan];
          tree.name == plan && tree.uid == s.spec.execution.uid
            && Backs(ov.plans[plan], tree, RunsUnder(log, SpecKey(s.spec))))
  {
    var plan, uid := s.spec.execution.planName, s.spec.execution.uid;
    var P, runs := ov.plans[plan], RunsUnder(log, SpecKey(s.spec));
    var tree := InitPlan(plan, P, s.planStatus);
    InitKeepsNames(s.planStatus, ov.plans);
    OrderedUnder(w, log, SpecKey(s.spec));
    if tree.uid == uid {
      if plan !in s.planStatus {
        InitIsBlank(plan, P, s.planStatus);
        BlankIsBacked(P, tree, runs);
      }
    } else {
      StatusMatchesPlan(plan, P, s.planStatus);
      ResetIsAligned(P, tree, uid);
      ResetIsBlank(P, ResetTree(tree, uid));
      BlankIsBacked(P, ResetTree(tree, uid), runs);
      BacksStamped(P, ResetTree(tree, uid), runs, now);
    }
  }

  /** The tree that a reconciliation leaves, `log` being the runs of its execution before. */
  lemma {:induction false} ResumesIsBacked(ov: OperatorVersion, plan: string, tree: PlanStatus, x: Inputs,
                                           log: seq<Run>)
    requires plan in ov.plans && UniqueNames(ov.plans[plan]) && Backs(ov.plans[plan], tree, log)
    ensures Backs(ov.plans[plan], Resumes(ov, plan, tree, x), log + MadeBy(ov, plan, tree, x))
    ensures Ordered({}, ov.plans[plan], log + MadeBy(ov, plan, tree, x))
    ensures Resumes(ov, plan, tree, x).uid == tree.uid && Resumes(ov, plan, tree, x).name == tree.name
  {
    assert log + [] == log;
    if !x.resolves {
      EngineProgress.GoodIgnoresPlanStatus({}, ov.plans[plan], tree, log, FatalError);
      BacksStamped(ov.plans[plan], tree.(status := FatalError), log, x.now);
    } else if x.prepares {
      var c := Pass(ov.plans[plan], ov.tasks, x.ask, x.pass);
      EngineStatus.PassKeepsIdentity(c, tree, []);
      PassIsBacked(c, tree, log);
      BacksStamped(c.plan, ExecutePass(c, tree, []).tree, log + ExecutePass(c, tree, []).log, x.now);
    }
  }

  /** The runs and the tree of the scheduled plan after a reconciliation. */
  lemma {:induction false} ReconcileIsBacked(w: World, i: InstanceData, x: Inputs, log: seq<Executed>)
    requires UniqueWorld(w) && KeyedByName(i.planStatus) && LogOk(w, log)
    requires Reconciled(w, i, x).Writes?
    requires
      var spec := Scheduling(w, i, x).spec;
      var e := spec.execution;
      && KnownPlan(w, spec.ovRef, e.planName) && e.planName != ""
      && (e.planName in i.planStatus && i.planStatus[e.planName].uid == e.uid ==>
        TreeBacked(w, spec.ovRef, e.planName, i.planStatus, log))
    ensures
      var spec, next := Scheduling(w, i, x).spec, NextOf(w, i, x);
      var plan, runs := spec.execution.planName, RunsUnder(log, SpecKey(spec)) + Reconciled(w, i, x).runs;
      && SameExecution(next.spec, spec) && next.deleting == i.deleting && plan in next.planStatus
      && next.planStatus == InitStatus(i.planStatus, w.ovs[i.spec.ovRef].plans)[plan := next.planStatus[plan]]
      && next.planStatus[plan].uid == spec.execution.uid
      && Ordered({}, PlanOf(w, spec.ovRef, plan), runs)
        && Backs(PlanOf(w, spec.ovRef, plan), next.planStatus[plan], runs)
  {
    var ov, s := w.ovs[i.spec.ovRef], Scheduling(w, i, x);
    PreparedIsBacked(w, s, ov, x.now, log);
    ReconcileTrees(w, i, x);
    var plan := s.spec.execution.planName;
    var tree := Prepared(s, ov, x.now).value.planStatus[plan];
    ResumesIsBacked(ov, plan, tree, x, RunsUnder(log, SpecKey(s.spec)));
  }

  // ----- the log and the trees grow together -----

  lemma {:induction false} EntryGrows(w: World, log: seq<Executed>, spec: Spec, runs: seq<Run>, key: Key)
    requires KnownPlan(w, spec.ovRef, spec.execution.planName) && (key != SpecKey(spec) ==> EntryOk(w, log, key))
    requires Ordered({}, PlanOf(w, spec.ovRef, spec.execution.planName), RunsUnder(log, SpecKey(spec)) + runs)
    ensures EntryOk(w, log + Logged(spec, runs), key)
  {
    RunsUnderGrow(log, spec, runs, key);
  }

  lemma {:induction false} LogGrows(w: World, log: seq<Executed>, spec: Spec, runs: seq<Run>)
    requires LogOk(w, log) && KnownPlan(w, spec.ovRef, spec.execution.planName)
    requires Ordered({}, PlanOf(w, spec.ovRef, spec.execution.planName), RunsUnder(log, SpecKey(spec)) + runs)
    ensures LogOk(w, log + Logged(spec, runs))
  {
    var more := log + Logged(spec, runs);
    forall n | 0 <= n < |more| ensures EntryOk(w, more, KeyOf(more[n])) {
      if n < |log| { assert more[n] == log[n] && EntryOk(w, log, KeyOf(log[n])); }
      EntryGrows(w, log, spec, runs, KeyOf(more[n]));
    }
  }

  lemma {:induction false} BackedGrows(w: World, log: seq<Executed>, spec: Spec, runs: seq<Run>,
                                       ovRef: string, plan: string, statuses: map<string, PlanStatus>)
    requires KnownPlan(w, spec.ovRef, spec.execution.planName) && plan in statuses
        && TreeBacked(w, ovRef, plan, statuses, log)
    requires Ordered({}, PlanOf(w, spec.ovRef, spec.execution.planName), RunsUnder(log, SpecKey(spec)) + runs)
    ensures TreeBacked(w, ovRef, plan, statuses, log + Logged(spec, runs))
  {
    var key := Key(statuses[plan].uid, ovRef, plan);
    RunsUnderGrow(log, spec, runs, key);
    if KnownPlan(w, ovRef, plan) && key == SpecKey(spec) {
      BacksLonger(PlanOf(w, ovRef, plan), InitPlan(plan, PlanOf(w, ovRef, plan), statuses),
                  RunsUnder(log, key), RunsUnder(log, key) + runs);
    }
  }

  lemma {:induction false} TreesGrow(w: World, log: seq<Executed>, spec: Spec, runs: seq<Run>, i: InstanceData,
                                     used: set<UID>)
    requires TreesOk(w, i, log, used) && KnownPlan(w, spec.ovRef, spec.execution.planName)
    requires Ordered({}, PlanOf(w, spec.ovRef, spec.execution.planName), RunsUnder(log, SpecKey(spec)) + runs)
    ensures TreesOk(w, i, log + Logged(spec, runs), used)
  {
    var plan := i.spec.execution.planName;
    if plan in i.planStatus && TreeBacked(w, i.spec.ovRef, plan, i.planStatus, log) {
      BackedGrows(w, log, spec, runs, i.spec.ovRef, plan, i.planStatus);
    }
    if CLEANUP in i.planStatus && i.deleting { BackedGrows(w, log, spec, runs, i.spec.ovRef, CLEANUP, i.planStatus); }
  }

  lemma {:induction false} MoreUsed(w: World, i: InstanceData, log: seq<Executed>, used: set<UID>, more: set<UID>)
    requires TreesOk(w, i, log, used) && used <= more
    ensures TreesOk(w, i, log, more)
  {
  }

  /** A tree that lists the phases and steps of its plan is not changed by initialisation. */
  lemma {:induction false} StoredIsBacked(w: World, ovRef: string, plan: string, statuses: map<string, PlanStatus>,
                                          log: seq<Executed>)
    requires plan in statuses && KnownPlan(w, ovRef, plan) && UniqueWorld(w)
    requires Backs(PlanOf(w, ovRef, plan), statuses[plan], RunsUnder(log, Key(statuses[plan].uid, ovRef, plan)))
    ensures TreeBacked(w, ovRef, plan, statuses, log)
  {
    AlignedIsKept(PlanOf(w, ovRef, plan), statuses[plan]);
  }

  /** Initialisation leaves the tree of cleanup backed, or blank. */
  lemma {:induction false} InitKeepsCleanup(w: World, ovRef: string, deleting: bool, statuses: map<string, PlanStatus>,
                                            log: seq<Executed>)
    requires UniqueWorld(w) && LogOk(w, log) && ovRef in w.ovs && CleanupOk(w, ovRef, deleting, statuses, log)
    ensures CleanupOk(w, ovRef, deleting, InitStatus(statuses, w.ovs[ovRef].plans), log)
  {
    var plans := w.ovs[ovRef].plans;
    if CLEANUP in plans {
      if deleting && CLEANUP in statuses {
        InitPlanIdempotent(CLEANUP, plans[CLEANUP], statuses, InitStatus(statuses, plans));
      } else {
        InitIsBlank(CLEANUP, plans[CLEANUP], statuses);
        NewCleanupIsBacked(w, ovRef, InitStatus(statuses, plans), log);
      }
    }
  }

  lemma {:induction false} NewCleanupIsBacked(w: World, ovRef: string, statuses: map<string, PlanStatus>,
                                              log: seq<Executed>)
    requires UniqueWorld(w) && LogOk(w, log) && CLEANUP in statuses && Blank(statuses[CLEANUP])
    ensures TreeBacked(w, ovRef, CLEANUP, statuses, log)
  {
    if KnownPlan(w, ovRef, CLEANUP) {
      var P, key := PlanOf(w, ovRef, CLEANUP), Key(statuses[CLEANUP].uid, ovRef, CLEANUP);
      InitIsBlank(CLEANUP, P, statuses);
      OrderedUnder(w, log, key);
      BlankIsBacked(P, InitPlan(CLEANUP, P, statuses), RunsUnder(log, key));
    }
  }

  lemma {:induction false} SameCleanup(w: World, ovRef: string, deleting: bool,
                                       a: map<string, PlanStatus>, b: map<string, PlanStatus>, log: seq<Executed>)
    requires CleanupOk(w, ovRef, deleting, a, log)
    requires (CLEANUP in a <==> CLEANUP in b) && (CLEANUP in a ==> a[CLEANUP] == b[CLEANUP])
    ensures CleanupOk(w, ovRef, deleting, b, log)
  {
  }

  // ----- reconciliations keep the invariant -----

  /** The tree of the stored execution is backed whenever it is resumed. */
  lemma {:induction false} ResumedIsBacked(w: World, s: State, x: Inputs)
    requires Basic(w, s) && OrderState(w, s) && SoundButCleanupState(w, s) && s.reg.obj.Some? && x.uuid != ""
        && x.uuid !in s.used
    ensures
      var i := s.reg.obj.value;
      var spec := Scheduling(w, i, x).spec;
      var e := spec.execution;
      && (e.planName != "" ==> KnownPlan(w, spec.ovRef, e.planName) && e.uid in s.used + {x.uuid, ""})
      && (e.planName != "" && e.planName in i.planStatus && i.planStatus[e.planName].uid == e.uid ==>
            TreeBacked(w, spec.ovRef, e.planName, i.planStatus, s.log))
      && (e.planName != CLEANUP ==> spec == i.spec) && (!i.deleting ==> spec == i.spec) && spec.ovRef == i.spec.ovRef
  {
  }

  lemma {:induction false} OrderReconcile(w: World, s: State, x: Inputs)
    requires UniqueWorld(w) && Basic(w, s) && OrderState(w, s) && SoundButCleanupState(w, s) && x.uuid != ""
        && x.uuid !in s.used
    requires s.ctl.Idle? && s.reg.obj.Some? && Reconciled(w, s.reg.obj.value, x).Writes?
    ensures OrderState(w, DoReconcile(w, s, x))
  {
    if Scheduling(w, s.reg.obj.value, x).spec.execution.planName == "" {
      IdleOrder(w, s, x);
    } else {
      ScheduledOrder(w, s, x);
      assert NextOf(w, s.reg.obj.value, x).spec == Reconciled(w, s.reg.obj.value, x).next.spec;
    }
  }

  lemma {:induction false} ScheduledOrder(w: World, s: State, x: Inputs)
    requires UniqueWorld(w) && Basic(w, s) && OrderState(w, s) && SoundButCleanupState(w, s) && x.uuid != ""
        && x.uuid !in s.used
    requires s.reg.obj.Some? && Reconciled(w, s.reg.obj.value, x).Writes?
    requires Scheduling(w, s.reg.obj.value, x).spec.execution.planName != ""
    ensures
      var i, used := s.reg.obj.value, s.used + {x.uuid};
      var more := s.log + Logged(NextOf(w, i, x).spec, Reconciled(w, i, x).runs);
      LogOk(w, more) && TreesOk(w, i, more, used) && (!WillBeRefused(i) ==> TreesOk(w, NextOf(w, i, x), more, used))
  {
    var i, used := s.reg.obj.value, s.used + {x.uuid};
    ResumedIsBacked(w, s, x);
    ReconcileIsBacked(w, i, x, s.log);
    MoreUsed(w, i, s.log, s.used, used);
    if !WillBeRefused(i) { PlanOrder(w, s.log, used, i, NextOf(w, i, x), Reconciled(w, i, x).runs); }
    TreesGrow(w, s.log, NextOf(w, i, x).spec, Reconciled(w, i, x).runs, i, used);
    LogGrows(w, s.log, NextOf(w, i, x).spec, Reconciled(w, i, x).runs);
  }

  lemma {:induction false} IdleOrder(w: World, s: State, x: Inputs)
    requires Basic(w, s) && OrderState(w, s) && s.ctl.Idle? && s.reg.obj.Some?
        && Reconciled(w, s.reg.obj.value, x).Writes?
    requires Scheduling(w, s.reg.obj.value, x).spec.execution.planName == ""
    ensures OrderState(w, DoReconcile(w, s, x))
  {
    var i := s.reg.obj.value;
    IdleChangesNoStatus(w, i, x);
    assert s.log + Logged(Reconciled(w, i, x).next.spec, []) == s.log;
  }

  /** The trees that are handed over once `plan` has been executed, with `runs`. */
  lemma {:induction false} PlanOrder(w: World, log: seq<Executed>, used: set<UID>, i: InstanceData, next: InstanceData,
                                     runs: seq<Run>)
    requires UniqueWorld(w) && LogOk(w, log) && next.spec.ovRef == i.spec.ovRef && i.spec.ovRef in w.ovs
        && next.deleting == i.deleting
    requires Known(i.planStatus, used) && CleanupOk(w, i.spec.ovRef, i.deleting, i.planStatus, log)
    requires KnownPlan(w, next.spec.ovRef, next.spec.execution.planName) && next.spec.execution.uid in used + {""}
    requires
      var plan, key := next.spec.execution.planName, SpecKey(next.spec);
      && plan in next.planStatus && next.planStatus[plan].uid == key.uid
      && next.planStatus == InitStatus(i.planStatus, w.ovs[i.spec.ovRef].plans)[plan := next.planStatus[plan]]
      && Ordered({}, PlanOf(w, key.ovRef, plan), RunsUnder(log, key) + runs)
      && Backs(PlanOf(w, key.ovRef, plan), next.planStatus[plan], RunsUnder(log, key) + runs)
      && (plan == CLEANUP ==> i.deleting)
    ensures TreesOk(w, next, log + Logged(next.spec, runs), used)
  {
    var plan, more := next.spec.execution.planName, log + Logged(next.spec, runs);
    RunsUnderGrow(log, next.spec, runs, SpecKey(next.spec));
    StoredIsBacked(w, next.spec.ovRef, plan, next.planStatus, more);
    if plan != CLEANUP { CleanupCarried(w, log, i, next, runs); }
  }

  /** The tree of cleanup is only initialised when another plan is executed. */
  lemma {:induction false} CleanupCarried(w: World, log: seq<Executed>, i: InstanceData, next: InstanceData,
                                          runs: seq<Run>)
    requires UniqueWorld(w) && LogOk(w, log) && KnownPlan(w, next.spec.ovRef, next.spec.execution.planName)
    requires next.spec.ovRef == i.spec.ovRef && i.spec.ovRef in w.ovs
        && CleanupOk(w, i.spec.ovRef, i.deleting, i.planStatus, log)
    requires
      var plan, all := next.spec.execution.planName, InitStatus(i.planStatus, w.ovs[i.spec.ovRef].plans);
      plan in next.planStatus && plan != CLEANUP && next.planStatus == all[plan := next.planStatus[plan]]
    requires Ordered({}, PlanOf(w, next.spec.ovRef, next.spec.execution.planName),
        RunsUnder(log, SpecKey(next.spec)) + runs)
    ensures CleanupOk(w, i.spec.ovRef, i.deleting, next.planStatus, log + Logged(next.spec, runs))
  {
    var ovRef, all := i.spec.ovRef, InitStatus(i.planStatus, w.ovs[i.spec.ovRef].plans);
    InitKeepsCleanup(w, ovRef, i.deleting, i.planStatus, log);
    if CLEANUP in all && i.deleting { BackedGrows(w, log, next.spec, runs, ovRef, CLEANUP, all); }
    SameCleanup(w, ovRef, i.deleting, all, next.planStatus, log + Logged(next.spec, runs));
  }

  // ----- writes keep the invariant -----

  /** Started anew, cleanup does not stay NEVER_RUN. */
  lemma {:induction false} CleanupMoves(w: World, i: InstanceData, x: Inputs, log: seq<Executed>)
    requires UniqueWorld(w) && KeyedByName(i.planStatus) && LogOk(w, log) && Reconciled(w, i, x).Writes?
    requires WillBeRefused(i) && CleanupWaits(i) && KnownPlan(w, i.spec.ovRef, CLEANUP)
    ensures !NextOf(w, i, x).spec.execution.status.NeverRun?
  {
    var ov, s := w.ovs[i.spec.ovRef], Scheduling(w, i, x);
    ReconcileTrees(w, i, x);
    PreparedIsBacked(w, s, ov, x.now, log);
    var tree := Prepared(s, ov, x.now).value.planStatus[CLEANUP];
    PreparedTrees(s, ov, x.now);
    assert tree.status.Pending?;
    if x.resolves && x.prepares {
      EngineTheorems.OnePass({}, Pass(ov.plans[CLEANUP], ov.tasks, x.ask, x.pass), tree,
        RunsUnder(log, SpecKey(s.spec)));
      EngineLogs.PassLog(Pass(ov.plans[CLEANUP], ov.tasks, x.ask, x.pass), tree, RunsUnder(log, SpecKey(s.spec)));
    }
  }

  /** The write of a triggered cleanup is refused. */
  lemma {:induction false} CleanupIsRefused(w: World, s: State, uuid: UID)
    requires UniqueWorld(w) && Basic(w, s) && OrderState(w, s) && SoundButCleanupState(w, s)
    requires s.ctl.Computed? && WillBeRefused(s.ctl.base)
    ensures AfterSpecWrite(w, s.reg, s.ctl.base, s.ctl.version, NextOf(w, s.ctl.base, s.ctl.x), uuid).Some? ==>
        !InFlight(s)
  {
    if InFlight(s) {
      var base, next := s.ctl.base, NextOf(w, s.ctl.base, s.ctl.x);
      CleanupMoves(w, base, s.ctl.x, s.log);
      NextFacts(w, base, s.ctl.x);
      assert next.(deleting := base.deleting) == next;
      ProgressVerdict(w, base, next, uuid);
    }
  }

  /** What an admitted first write stores. */
  lemma {:induction false} FirstWriteStores(w: World, base: InstanceData, x: Inputs, version: nat, uuid: UID)
    requires KeyedByName(base.planStatus) && Reconciled(w, base, x).Writes? && !WillBeRefused(base)
    requires PutInstance(w, Register(Some(base), version), NextOf(w, base, x), version, uuid).Some?
    ensures
      var obj, next := PutInstance(w, Register(Some(base), version), NextOf(w, base, x), version, uuid).value.obj,
        NextOf(w, base, x);
      obj.Some? ==>
        && obj.value.planStatus == base.planStatus && obj.value.deleting == base.deleting
          && obj.value.spec.ovRef == base.spec.ovRef
        && (obj.value.spec.execution.planName == "" || SameExecution(obj.value.spec, next.spec))
        && (next.spec.execution.planName != CLEANUP ==> SameExecution(next.spec, base.spec))
        && (!base.deleting ==> next.spec.execution.planName != CLEANUP)
  {
    var next := NextOf(w, base, x);
    NextFacts(w, base, x);
    assert next.(deleting := base.deleting) == next;
    if base.deleting {
      StoredAsSent(w, base, next, uuid);
    } else if !MetadataOnly(base, next) {
      ProgressVerdict(w, base, next, uuid);
    }
  }

  /** The trees suit every specification that has the same execution or none. */
  lemma {:induction false} OtherSpec(w: World, i: InstanceData, j: InstanceData, log: seq<Executed>, used: set<UID>)
    requires TreesOk(w, i, log, used) && j.planStatus == i.planStatus && j.deleting == i.deleting
        && j.spec.ovRef == i.spec.ovRef
    requires j.spec.execution.planName in {"", CLEANUP} || SameExecution(j.spec, i.spec)
    ensures TreesOk(w, j, log, used)
  {
  }

  lemma {:induction false} OrderUsed(w: World, s: State, used: set<UID>)
    requires CtlOk(w, s.ctl) && OrderState(w, s) && s.used <= used
    ensures OrderState(w, s.(used := used))
  {
  }

  lemma {:induction false} OrderWriteSpec(w: World, s: State, uuid: UID)
    requires UniqueWorld(w) && Basic(w, s) && OrderState(w, s) && SoundButCleanupState(w, s)
    ensures OrderState(w, DoWriteSpec(w, s, uuid))
  {
    if s.ctl.Computed? {
      if WillBeRefused(s.ctl.base) { CleanupIsRefused(w, s, uuid); }
      if NeedsSpecWrite(s.ctl.base, NextOf(w, s.ctl.base, s.ctl.x)) {
        OrderFirstWrite(w, s, uuid);
      } else {
        OrderNoWrite(w, s, uuid);
      }
    }
  }

  lemma {:induction false} OrderNoWrite(w: World, s: State, uuid: UID)
    requires Basic(w, s) && OrderState(w, s) && s.ctl.Computed?
        && !NeedsSpecWrite(s.ctl.base, NextOf(w, s.ctl.base, s.ctl.x))
    requires InFlight(s) ==> !WillBeRefused(s.ctl.base)
    ensures OrderState(w, DoWriteSpec(w, s, uuid))
  {
    OrderUsed(w, s, s.used + {uuid});
  }

  lemma {:induction false} OrderFirstWrite(w: World, s: State, uuid: UID)
    requires Basic(w, s) && OrderState(w, s) && s.ctl.Computed?
        && NeedsSpecWrite(s.ctl.base, NextOf(w, s.ctl.base, s.ctl.x))
    requires
      WillBeRefused(s.ctl.base) ==>
        AfterSpecWrite(w, s.reg, s.ctl.base, s.ctl.version, NextOf(w, s.ctl.base, s.ctl.x), uuid).Some? ==> !InFlight(s)
    ensures OrderState(w, DoWriteSpec(w, s, uuid))
  {
    var base, next := s.ctl.base, NextOf(w, s.ctl.base, s.ctl.x);
    var r := PutInstance(w, s.reg, next, s.ctl.version, uuid);
    if r.Some? {
      FirstWriteStores(w, base, s.ctl.x, s.ctl.version, uuid);
      var used := s.used + {uuid, next.spec.execution.uid};
      MoreUsed(w, next, s.log, s.used, used);
      MoreUsed(w, base, s.log, s.used, used);
      if r.value.obj.Some? { OtherSpec(w, base, r.value.obj.value, s.log, used); }
    } else {
      OrderUsed(w, s, s.used + {uuid});
    }
  }

  lemma {:induction false} OrderWriteStatus(w: World, s: State)
    requires Basic(w, s) && OrderState(w, s)
    ensures OrderState(w, DoWriteStatus(w, s))
  {
    if s.ctl.SpecWritten? && Current(s) {
      var next, stored := NextOf(w, s.ctl.base, s.ctl.x), s.reg.obj.value;
      NextFacts(w, s.ctl.base, s.ctl.x);
      OtherSpec(w, next, stored.(planStatus := next.planStatus, readiness := next.readiness), s.log, s.used);
    }
  }

  /** What an admitted update stores. */
  lemma {:induction false} UpdateStores(w: World, before: InstanceData, after: InstanceData, uuid: UID)
    requires Updated(w, before, after, uuid).Stored? && before.deleting == after.deleting
    ensures
      var spec, e := Updated(w, before, after, uuid).instance.spec,
        Updated(w, before, after, uuid).instance.spec.execution;
      if before.deleting then spec.ovRef == before.spec.ovRef && (e.planName in {"", CLEANUP} || spec == before.spec)
      else
        || spec == before.spec || e.planName == "" || (e.uid == uuid && e.status.NeverRun?)
        || (SameExecution(spec, before.spec) && e.planName != CLEANUP)
  {
    if !before.deleting && !MetadataOnly(before, after) { StoredUid(w, before, after, uuid); }
  }

  /** Before deletion the trees do not depend on the operator version but for the scheduled plan. */
  lemma {:induction false} OrderStored(w: World, i: InstanceData, j: InstanceData, log: seq<Executed>, used: set<UID>,
                                       uuid: UID)
    requires TreesOk(w, i, log, used) && CleanupWaits(i) && uuid != "" && uuid !in used
    requires j.planStatus == i.planStatus && j.deleting == i.deleting
    requires
      var e := j.spec.execution;
      if i.deleting then j.spec.ovRef == i.spec.ovRef && (e.planName in {"", CLEANUP} || j.spec == i.spec)
      else
        || j.spec == i.spec || e.planName == "" || (e.uid == uuid && e.status.NeverRun?)
        || (SameExecution(j.spec, i.spec) && e.planName != CLEANUP)
    ensures TreesOk(w, j, log, used) && CleanupWaits(j)
  {
  }

  lemma {:induction false} OrderUpdate(w: World, s: State, after: InstanceData, uuid: UID)
    requires Basic(w, s) && OrderState(w, s) && Enabled(s, Update(after, uuid))
    ensures OrderState(w, DoUpdate(w, s, after, uuid))
  {
    var used := s.used + {uuid, after.spec.execution.uid};
    var r := PutInstance(w, s.reg, after, s.reg.version, uuid);
    if r.Some? {
      var before := s.reg.obj.value;
      UpdateStores(w, before, after.(deleting := before.deleting), uuid);
      if r.value.obj.Some? {
        OrderStored(w, before, r.value.obj.value, s.log, s.used, uuid);
        MoreUsed(w, r.value.obj.value, s.log, s.used, used);
      }
    } else {
      OrderUsed(w, s, used);
    }
  }

  lemma {:induction false} OrderDelete(w: World, s: State)
    requires UniqueWorld(w) && Basic(w, s) && OrderState(w, s)
    ensures OrderState(w, DoDelete(s))
  {
    if s.reg.obj.Some? {
      var i := s.reg.obj.value;
      if CLEANUP in i.planStatus && !i.deleting { NewCleanupIsBacked(w, i.spec.ovRef, i.planStatus, s.log); }
    }
  }

  lemma {:induction false} OrderKept(w: World, s: State, a: Action)
    requires UniqueWorld(w) && Basic(w, s) && OrderState(w, s) && SoundButCleanupState(w, s) && Enabled(s, a)
    ensures OrderState(w, Next(w, s, a))
  {
    match a {
      case Create(i, cleanup, uuid) =>
      case Update(after, uuid) => OrderUpdate(w, s, after, uuid);
      case Delete => OrderDelete(w, s);
      case Reconciles(x) =>
        if s.ctl.Idle? && s.reg.obj.Some? {
          if Reconciled(w, s.reg.obj.value, x).Writes? {
            OrderReconcile(w, s, x);
          } else {
            OrderUsed(w, s, s.used + {x.uuid});
          }
        }
      case WriteSpec(uuid) => OrderWriteSpec(w, s, uuid);
      case WriteStatus => OrderWriteStatus(w, s);
      case WriteBoth(uuid) =>
        OrderWriteSpec(w, s, uuid);
        BasicWriteSpec(w, s, uuid);
        OrderWriteStatus(w, DoWriteSpec(w, s, uuid));
      case Crash =>
    }
  }

  /** In every state of a legal run, whatever users send: the runs of every execution are in order,
      and they back the trees that can still be resumed. */
  lemma {:induction false} AlwaysInOrder(w: World, acts: seq<Action>)
    requires UniqueWorld(w) && Legal(w, acts)
    ensures OrderState(w, After(w, acts))
    decreases |acts|
  {
    if acts != [] {
      var n := |acts| - 1;
      forall m | 0 <= m < n ensures Enabled(After(w, acts[..n][..m]), acts[..n][m]) {
        assert acts[..n][..m] == acts[..m];
      }
      AlwaysInOrder(w, acts[..n]);
      AlwaysBasic(w, acts[..n]);
      AlwaysSoundButCleanup(w, acts[..n]);
      OrderKept(w, After(w, acts[..n]), acts[n]);
    }
  }

  // ----- the promise -----

  lemma {:induction false} RunsUnderPrefix(log: seq<Executed>, n: nat)
    requires n < |log|
    ensures
      var runs, k := RunsUnder(log, KeyOf(log[n])), |RunsUnder(log[..n], KeyOf(log[n]))|;
      k < |runs| && runs[k] == log[n].run && runs[..k] == RunsUnder(log[..n], KeyOf(log[n]))
    decreases |log|
  {
    var last := |log| - 1;
    if n < last {
      RunsUnderPrefix(log[..last], n);
      assert log[..last][..n] == log[..n];
    }
  }

  lemma {:induction false} RunIsLogged(log: seq<Executed>, key: Key, k: nat) returns (m: nat)
    requires k < |RunsUnder(log, key)|
    ensures m < |log| && KeyOf(log[m]) == key && log[m].run == RunsUnder(log, key)[k]
    decreases |log|
  {
    var last := |log| - 1;
    if k < |RunsUnder(log[..last], key)| { m := RunIsLogged(log[..last], key, k); } else { m := last; }
  }

  /** The run `e` has to wait for task `name` of step (i, j). */
  ghost predicate WaitsFor(w: World, e: Executed, i: nat, j: nat, name: string) {
    && KnownPlan(w, e.ovRef, e.plan) && InPlan(PlanOf(w, e.ovRef, e.plan), i, j)
    && e.run.phase < |PlanOf(w, e.ovRef, e.plan).phases|
    && MustPrecede(PlanOf(w, e.ovRef, e.plan), i, j, e.run.phase, e.run.step)
    && name in PlanOf(w, e.ovRef, e.plan).phases[i].steps[j].tasks
  }

  /** In the run `d` task `name` of step (i, j) reported done. */
  ghost predicate Did(w: World, d: Executed, i: nat, j: nat, name: string) {
    && KnownPlan(w, d.ovRef, d.plan) && InPlan(PlanOf(w, d.ovRef, d.plan), i, j)
    && exists pass :: IsDone(PlanOf(w, d.ovRef, d.plan), d.run, pass, i, j, name)
  }

  /** In every legal run a task runs only after every task of every step it has to wait for has
      reported done under the same UID, in the same plan of the same operator version, although
      crashes and lost status writes take the stored tree back, every reconciliation initialises
      it again, and users may hand cleanup any UID. */
  lemma {:induction false} TasksRunInOrderUnderUid(w: World, acts: seq<Action>, n: nat, i: nat, j: nat, name: string)
    returns (m: nat)
    requires UniqueWorld(w) && Legal(w, acts)
    requires n < |After(w, acts).log| && WaitsFor(w, After(w, acts).log[n], i, j, name)
    ensures m < n
    ensures KeyOf(After(w, acts).log[m]) == KeyOf(After(w, acts).log[n]) && Did(w, After(w, acts).log[m], i, j, name)
  {
    AlwaysInOrder(w, acts);
    var log := After(w, acts).log;
    var e := log[n];
    assert EntryOk(w, log, KeyOf(e));
    var plan, runs, before := PlanOf(w, e.ovRef, e.plan), RunsUnder(log, KeyOf(e)), RunsUnder(log[..n], KeyOf(e));
    RunsUnderPrefix(log, n);
    assert runs[|before|] == e.run && Ready({}, plan, runs[..|before|], e.run.phase, e.run.step);
    assert EverDone({}, plan, before, i, j);
    var pass: nat :| StepDone(plan, before, pass, i, j);
    assert TaskDone(plan, before, pass, i, j, name);
    var k :| 0 <= k < |before| && IsDone(plan, before[k], pass, i, j, name);
    m := RunIsLogged(log[..n], KeyOf(e), k);
    assert log[m] == log[..n][m];
  }
}
