/** The instance controller: what one reconciliation makes of the instance it has read. */
module Controller {
  import opened Plans
  import opened Parameters
  import opened Instances
  import opened Admission
  import opened Engine
  import EngineRuns
  import EngineTheorems
  import EngineStatus

  // ----- the plan statuses follow the plans of the operator version -----

  function StepFor(name: string, known: seq<StepStatus>): StepStatus {
    var b := StepIndex(known, name);
    if b < |known| then known[b] else StepStatus(name, NeverRun)
  }

  function InitSteps(steps: seq<Step>, known: seq<StepStatus>): seq<StepStatus> {
    seq(|steps|, n requires 0 <= n < |steps| => StepFor(steps[n].name, known))
  }

  /** The status of one phase, rebuilt from the known phase statuses. */
  function PhaseFor(phase: Phase, known: seq<PhaseStatus>): PhaseStatus {
    var a := PhaseIndex(known, phase.name);
    var found := if a < |known| then known[a] else PhaseStatus(phase.name, NeverRun, []);
    found.(steps := InitSteps(phase.steps, found.steps))
  }

  /** A rebuilt status also replaces the known one, as it is reached through a pointer. */
  function InitPhases(phases: seq<Phase>, known: seq<PhaseStatus>): (r: seq<PhaseStatus>)
    ensures |r| == |phases|
  {
    if phases == [] then [] else
    var a, p := PhaseIndex(known, phases[0].name), PhaseFor(phases[0], known);
    [p] + InitPhases(phases[1..], if a < |known| then known[a := p] else known)
  }

  function InitPlan(name: string, plan: Plan, planStatus: map<string, PlanStatus>): PlanStatus {
    var found := if name in planStatus then planStatus[name] else PlanStatus(name, NeverRun, [], "", None);
    found.(phases := InitPhases(plan.phases, found.phases))
  }

  function InitStatus(planStatus: map<string, PlanStatus>, plans: map<string, Plan>): map<string, PlanStatus> {
    map k | k in planStatus.Keys + plans.Keys :: if k in plans then InitPlan(k, plans[k], planStatus) else planStatus[k]
  }

  lemma {:induction false} ReplacedIndex(known: seq<PhaseStatus>, a: nat, p: PhaseStatus, name: string)
    requires a < |known| && p.name == known[a].name
    ensures PhaseIndex(known[a := p], name) == PhaseIndex(known, name)
  {
    var known' := known[a := p];
    assert forall k | 0 <= k < |known| :: known'[k].name == known[k].name;
    var i, j := PhaseIndex(known, name), PhaseIndex(known', name);
    assert i <= j && j <= i;
  }

  lemma {:induction false} InitPhasesAt(phases: seq<Phase>, known: seq<PhaseStatus>, n: nat)
    requires forall a, b | 0 <= a < b < |phases| :: phases[a].name != phases[b].name
    requires n < |phases|
    ensures InitPhases(phases, known)[n] == PhaseFor(phases[n], known)
  {
    if n > 0 {
      var a, p := PhaseIndex(known, phases[0].name), PhaseFor(phases[0], known);
      var known' := if a < |known| then known[a := p] else known;
      InitPhasesAt(phases[1..], known', n - 1);
      if a < |known| { ReplacedIndex(known, a, p, phases[n].name); }
    }
  }

  /** After initialisation the status of a plan with unique names lists exactly its phases and
      steps in order; what was recorded before is kept and what is new is NEVER_RUN. */
  lemma {:induction false} StatusMatchesPlan(name: string, plan: Plan, planStatus: map<string, PlanStatus>)
    requires UniqueNames(plan)
    ensures
      var r := InitPlan(name, plan, planStatus);
      var before := if name in planStatus then planStatus[name] else PlanStatus(name, NeverRun, [], "", None);
      && Aligned(plan, r) && r.status == before.status && r.uid == before.uid
      && (forall i | 0 <= i < |plan.phases| ::
            var a := PhaseIndex(before.phases, plan.phases[i].name);
            r.phases[i].status == if a < |before.phases| then before.phases[a].status else NeverRun)
      && (forall i, j | 0 <= i < |plan.phases| && 0 <= j < |plan.phases[i].steps| ::
            var a := PhaseIndex(before.phases, plan.phases[i].name);
            var known := if a < |before.phases| then before.phases[a].steps else [];
            var b := StepIndex(known, plan.phases[i].steps[j].name);
            r.phases[i].steps[j].status == if b < |known| then known[b].status else NeverRun)
  {
    var before := if name in planStatus then planStatus[name] else PlanStatus(name, NeverRun, [], "", None);
    forall i | 0 <= i < |plan.phases|
      ensures InitPhases(plan.phases, before.phases)[i] == PhaseFor(plan.phases[i], before.phases)
    {
      InitPhasesAt(plan.phases, before.phases, i);
    }
  }

  lemma {:induction false} AlignedIsKept(plan: Plan, tree: PlanStatus)
    requires UniqueNames(plan) && Aligned(plan, tree)
    ensures InitPhases(plan.phases, tree.phases) == tree.phases
  {
    forall i | 0 <= i < |plan.phases| ensures InitPhases(plan.phases, tree.phases)[i] == tree.phases[i] {
      InitPhasesAt(plan.phases, tree.phases, i);
      EngineRuns.AlignedIndex(plan, tree, i);
      assert AlignedPhase(plan.phases[i], tree.phases[i]);
      assert InitSteps(plan.phases[i].steps, tree.phases[i].steps) == tree.phases[i].steps;
    }
  }

  /** A second initialisation changes nothing, and plans outside the operator version are untouched. */
  lemma {:induction false} InitStatusIdempotent(planStatus: map<string, PlanStatus>, plans: map<string, Plan>)
    requires forall k | k in plans :: UniqueNames(plans[k])
    ensures InitStatus(InitStatus(planStatus, plans), plans) == InitStatus(planStatus, plans)
    ensures forall k | k in planStatus && k !in plans :: InitStatus(planStatus, plans)[k] == planStatus[k]
  {
    var once := InitStatus(planStatus, plans);
    assert once.Keys == planStatus.Keys + plans.Keys;
    forall k | k in once ensures InitStatus(once, plans)[k] == once[k] {
      if k in plans { InitPlanIdempotent(k, plans[k], planStatus, once); }
    }
  }

  lemma {:induction false} InitPlanIdempotent(name: string, plan: Plan, planStatus: map<string, PlanStatus>,
                                              once: map<string, PlanStatus>)
    requires UniqueNames(plan) && name in once && once[name] == InitPlan(name, plan, planStatus)
    ensures InitPlan(name, plan, once) == once[name]
  {
    StatusMatchesPlan(name, plan, planStatus);
    AlignedIsKept(plan, once[name]);
  }

  /** Hence the executor cannot meet a missing phase or step status in an initialised tree,
      whatever was recorded before, nor in one that was reset. */
  lemma {:induction false} NothingIsMissing(name: string, plan: Plan, planStatus: map<string, PlanStatus>, uid: UID,
                                            c: Pass, log: seq<Run>)
    requires UniqueNames(plan) && c.plan == plan
    ensures
      var tree := InitPlan(name, plan, planStatus);
      && !EngineStatus.Missing(ExecutePass(c, tree, log).err) && Aligned(plan, ExecutePass(c, tree, log).tree)
      && !EngineStatus.Missing(ExecutePass(c, ResetTree(tree, uid), log).err)
      && EngineTheorems.IsReset(plan, ResetTree(tree, uid))
  {
    var tree := InitPlan(name, plan, planStatus);
    StatusMatchesPlan(name, plan, planStatus);
    ResetIsAligned(plan, tree, uid);
    EngineStatus.PassFindsAll(c, tree, log);
    EngineStatus.PassFindsAll(c, ResetTree(tree, uid), log);
  }

  lemma {:induction false} ResetIsAligned(plan: Plan, tree: PlanStatus, uid: UID)
    requires Aligned(plan, tree)
    ensures EngineTheorems.IsReset(plan, ResetTree(tree, uid))
  {
    forall i | 0 <= i < |plan.phases| ensures AlignedPhase(plan.phases[i], ResetTree(tree, uid).phases[i]) {
      assert AlignedPhase(plan.phases[i], tree.phases[i]);
    }
  }

  method InitStepStatuses(steps: seq<Step>, known: seq<StepStatus>) returns (r: seq<StepStatus>)
    ensures r == InitSteps(steps, known)
  {
    r := [];
    for j := 0 to |steps|
      invariant |r| == j && forall n | 0 <= n < j :: r[n] == StepFor(steps[n].name, known)
    {
      var b := StepIndex(known, steps[j].name);
      r := r + [if b < |known| then known[b] else StepStatus(steps[j].name, NeverRun)];
    }
  }

  /** What a rebuilt phase status replaces among the known ones. */
  function Replaced(known: seq<PhaseStatus>, p: PhaseStatus): seq<PhaseStatus> {
    var a := PhaseIndex(known, p.name);
    if a < |known| then known[a := p] else known
  }

  lemma {:induction false} InitPhasesTurn(phases: seq<Phase>, i: nat, known: seq<PhaseStatus>,
                                          rebuilt: seq<PhaseStatus>)
    requires i < |phases|
    ensures
      var p := PhaseFor(phases[i], known);
      rebuilt + InitPhases(phases[i..], known) == (rebuilt + [p]) + InitPhases(phases[i + 1..], Replaced(known, p))
  {
    assert phases[i..][1..] == phases[i + 1..];
  }

  /** The two inner loops of `ensurePlanStatusInitialized`. */
  method InitPlanStatus(plan: Plan, start: PlanStatus) returns (r: PlanStatus)
    ensures r == start.(phases := InitPhases(plan.phases, start.phases))
  {
    var known, rebuilt := start.phases, [];
    assert plan.phases[0..] == plan.phases;
    for i := 0 to |plan.phases|
      invariant rebuilt + InitPhases(plan.phases[i..], known) == InitPhases(plan.phases, start.phases)
    {
      var phase := plan.phases[i];
      InitPhasesTurn(plan.phases, i, known, rebuilt);
      var a := PhaseIndex(known, phase.name);
      var found := if a < |known| then known[a] else PhaseStatus(phase.name, NeverRun, []);
      var steps := InitStepStatuses(phase.steps, found.steps);
      found := found.(steps := steps);
      if a < |known| { known := known[a := found]; }
      rebuilt := rebuilt + [found];
    }
    r := start.(phases := rebuilt);
  }

  method EnsurePlanStatusInitialized(i: Instance, plans: map<string, Plan>)
    modifies i`planStatus
    ensures i.planStatus == InitStatus(old(i.planStatus), plans)
  {
    ghost var before := i.planStatus;
    var todo := plans.Keys;
    while todo != {}
      invariant todo <= plans.Keys
      invariant i.planStatus == InitStatus(before, map k | k in plans && k !in todo :: plans[k])
      decreases todo
    {
      var name :| name in todo;
      var start := if name in i.planStatus then i.planStatus[name] else PlanStatus(name, NeverRun, [], "", None);
      var built := InitPlanStatus(plans[name], start);
      i.planStatus := i.planStatus[name := built];
      todo := todo - {name};
    }
    assert (map k | k in plans && k !in todo :: plans[k]) == plans;
  }

  // ----- scheduling -----

  predicate MustScheduleCleanup(i: InstanceData, ov: OperatorVersion) {
    i.deleting && CLEANUP in ov.plans && CleanupNeverRun(i) && i.spec.execution.planName != CLEANUP
  }

  /** On deletion the controller itself schedules the cleanup plan. */
  function WithCleanup(i: InstanceData, ov: OperatorVersion, uuid: UID): InstanceData {
    if MustScheduleCleanup(i, ov) then i.(spec := i.spec.(execution := PlanExecution(CLEANUP, uuid, NeverRun))) else i
  }

  method ScheduledPlan(i: Instance, ov: OperatorVersion, uuid: UID) returns (plan: string, uid: UID)
    requires i.Valid()
    modifies i`spec
    ensures i.Data() == WithCleanup(old(i.Data()), ov, uuid)
    ensures plan == i.spec.execution.planName && uid == i.spec.execution.uid
  {
    var cleanup := i.PlanStatus(CLEANUP);
    var neverRun := cleanup.None? || cleanup.value.status.NeverRun?;
    if i.deleting && CLEANUP in ov.plans && neverRun && i.spec.execution.planName != CLEANUP {
      i.spec := i.spec.(execution := PlanExecution(CLEANUP, uuid, NeverRun));
    }
    return i.spec.execution.planName, i.spec.execution.uid;
  }

  /** A plan whose UID is new is reset; one whose UID is known goes on where it was. */
  function ResetIfNew(i: InstanceData, plan: string, uid: UID, now: Mark): InstanceData
    requires plan in i.planStatus
  {
    if i.planStatus[plan].uid == uid then i else WithStatus(i, ResetTree(i.planStatus[plan], uid), now)
  }

  method ResetPlanStatusIfPlanIsNew(i: Instance, plan: string, uid: UID, now: Mark) returns (r: Option<PlanStatus>)
    requires i.Valid()
    modifies i
    ensures i.Valid()
    ensures r.None? <==> plan !in old(i.planStatus)
    ensures r.None? ==> i.Data() == old(i.Data())
    ensures r.Some? ==> i.Data() == ResetIfNew(old(i.Data()), plan, uid, now) && r == StatusOf(i.planStatus, plan)
  {
    r := i.PlanStatus(plan);
    if r.None? || r.value.uid == uid { return; }
    var reset := i.ResetPlanStatus(r.value, uid, now);
    r := Some(reset);
  }

  // ----- one reconciliation -----

  /** What a reconciliation gets from outside: a UUID, the mark of its last update of a status, the
      readiness it computes, whether the dependencies resolve, whether parameters and pipes can
      be prepared, and the task answers. */
  datatype Inputs = Inputs(uuid: UID, now: Mark, readiness: string, resolves: bool, prepares: bool,
                           ask: Oracle, pass: nat)

  /** `Skips`: nothing is written. `Writes`: the instance handed to `updateInstance`, and the
      task runs made on the way. */
  datatype Reconciliation = Skips | Writes(next: InstanceData, runs: seq<Run>)

  /** The instance with its plan statuses initialised and, for a new execution, reset. */
  function Prepared(s: InstanceData, ov: OperatorVersion, now: Mark): Option<InstanceData> {
    var t := s.(planStatus := InitStatus(s.planStatus, ov.plans));
    var e := s.spec.execution;
    if e.planName !in t.planStatus then None else Some(ResetIfNew(t, e.planName, e.uid, now))
  }

  /** The scheduled plan fails on its dependencies, cannot be prepared, or is executed. */
  ghost function Advanced(r: InstanceData, ov: OperatorVersion, x: Inputs): Reconciliation
    requires r.spec.execution.planName in r.planStatus
  {
    var plan := r.spec.execution.planName;
    var ps := r.planStatus[plan];
    if !x.resolves then Writes(WithStatus(r, ps.(status := FatalError), x.now), [])
    else if plan !in ov.plans || !x.prepares then Writes(r, [])
    else
      var e := ExecutePass(Pass(ov.plans[plan], ov.tasks, x.ask, x.pass), ps, []);
      Writes(WithStatus(r, e.tree, x.now), e.log)
  }

  ghost function Reconciled(w: World, i: InstanceData, x: Inputs): Reconciliation {
    if i.spec.ovRef !in w.ovs then Skips else
    var ov := w.ovs[i.spec.ovRef];
    var s := WithCleanup(i, ov, x.uuid).(readiness := x.readiness);
    if s.spec.execution.planName == "" then
      if i.readiness == x.readiness then Skips else Writes(s, [])
    else
      var r := Prepared(s, ov, x.now);
      if r.None? then Skips else Advanced(r.value, ov, x)
  }

  /** No reconciliation meets a missing phase or step status, be its plan reset or resumed. */
  lemma {:induction false} ReconcileMissesNothing(w: World, i: InstanceData, x: Inputs)
    requires i.spec.ovRef in w.ovs
    ensures
      var ov := w.ovs[i.spec.ovRef];
      var s := WithCleanup(i, ov, x.uuid).(readiness := x.readiness);
      var plan := s.spec.execution.planName;
      plan in ov.plans && UniqueNames(ov.plans[plan]) && KeyedByName(i.planStatus) ==>
        && Prepared(s, ov, x.now).Some? && plan in Prepared(s, ov, x.now).value.planStatus
        && (var tree := Prepared(s, ov, x.now).value.planStatus[plan];
            Aligned(ov.plans[plan], tree)
            && !EngineStatus.Missing(ExecutePass(Pass(ov.plans[plan], ov.tasks, x.ask, x.pass), tree, []).err))
  {
    var ov := w.ovs[i.spec.ovRef];
    var s := WithCleanup(i, ov, x.uuid).(readiness := x.readiness);
    var plan := s.spec.execution.planName;
    if plan in ov.plans && UniqueNames(ov.plans[plan]) && KeyedByName(i.planStatus) {
      var c := Pass(ov.plans[plan], ov.tasks, x.ask, x.pass);
      InitKeepsNames(s.planStatus, ov.plans);
      StatusMatchesPlan(plan, ov.plans[plan], s.planStatus);
      EngineStatus.PassFindsAll(c, Prepared(s, ov, x.now).value.planStatus[plan], []);
    }
  }

  lemma {:induction false} InitKeepsNames(planStatus: map<string, PlanStatus>, plans: map<string, Plan>)
    requires KeyedByName(planStatus)
    ensures KeyedByName(InitStatus(planStatus, plans))
  {
  }

  /** `Reconcile`, up to the call of `updateInstance`. */
  method Reconcile(w: World, i: Instance, x: Inputs) returns (writes: bool, ghost runs: seq<Run>)
    requires i.Valid()
    modifies i
    ensures writes <==> Reconciled(w, old(i.Data()), x).Writes?
    ensures writes ==> i.Valid() && Reconciled(w, old(i.Data()), x) == Writes(i.Data(), runs)
  {
    writes, runs := false, [];
    if i.spec.ovRef !in w.ovs { return; }
    var ov, readiness := w.ovs[i.spec.ovRef], i.readiness;
    var plan, uid := ScheduledPlan(i, ov, x.uuid);
    i.readiness := x.readiness;
    if plan == "" {
      writes := readiness != x.readiness;
      return;
    }
    InitKeepsNames(i.planStatus, ov.plans);
    EnsurePlanStatusInitialized(i, ov.plans);
    var ps := ResetPlanStatusIfPlanIsNew(i, plan, uid, x.now);
    if ps.None? { return; }
    writes := true;
    if !x.resolves {
      var _ := i.UpdateInstanceStatus(ps.value.(status := FatalError), x.now);
      return;
    }
    if plan !in ov.plans || !x.prepares { return; }
    var tree, err;
    tree, err, runs := Execute(Pass(ov.plans[plan], ov.tasks, x.ask, x.pass), ps.value, []);
    var _ := i.UpdateInstanceStatus(tree, x.now);
  }
}
