/** What one reconciliation hands over, told by the instance it read and by what it gets from
    outside: the plan it works on, where that plan starts, and what becomes of everything else. */
module ControllerLaws {
  import opened Plans
  import opened Parameters
  import opened Instances
  import opened Admission
  import opened Engine
  import opened Controller
  import EngineStatus

  /** The controller schedules `cleanup` for an instance that is being deleted, as long as that
      plan is not scheduled and has not begun: it has no status, or one that says NEVER_RUN. */
  ghost predicate CleansUp(i: InstanceData, ov: OperatorVersion) {
    && i.deleting && CLEANUP in ov.plans && i.spec.execution.planName != CLEANUP
    && (CLEANUP !in i.planStatus || i.planStatus[CLEANUP].status == NeverRun)
  }

  ghost function PlanOf(i: InstanceData, ov: OperatorVersion): string {
    if CleansUp(i, ov) then CLEANUP else i.spec.execution.planName
  }

  ghost function UidOf(i: InstanceData, ov: OperatorVersion, x: Inputs): UID {
    if CleansUp(i, ov) then x.uuid else i.spec.execution.uid
  }

  /** What was known of a plan; nothing known reads NEVER_RUN. */
  ghost function Known(planStatus: map<string, PlanStatus>, name: string): PlanStatus {
    if name in planStatus then planStatus[name] else PlanStatus(name, NeverRun, [], "", None)
  }

  ghost predicate KnownStep(known: seq<StepStatus>, step: StepStatus) {
    || (exists b | 0 <= b < |known| :: known[b] == step && forall m | 0 <= m < b :: known[m].name != step.name)
    || (step.status == NeverRun && forall s | s in known :: s.name != step.name)
  }

  ghost predicate KnownPhase(known: seq<PhaseStatus>, phase: PhaseStatus) {
    || (exists a | 0 <= a < |known| ::
          && known[a].name == phase.name && known[a].status == phase.status
          && (forall m | 0 <= m < a :: known[m].name != phase.name)
          && forall s | s in phase.steps :: KnownStep(known[a].steps, s))
    || (&& phase.status == NeverRun && (forall p | p in known :: p.name != phase.name)
        && forall s | s in phase.steps :: s.status == NeverRun)
  }

  /** `tree` lists the phases and steps of the plan, each as it was known, the new ones NEVER_RUN. */
  ghost predicate Recalls(plan: Plan, known: PlanStatus, tree: PlanStatus) {
    && Aligned(plan, tree) && tree == known.(phases := tree.phases)
    && forall p | p in tree.phases :: KnownPhase(known.phases, p)
  }

  /** `tree` lists the phases and steps of the plan, all PENDING, under the given UID. */
  ghost predicate StartsOver(plan: Plan, tree: PlanStatus, uid: UID) {
    && Aligned(plan, tree) && tree.uid == uid && tree.status == Pending
    && forall p | p in tree.phases :: p.status == Pending && forall s | s in p.steps :: s.status == Pending
  }

  // ----- which plan, and what stays -----

  lemma {:induction false} CleanupExactly(i: InstanceData, ov: OperatorVersion, uuid: UID)
    ensures WithCleanup(i, ov, uuid) ==
            if CleansUp(i, ov) then i.(spec := i.spec.(execution := PlanExecution(CLEANUP, uuid, NeverRun))) else i
  {
  }

  /** A reconciliation that hands over an instance has scheduled the cleanup plan under the new
      UUID exactly when `CleansUp`, and has kept plan and UID otherwise; operator version,
      parameters, finalizers and deletion are as read. */
  lemma {:induction false} SchedulesExactly(w: World, i: InstanceData, x: Inputs)
    requires i.spec.ovRef in w.ovs && KeyedByName(i.planStatus) && Reconciled(w, i, x).Writes?
    ensures
      var ov, next := w.ovs[i.spec.ovRef], Reconciled(w, i, x).next;
      && next == i.(readiness := x.readiness, planStatus := next.planStatus,
        spec := i.spec.(execution := PlanExecution(PlanOf(i, ov), UidOf(i, ov, x), next.spec.execution.status)))
    ensures PlanOf(i, w.ovs[i.spec.ovRef]) == "" ==> Reconciled(w, i, x) == Writes(i.(readiness := x.readiness), [])
  {
    var ov := w.ovs[i.spec.ovRef];
    CleanupExactly(i, ov, x.uuid);
    var s := WithCleanup(i, ov, x.uuid).(readiness := x.readiness);
    if s.spec.execution.planName != "" { AdvancedFrame(s, ov, x); }
  }

  lemma {:induction false} AdvancedFrame(s: InstanceData, ov: OperatorVersion, x: Inputs)
    requires Prepared(s, ov, x.now).Some? && s.spec.execution.planName in Prepared(s, ov, x.now).value.planStatus
    requires Advanced(Prepared(s, ov, x.now).value, ov, x).Writes?
    ensures
      var next := Advanced(Prepared(s, ov, x.now).value, ov, x).next;
      next == s.(planStatus := next.planStatus,
                 spec := s.spec.(execution := s.spec.execution.(status := next.spec.execution.status)))
  {
  }

  /** It hands over an instance exactly when the operator version exists and either there is a
      plan to work on, of which there is or can be a status, or the readiness changed. */
  lemma {:induction false} WritesExactly(w: World, i: InstanceData, x: Inputs)
    ensures Reconciled(w, i, x).Writes? <==>
              && i.spec.ovRef in w.ovs
              && var plan := PlanOf(i, w.ovs[i.spec.ovRef]);
                 if plan == "" then i.readiness != x.readiness
                 else plan in i.planStatus || plan in w.ovs[i.spec.ovRef].plans
  {
    if i.spec.ovRef in w.ovs { CleanupExactly(i, w.ovs[i.spec.ovRef], x.uuid); }
  }

  // ----- where the plan starts, and what it comes to -----

  lemma {:induction false} StepIsKnown(step: Step, known: seq<StepStatus>)
    ensures KnownStep(known, StepFor(step.name, known)) && StepFor(step.name, known).name == step.name
  {
    var b := StepIndex(known, step.name);
    if b < |known| {
      assert known[b] == StepFor(step.name, known);
    } else {
      assert forall s | s in known :: s.name != step.name;
    }
  }

  lemma {:induction false} PhaseIsKnown(phase: Phase, known: seq<PhaseStatus>)
    ensures KnownPhase(known, PhaseFor(phase, known)) && AlignedPhase(phase, PhaseFor(phase, known))
  {
    var a, p := PhaseIndex(known, phase.name), PhaseFor(phase, known);
    var steps := if a < |known| then known[a].steps else [];
    forall n | 0 <= n < |p.steps|
      ensures KnownStep(steps, p.steps[n]) && p.steps[n].name == phase.steps[n].name
    {
      StepIsKnown(phase.steps[n], steps);
    }
    if a == |known| { assert forall q | q in known :: q.name != phase.name; }
  }

  lemma {:induction false} InitRecalls(name: string, plan: Plan, planStatus: map<string, PlanStatus>)
    requires UniqueNames(plan)
    ensures Recalls(plan, Known(planStatus, name), InitPlan(name, plan, planStatus))
  {
    var known, tree := Known(planStatus, name), InitPlan(name, plan, planStatus);
    forall n | 0 <= n < |plan.phases|
      ensures KnownPhase(known.phases, tree.phases[n]) && AlignedPhase(plan.phases[n], tree.phases[n])
    {
      InitPhasesAt(plan.phases, known.phases, n);
      PhaseIsKnown(plan.phases[n], known.phases);
    }
  }

  lemma {:induction false} ResetStartsOver(plan: Plan, tree: PlanStatus, uid: UID)
    requires Aligned(plan, tree)
    ensures StartsOver(plan, ResetTree(tree, uid), uid)
  {
    ResetIsAligned(plan, tree, uid);
  }

  /** What becomes of the plans that are not worked on: they are recalled, or unknown to the
      operator version and left alone. */
  ghost predicate OthersRecalled(ov: OperatorVersion, plan: string, before: map<string, PlanStatus>,
                                 after: map<string, PlanStatus>) {
    && after.Keys == before.Keys + ov.plans.Keys
    && (forall k | k in ov.plans && k != plan :: Recalls(ov.plans[k], Known(before, k), after[k]))
    && (forall k | k in before && k !in ov.plans && k != plan :: after[k] == before[k])
  }

  /** The plan worked on goes on where it was under its UID, and starts over under a new one. */
  ghost predicate Starts(plan: Plan, known: PlanStatus, uid: UID, start: PlanStatus) {
    if known.uid == uid then Recalls(plan, known, start) else StartsOver(plan, start, uid)
  }

  lemma {:induction false} InitRecallsOthers(ov: OperatorVersion, plan: string, before: map<string, PlanStatus>)
    requires forall k | k in ov.plans :: UniqueNames(ov.plans[k])
    ensures OthersRecalled(ov, plan, before, InitStatus(before, ov.plans))
  {
    forall k | k in ov.plans ensures Recalls(ov.plans[k], Known(before, k), InitStatus(before, ov.plans)[k]) {
      InitRecalls(k, ov.plans[k], before);
    }
  }

  lemma {:induction false} OthersStay(ov: OperatorVersion, plan: string, before: map<string, PlanStatus>,
                                      mid: map<string, PlanStatus>, after: map<string, PlanStatus>)
    requires OthersRecalled(ov, plan, before, mid)
    requires after.Keys == mid.Keys && forall k | k in mid && k != plan :: after[k] == mid[k]
    ensures OthersRecalled(ov, plan, before, after)
  {
  }

  lemma {:induction false} PreparedIs(s: InstanceData, ov: OperatorVersion, now: Mark)
    requires s.spec.execution.planName in ov.plans && KeyedByName(s.planStatus)
    ensures
      var plan, e := s.spec.execution.planName, s.spec.execution;
      var p, init := Prepared(s, ov, now), InitStatus(s.planStatus, ov.plans);
      var same := Known(s.planStatus, plan).uid == e.uid;
      && p.Some? && init[plan].name == plan
      && p.value.planStatus == init[plan := if same then init[plan] else Stamped(ResetTree(init[plan], e.uid), now)]
      && p.value.spec.execution.status == if same then e.status else Pending
  {
    var plan, init := s.spec.execution.planName, InitStatus(s.planStatus, ov.plans);
    assert init[plan := init[plan]] == init;
  }

  lemma {:induction false} PreparedStarts(s: InstanceData, ov: OperatorVersion, now: Mark)
    requires forall k | k in ov.plans :: UniqueNames(ov.plans[k])
    requires s.spec.execution.planName in ov.plans && KeyedByName(s.planStatus)
    ensures
      var plan, e, p := s.spec.execution.planName, s.spec.execution, Prepared(s, ov, now);
      && p.Some? && plan in p.value.planStatus && p.value.planStatus[plan].name == plan
      && Starts(ov.plans[plan], Known(s.planStatus, plan), e.uid, p.value.planStatus[plan])
      && OthersRecalled(ov, plan, s.planStatus, p.value.planStatus)
      && p.value.spec.execution.status == if Known(s.planStatus, plan).uid == e.uid then e.status else Pending
  {
    var plan, e := s.spec.execution.planName, s.spec.execution;
    var init := InitStatus(s.planStatus, ov.plans);
    PreparedIs(s, ov, now);
    InitRecallsOthers(ov, plan, s.planStatus);
    InitRecalls(plan, ov.plans[plan], s.planStatus);
    ResetStartsOver(ov.plans[plan], init[plan], e.uid);
    OthersStay(ov, plan, s.planStatus, init, Prepared(s, ov, now).value.planStatus);
  }

  /** The plan fails on its dependencies, or stays where it is when it cannot be prepared, or
      makes one pass; the execution shows its status. */
  ghost predicate ComesTo(ov: OperatorVersion, plan: string, x: Inputs, start: PlanStatus, status: Status,
                          r: Reconciliation)
    requires plan in ov.plans
  {
    && r.Writes? && plan in r.next.planStatus
    && if !x.resolves then
         && r.next.planStatus[plan] == start.(status := FatalError, updated := Some(x.now)) && r.runs == []
         && r.next.spec.execution.status == FatalError
       else if !x.prepares then
         r.next.planStatus[plan] == start && r.runs == [] && r.next.spec.execution.status == status
       else
         var e := ExecutePass(Pass(ov.plans[plan], ov.tasks, x.ask, x.pass), start, []);
         && r.next.planStatus[plan] == e.tree.(updated := Some(x.now)) && r.runs == e.log
         && r.next.spec.execution.status == e.tree.status
  }

  lemma {:induction false} AdvancedExactly(p: InstanceData, ov: OperatorVersion, x: Inputs)
    requires p.spec.execution.planName in ov.plans && p.spec.execution.planName in p.planStatus
    requires p.planStatus[p.spec.execution.planName].name == p.spec.execution.planName
    ensures
      var plan, r := p.spec.execution.planName, Advanced(p, ov, x);
      && ComesTo(ov, plan, x, p.planStatus[plan], p.spec.execution.status, r)
      && r.next.planStatus.Keys == p.planStatus.Keys
      && forall k | k in p.planStatus && k != plan :: r.next.planStatus[k] == p.planStatus[k]
  {
    var plan := p.spec.execution.planName;
    EngineStatus.PassKeepsIdentity(Pass(ov.plans[plan], ov.tasks, x.ask, x.pass), p.planStatus[plan], []);
  }

  lemma {:induction false} AdvancesWhatIsPrepared(w: World, i: InstanceData, x: Inputs, s: InstanceData)
    requires i.spec.ovRef in w.ovs && s == WithCleanup(i, w.ovs[i.spec.ovRef], x.uuid).(readiness := x.readiness)
    requires s.spec.execution.planName != "" && Prepared(s, w.ovs[i.spec.ovRef], x.now).Some?
    requires s.spec.execution.planName in Prepared(s, w.ovs[i.spec.ovRef], x.now).value.planStatus
    ensures
      var p := Prepared(s, w.ovs[i.spec.ovRef], x.now).value;
      p.spec.execution.planName in p.planStatus && Reconciled(w, i, x) == Advanced(p, w.ovs[i.spec.ovRef], x)
  {
  }

  lemma {:induction false} WorksFrom(s: InstanceData, ov: OperatorVersion, x: Inputs)
    requires forall k | k in ov.plans :: UniqueNames(ov.plans[k])
    requires s.spec.execution.planName in ov.plans && KeyedByName(s.planStatus)
    ensures
      var plan, e, p := s.spec.execution.planName, s.spec.execution, Prepared(s, ov, x.now);
      && p.Some? && p.value.spec.execution.planName == plan && plan in p.value.planStatus
      && Starts(ov.plans[plan], Known(s.planStatus, plan), e.uid, p.value.planStatus[plan])
      && var r := Advanced(p.value, ov, x);
         && ComesTo(ov, plan, x, p.value.planStatus[plan],
                    if Known(s.planStatus, plan).uid == e.uid then e.status else Pending, r)
         && OthersRecalled(ov, plan, s.planStatus, r.next.planStatus)
  {
    PreparedStarts(s, ov, x.now);
    var p := Prepared(s, ov, x.now).value;
    AdvancedExactly(p, ov, x);
    OthersStay(ov, s.spec.execution.planName, s.planStatus, p.planStatus, Advanced(p, ov, x).next.planStatus);
  }

  /** A scheduled plan of the operator version goes on from where it was under its UID, or starts
      over, and comes to what its tasks say; the other plans are recalled. */
  lemma {:induction false} WorksExactly(w: World, i: InstanceData, x: Inputs) returns (start: PlanStatus)
    requires i.spec.ovRef in w.ovs && KeyedByName(i.planStatus)
    requires forall k | k in w.ovs[i.spec.ovRef].plans :: UniqueNames(w.ovs[i.spec.ovRef].plans[k])
    requires PlanOf(i, w.ovs[i.spec.ovRef]) != "" && PlanOf(i, w.ovs[i.spec.ovRef]) in w.ovs[i.spec.ovRef].plans
    ensures
      var ov, r := w.ovs[i.spec.ovRef], Reconciled(w, i, x);
      var plan, uid := PlanOf(i, ov), UidOf(i, ov, x);
      && Starts(ov.plans[plan], Known(i.planStatus, plan), uid, start)
      && ComesTo(ov, plan, x, start,
                 if Known(i.planStatus, plan).uid != uid then Pending
                 else if CleansUp(i, ov) then NeverRun else i.spec.execution.status, r)
      && OthersRecalled(ov, plan, i.planStatus, r.next.planStatus)
  {
    var ov := w.ovs[i.spec.ovRef];
    CleanupExactly(i, ov, x.uuid);
    var s := WithCleanup(i, ov, x.uuid).(readiness := x.readiness);
    WorksFrom(s, ov, x);
    AdvancesWhatIsPrepared(w, i, x, s);
    start := Prepared(s, ov, x.now).value.planStatus[PlanOf(i, ov)];
  }
}
