/** The admission webhook for Instances: which writes it lets through, and what it makes of them. */
module Admission {
  import opened Plans
  import opened Parameters
  import opened Instances

  /** The operator versions in the cluster and the parsers for parameter values. */
  datatype World = World(ovs: map<string, OperatorVersion>, parses: (string, string) -> bool)

  datatype Denial =
    | NoOperatorVersion | NoDeployPlan | UnknownPlan | UnknownParameter | ImmutableParameter | InvalidParameter
      | BadTrigger
    | CleanupOverridden | ChangedWhileDeleting | NotCleanup
    | TriggersOtherPlan | UpgradeDuringPlan | UpgradeWithPlan | UpgradeWithUpdate
    | PlanOverridden | PlanCancelled | PlanTwice | CleanupRequested | NoUpgradePlan

  /** `Unchanged` is the nil plan of `admitUpdate`; `Schedules("")` clears the execution. */
  datatype Verdict = Denied(reason: Denial) | Unchanged | Schedules(plan: string)

  datatype Response = Refused(reason: Denial) | Stored(instance: InstanceData)

  // ----- the rules, as functions of the two instances -----

  predicate IsUpgrade(before: InstanceData, after: InstanceData) {
    after.spec.ovRef != before.spec.ovRef
  }

  /** The parameters that are stored: an upgrade drops those the new operator version removed. */
  function StoredParams(before: InstanceData, after: InstanceData, ov: OperatorVersion,
                        oldOv: OperatorVersion): Params {
    if IsUpgrade(before, after) then Pruned(after.spec.parameters, oldOv.parameters, ov.parameters)
      else after.spec.parameters
  }

  ghost predicate ImmutableOk(before: InstanceData, after: InstanceData, ov: OperatorVersion, oldOv: OperatorVersion)
    requires AllDefined(ov.parameters, ChangedKeys(before.spec.parameters, after.spec.parameters))
  {
    if IsUpgrade(before, after)
    then UpgradeOk(after.spec.parameters, oldOv.parameters, ov.parameters)
    else forall p | p in ChangedDefs(before.spec.parameters, after.spec.parameters, oldOv.parameters, ov.parameters) ::
      !p.immutable
  }

  ghost function UpdateTrigger(before: InstanceData, after: InstanceData, ov: OperatorVersion,
                               oldOv: OperatorVersion): Trigger
    requires AllDefined(ov.parameters, ChangedKeys(before.spec.parameters, after.spec.parameters))
  {
    var p, q := before.spec.parameters, after.spec.parameters;
    TriggeredBy(ChangedDefs(p, q, oldOv.parameters, ov.parameters) + RemovedDefs(p, q, ov.parameters), ov.plans)
  }

  function WhileDeleting(oldPlan: string, newPlan: string, trigger: Trigger, isUpgrade: bool): Verdict {
    if oldPlan == CLEANUP && newPlan != oldPlan then Denied(CleanupOverridden)
    else if trigger.Triggers? || isUpgrade then Denied(ChangedWhileDeleting)
    else if newPlan != "" && newPlan != CLEANUP then Denied(NotCleanup)
    else Unchanged
  }

  function InNormalLife(before: PlanExecution, after: PlanExecution, trigger: Trigger, isUpgrade: bool,
                        plans: map<string, Plan>): Verdict {
    var hadPlan := before.planName != "";
    var isNovel := !hadPlan && after.planName != "";
    var isUpdate := trigger.Triggers?;
    if hadPlan && isUpdate && trigger.plan != before.planName then Denied(TriggersOtherPlan)
    else if isUpgrade && hadPlan then Denied(UpgradeDuringPlan)
    else if isUpgrade && isNovel then Denied(UpgradeWithPlan)
    else if isUpgrade && isUpdate && trigger.plan != DEPLOY then Denied(UpgradeWithUpdate)
    else if hadPlan && after.planName != "" && after.planName != before.planName then Denied(PlanOverridden)
    else if hadPlan && after.planName == "" then Denied(PlanCancelled)
    else if isUpdate && isNovel then Denied(PlanTwice)
    else if after.planName == CLEANUP then Denied(CleanupRequested)
    else if isUpgrade then
      var plan := SelectPlan([UPGRADE, UPDATE, DEPLOY], plans);
      if plan.None? then Denied(NoUpgradePlan) else Schedules(plan.value)
    else if isUpdate then Schedules(trigger.plan)
    else if isNovel then Schedules(after.planName)
    else if after.status.IsTerminal() then Schedules("")
    else if hadPlan && after.uid != before.uid then Schedules(after.planName)
    else Unchanged
  }

  ghost function Admit(before: InstanceData, after: InstanceData, ov: OperatorVersion, oldOv: OperatorVersion,
                       parses: (string, string) -> bool): Verdict
  {
    var oldPlan, newPlan := before.spec.execution.planName, after.spec.execution.planName;
    if newPlan != "" && newPlan !in ov.plans then Denied(UnknownPlan)
    else if !AllDefined(ov.parameters, ChangedKeys(before.spec.parameters, after.spec.parameters))
      then Denied(UnknownParameter)
    else if !ImmutableOk(before, after, ov, oldOv) then Denied(ImmutableParameter)
    else if !ParamsValid(ov.parameters, StoredParams(before, after, ov, oldOv), parses) then Denied(InvalidParameter)
    else
      var trigger := UpdateTrigger(before, after, ov, oldOv);
      if trigger.Rejected? then Denied(BadTrigger)
      else if after.deleting then WhileDeleting(oldPlan, newPlan, trigger, IsUpgrade(before, after))
      else InNormalLife(before.spec.execution, after.spec.execution, trigger, IsUpgrade(before, after), ov.plans)
  }

  /** Outside deletion, an update is refused exactly when it requests cleanup, takes the current
      plan away, touches parameters of another plan than the current or next to a requested one,
      or changes the operator version of an instance that is not idle; otherwise an upgrade, a
      trigger, a requested plan, a terminal status and a new UID count, in this order. */
  lemma {:induction false} NormalLifeRules(before: PlanExecution, after: PlanExecution, trigger: Trigger,
                                           isUpgrade: bool, plans: map<string, Plan>)
    ensures
      var v := InNormalLife(before, after, trigger, isUpgrade, plans);
      && (v.Denied? <==>
            || after.planName == CLEANUP
            || (before.planName != "" && after.planName != before.planName)
            || (trigger.Triggers?
              && if before.planName != "" then trigger.plan != before.planName else after.planName != "")
            || (isUpgrade && (before.planName != "" || after.planName != ""
              || (trigger.Triggers? && trigger.plan != DEPLOY)
                              || {UPGRADE, UPDATE, DEPLOY} !! plans.Keys)))
      && (!v.Denied? ==>
            if isUpgrade then
              v == Schedules(if UPGRADE in plans then UPGRADE else if UPDATE in plans then UPDATE else DEPLOY)
            else if trigger.Triggers? then v == Schedules(trigger.plan)
            else if after.planName != before.planName then v == Schedules(after.planName)
            else if after.status.IsTerminal() then v == Schedules("")
            else if after.planName != "" && after.uid != before.uid then v == Schedules(after.planName)
            else v == Unchanged)
  {
    var all := [UPGRADE, UPDATE, DEPLOY];
    assert all[1..] == [UPDATE, DEPLOY] && all[1..][1..] == [DEPLOY];
    assert UPDATE !in plans ==> SelectPlan([UPDATE, DEPLOY], plans) == SelectPlan([DEPLOY], plans);
    assert UPGRADE !in plans ==> SelectPlan(all, plans) == SelectPlan([UPDATE, DEPLOY], plans);
    assert forall c :: c in all <==> c in {UPGRADE, UPDATE, DEPLOY};
  }

  /** During deletion, exactly those updates pass that leave parameters with a trigger and the
      operator version alone and request nothing but cleanup, or nothing before it is scheduled. */
  lemma {:induction false} DeletionRules(oldPlan: string, newPlan: string, trigger: Trigger, isUpgrade: bool)
    ensures
      var v := WhileDeleting(oldPlan, newPlan, trigger, isUpgrade);
      && (v == Unchanged <==>
          !trigger.Triggers? && !isUpgrade && (newPlan == CLEANUP || (newPlan == "" && oldPlan != CLEANUP)))
      && (v == Unchanged || v.Denied?)
  {
  }

  /** A scheduled plan gets a UID of the webhook's own making and starts at NEVER_RUN. */
  function Scheduled(plan: string, uuid: UID): PlanExecution {
    if plan == "" then PlanExecution("", "", Unset) else PlanExecution(plan, uuid, NeverRun)
  }

  predicate MetadataOnly(before: InstanceData, after: InstanceData) {
    before.spec == after.spec && before.planStatus == after.planStatus && before.readiness == after.readiness
  }

  ghost function Updated(w: World, before: InstanceData, after: InstanceData, uuid: UID): Response {
    if MetadataOnly(before, after) then Stored(after)
    else if after.spec.ovRef !in w.ovs
      || (IsUpgrade(before, after) && before.spec.ovRef !in w.ovs) then Refused(NoOperatorVersion)
    else
      var ov := w.ovs[after.spec.ovRef];
      var oldOv := if IsUpgrade(before, after) then w.ovs[before.spec.ovRef] else ov;
      match Admit(before, after, ov, oldOv, w.parses)
      case Denied(reason) => Refused(reason)
      case Unchanged => Stored(after)
      case Schedules(plan) => Stored(after.(spec :=
        Spec(after.spec.ovRef, StoredParams(before, after, ov, oldOv), Scheduled(plan, uuid))))
  }

  /** `cleanup` is the cleanup status that was looked up in what the user sent. */
  ghost function Created(w: World, i: InstanceData, cleanup: Option<PlanStatus>, uuid: UID): Response {
    if i.spec.ovRef !in w.ovs then Refused(NoOperatorVersion) else
    var ov := w.ovs[i.spec.ovRef];
    var params := WithImmutableDefaults(ov.parameters, i.spec.parameters);
    if DEPLOY !in ov.plans then Refused(NoDeployPlan)
    else if !ParamsValid(ov.parameters, params, w.parses) then Refused(InvalidParameter)
    else
      var j := if CLEANUP in ov.plans then WithFinalizer(i, cleanup) else i;
      Stored(j.(spec := Spec(i.spec.ovRef, params, PlanExecution(DEPLOY, uuid, i.spec.execution.status))))
  }

  // ----- the handlers -----

  /** `checkImmutableParameters`; an upgrade prunes the new parameters in place. */
  method CheckImmutableParameters(after: Instance, newOv: OperatorVersion, oldOv: OperatorVersion,
                                  changed: seq<Parameter>, isUpgrade: bool) returns (ok: bool)
    modifies after`spec
    ensures !isUpgrade ==> (ok <==> forall p | p in changed :: !p.immutable) && after.spec == old(after.spec)
    ensures isUpgrade ==> (ok <==> UpgradeOk(old(after.spec.parameters), oldOv.parameters, newOv.parameters))
    ensures isUpgrade && ok ==>
              after.spec == old(after.spec).(parameters :=
                Pruned(old(after.spec.parameters), oldOv.parameters, newOv.parameters))
  {
    if isUpgrade {
      var pruned;
      ok, pruned := ValidateOVUpgrade(after.spec.parameters, newOv.parameters, oldOv.parameters);
      after.spec := after.spec.(parameters := pruned);
    } else {
      for i := 0 to |changed|
        invariant forall k | 0 <= k < i :: !changed[k].immutable
      {
        if changed[i].immutable { return false; }
      }
      return true;
    }
  }

  method AdmitUpdate(before: InstanceData, after: Instance, ov: OperatorVersion, oldOv: OperatorVersion,
                     parses: (string, string) -> bool) returns (v: Verdict)
    modifies after`spec
    ensures v == Admit(before, old(after.Data()), ov, oldOv, parses)
    ensures !v.Denied? ==>
              after.spec == old(after.spec).(parameters := StoredParams(before, old(after.Data()), ov, oldOv))
  {
    var wanted := after.spec.execution;
    var isUpgrade := after.spec.ovRef != before.spec.ovRef;
    if wanted.planName != "" && SelectPlan([wanted.planName], ov.plans).None? {
      assert wanted.planName in [wanted.planName];
      return Denied(UnknownPlan);
    }
    var ok, changed, removed :=
      ChangedParameters(before.spec.parameters, after.spec.parameters, oldOv.parameters, ov.parameters);
    if !ok { return Denied(UnknownParameter); }
    ok := CheckImmutableParameters(after, ov, oldOv, changed, isUpgrade);
    assert forall p :: p in changed <==> p in Elements(changed);
    if !ok { return Denied(ImmutableParameter); }
    ok := ValidateParameters(ov.parameters, after.spec.parameters, parses);
    if !ok { return Denied(InvalidParameter); }
    var trigger := TriggeredByParameterUpdate(changed + removed, ov.plans);
    assert Elements(changed + removed) == Elements(changed) + Elements(removed);
    if trigger.Rejected? { return Denied(BadTrigger); }
    if after.deleting {
      return WhileDeleting(before.spec.execution.planName, wanted.planName, trigger, isUpgrade);
    }
    return InNormalLife(before.spec.execution, wanted, trigger, isUpgrade, ov.plans);
  }

  /** `handleUpdate`: the new instance is patched in place when a plan is scheduled. */
  method HandleUpdate(w: World, before: InstanceData, after: Instance, uuid: UID) returns (denied: Option<Denial>)
    modifies after`spec
    ensures denied.Some? ==> Updated(w, before, old(after.Data()), uuid) == Refused(denied.value)
    ensures denied.None? ==> Updated(w, before, old(after.Data()), uuid) == Stored(after.Data())
  {
    if MetadataOnly(before, after.Data()) { return None; }
    if after.spec.ovRef !in w.ovs { return Some(NoOperatorVersion); }
    var ov := w.ovs[after.spec.ovRef];
    var oldOv := ov;
    if before.spec.ovRef != after.spec.ovRef {
      if before.spec.ovRef !in w.ovs { return Some(NoOperatorVersion); }
      oldOv := w.ovs[before.spec.ovRef];
    }
    ghost var sent := after.Data();
    var v := AdmitUpdate(before, after, ov, oldOv, w.parses);
    match v {
      case Denied(reason) => return Some(reason);
      case Schedules(plan) =>
        after.spec := after.spec.(execution := PlanExecution(plan, "", Unset));
        if plan != "" {
          after.spec := after.spec.(execution := PlanExecution(plan, uuid, NeverRun));
        }
        return None;
      case Unchanged =>
        UnchangedIsNoUpgrade(before, sent, ov, oldOv, w.parses);
        return None;
    }
  }

  lemma {:induction false} UnchangedIsNoUpgrade(before: InstanceData, after: InstanceData, ov: OperatorVersion,
                                                oldOv: OperatorVersion,
                             parses: (string, string) -> bool)
    requires Admit(before, after, ov, oldOv, parses).Unchanged?
    ensures !IsUpgrade(before, after)
  {
  }

  method HandleCreate(w: World, i: Instance, uuid: UID)
    returns (denied: Option<Denial>, ghost cleanup: Option<PlanStatus>)
    modifies i
    ensures MayFind(old(i.planStatus), CLEANUP, cleanup)
    ensures denied.Some? ==> Created(w, old(i.Data()), cleanup, uuid) == Refused(denied.value)
    ensures denied.None? ==> Created(w, old(i.Data()), cleanup, uuid) == Stored(i.Data())
  {
    cleanup := Finds(i.planStatus, CLEANUP);
    if i.spec.ovRef !in w.ovs { return Some(NoOperatorVersion), cleanup; }
    var ov := w.ovs[i.spec.ovRef];
    if CLEANUP in ov.plans {
      var added;
      added, cleanup := i.TryAddFinalizer();
    }
    if DEPLOY !in ov.plans { return Some(NoDeployPlan), cleanup; }
    var params := SetImmutableParameterDefaults(ov.parameters, i.spec.parameters);
    i.spec := Spec(i.spec.ovRef, params, PlanExecution(DEPLOY, uuid, i.spec.execution.status));
    var ok := ValidateParameters(ov.parameters, i.spec.parameters, w.parses);
    denied := if ok then None else Some(InvalidParameter);
  }
}
