/** The admission rules stated once more, without the helpers that compute them: which updates and
    creations are stored, and what exactly is stored. */
module AdmissionLaws {
  import opened Plans
  import opened Parameters
  import opened Instances
  import opened Admission

  // ----- what a difference between two parameter maps counts for -----

  ghost predicate Named(defs: seq<Parameter>, k: string) {
    exists d | d in defs :: d.name == k
  }

  /** `d` is the first definition of its name. */
  ghost predicate FirstDef(defs: seq<Parameter>, d: Parameter) {
    exists n | 0 <= n < |defs| :: defs[n] == d && forall m | 0 <= m < n :: defs[m].name != d.name
  }

  ghost predicate Changed(p: Params, q: Params, k: string) {
    k in q && (k !in p || p[k] != q[k])
  }

  ghost predicate Removed(p: Params, q: Params, k: string) {
    k in p && k !in q
  }

  /** A parameter counts when its value changed and both operator versions define it. */
  ghost predicate CountsAsChanged(p: Params, q: Params, oldDefs: seq<Parameter>, defs: seq<Parameter>, d: Parameter) {
    FirstDef(defs, d) && Changed(p, q, d.name) && Named(oldDefs, d.name)
  }

  /** It also counts when its value was removed, if all parameters so removed are defined. */
  ghost predicate CountsAsRemoved(p: Params, q: Params, defs: seq<Parameter>, d: Parameter) {
    FirstDef(defs, d) && Removed(p, q, d.name) && forall k | Removed(p, q, k) :: Named(defs, k)
  }

  ghost function CountedDefs(p: Params, q: Params, oldDefs: seq<Parameter>, defs: seq<Parameter>): set<Parameter> {
    set d | d in defs && (CountsAsChanged(p, q, oldDefs, defs, d) || CountsAsRemoved(p, q, defs, d))
  }

  lemma {:induction false} FirstDefIs(defs: seq<Parameter>, d: Parameter)
    ensures FirstDef(defs, d) <==> Defined(defs, d.name) && Def(defs, d.name) == d
  {
    var n := DefIndex(defs, d.name);
    assert n < |defs| && defs[n] == d ==> FirstDef(defs, d);
  }

  lemma {:induction false} NamedIsDefined(defs: seq<Parameter>, k: string)
    ensures Named(defs, k) <==> Defined(defs, k)
  {
    assert Defined(defs, k) ==> Def(defs, k) in defs;
  }

  lemma {:induction false} CountedExactly(p: Params, q: Params, oldDefs: seq<Parameter>, defs: seq<Parameter>)
    requires forall k | Changed(p, q, k) :: Named(defs, k)
    ensures AllDefined(defs, ChangedKeys(p, q))
    ensures CountedDefs(p, q, oldDefs, defs) == ChangedDefs(p, q, oldDefs, defs) + RemovedDefs(p, q, defs)
    ensures forall d :: d in ChangedDefs(p, q, oldDefs, defs) <==> CountsAsChanged(p, q, oldDefs, defs, d)
  {
    forall k ensures Named(defs, k) <==> Defined(defs, k) { NamedIsDefined(defs, k); }
    forall k ensures Named(oldDefs, k) <==> Defined(oldDefs, k) { NamedIsDefined(oldDefs, k); }
    forall d ensures FirstDef(defs, d) <==> Defined(defs, d.name) && Def(defs, d.name) == d { FirstDefIs(defs, d); }
    assert forall k :: k in ChangedKeys(p, q) <==> Changed(p, q, k);
    assert forall k :: k in RemovedKeys(p, q) <==> Removed(p, q, k);
    assert forall d :: d in RemovedDefs(p, q, defs) <==> CountsAsRemoved(p, q, defs, d);
  }

  // ----- the plan that is triggered -----

  ghost predicate NoneNamed(counted: set<Parameter>) {
    forall d | d in counted :: d.trigger == ""
  }

  /** What counts triggers the one plan its triggers name, or else `update`, or else `deploy`. */
  ghost predicate TriggerIs(counted: set<Parameter>, plans: map<string, Plan>, t: Trigger) {
    match t
    case NoTrigger => counted == {}
    case Triggers(plan) =>
      && counted != {} && plan in plans
      && if NoneNamed(counted) then plan == UPDATE || (plan == DEPLOY && UPDATE !in plans)
         else forall d | d in counted && d.trigger != "" :: d.trigger == plan
    case Rejected =>
      || (exists d | d in counted :: d.trigger != "" && d.trigger !in plans)
      || (exists d, e | d in counted && e in counted :: d.trigger != "" && e.trigger != "" && d.trigger != e.trigger)
      || (counted != {} && NoneNamed(counted) && UPDATE !in plans && DEPLOY !in plans)
  }

  lemma {:induction false} OneTrigger(counted: set<Parameter>, plans: map<string, Plan>, t: Trigger, u: Trigger)
    requires TriggerIs(counted, plans, t) && TriggerIs(counted, plans, u)
    ensures t == u
  {
  }

  lemma {:induction false} TriggeredExactly(counted: set<Parameter>, plans: map<string, Plan>, t: Trigger)
    ensures TriggeredBy(counted, plans) == t <==> TriggerIs(counted, plans, t)
  {
    var named, u := ExplicitTriggers(counted), TriggeredBy(counted, plans);
    assert forall d | d in counted && d.trigger != "" :: d.trigger in named;
    assert [UPDATE, DEPLOY][1..] == [DEPLOY];
    assert UPDATE !in plans ==> SelectPlan([UPDATE, DEPLOY], plans) == SelectPlan([DEPLOY], plans);
    if u.Triggers? {
      TriggeredPlanIsNamed(counted, plans);
    } else if u.Rejected? && named <= plans.Keys && |named| > 1 {
      var a :| a in named;
      assert |named - {a}| > 0;
      var b :| b in named - {a};
      assert exists d, e | d in counted && e in counted :: d.trigger == a && e.trigger == b;
    }
    assert TriggerIs(counted, plans, u);
    if TriggerIs(counted, plans, t) { OneTrigger(counted, plans, t, u); }
  }

  // ----- updates -----

  /** No definition is left without a value it needs, and no value fails to parse or lies outside
      its enum; the empty value is no value. */
  ghost predicate ValuesOk(defs: seq<Parameter>, q: Params, parses: (string, string) -> bool) {
    && (forall d | d in defs && d.required && d.default.None? :: d.name in q && q[d.name] != "")
    && (forall d | d in defs && d.name in q && q[d.name] != "" ::
          parses(d.valueType, q[d.name]) && (d.enum.Some? ==> q[d.name] in d.enum.value))
  }

  lemma {:induction false} ValuesExactly(defs: seq<Parameter>, q: Params, parses: (string, string) -> bool)
    ensures ParamsValid(defs, q, parses) <==> ValuesOk(defs, q, parses)
  {
    if ParamsValid(defs, q, parses) {
      forall d | d in defs && ((d.name in q && q[d.name] != "") || (d.required && d.default.None?))
        ensures d.name in q && q[d.name] != ""
        ensures parses(d.valueType, q[d.name]) && (d.enum.Some? ==> q[d.name] in d.enum.value)
      {
        assert ValueOk(d, ValueOf(q, d.name), parses);
      }
    }
  }

  ghost predicate Alike(before: InstanceData, after: InstanceData) {
    before.spec == after.spec && before.planStatus == after.planStatus && before.readiness == after.readiness
  }

  /** The operator versions an update is judged by: the new one, and the old one, which is looked
      up for an upgrade only. */
  ghost predicate Judges(w: World, before: Spec, after: Spec, ov: OperatorVersion, oldOv: OperatorVersion) {
    && after.ovRef in w.ovs && ov == w.ovs[after.ovRef]
    && if after.ovRef == before.ovRef then oldOv == ov else before.ovRef in w.ovs && oldOv == w.ovs[before.ovRef]
  }

  /** An upgrade drops the parameters the new operator version no longer defines; all others are
      stored as they were sent. */
  ghost predicate ParamsStored(before: Spec, after: Spec, ov: OperatorVersion, oldOv: OperatorVersion, stored: Params) {
    && (forall k :: k in stored <==>
        k in after.parameters
        && !(after.ovRef != before.ovRef && Named(oldOv.parameters, k) && !Named(ov.parameters, k)))
    && (forall k | k in stored :: stored[k] == after.parameters[k])
  }

  /** Outside an upgrade no immutable parameter changes; in one, every immutable parameter that is
      new, or was mutable, has a value. */
  ghost predicate ImmutablesOk(before: Spec, after: Spec, ov: OperatorVersion, oldOv: OperatorVersion) {
    if after.ovRef == before.ovRef
    then forall d | FirstDef(ov.parameters, d) && d.immutable :: !Changed(before.parameters, after.parameters, d.name)
    else forall d | d in ov.parameters && d.immutable ::
        d.name in after.parameters
        || (Named(oldOv.parameters, d.name) && forall o | o in oldOv.parameters && o.name == d.name :: o.immutable)
  }

  /** What is asked of an update before its plans are looked at. */
  ghost predicate Proper(before: Spec, after: Spec, ov: OperatorVersion, oldOv: OperatorVersion, stored: Params,
                         parses: (string, string) -> bool) {
    && (after.execution.planName == "" || after.execution.planName in ov.plans)
    && (forall k | Changed(before.parameters, after.parameters, k) :: Named(ov.parameters, k))
    && ImmutablesOk(before, after, ov, oldOv)
    && ValuesOk(ov.parameters, stored, parses)
  }

  /** During deletion only `cleanup` may be requested, and nothing may be triggered; outside it,
      nothing may get into the way of the scheduled plan, and only an idle instance is upgraded. */
  ghost predicate Passes(before: Spec, after: Spec, deleting: bool, t: Trigger, plans: map<string, Plan>) {
    var had, wanted, upgrade := before.execution.planName, after.execution.planName, after.ovRef != before.ovRef;
    if deleting
    then !t.Triggers? && !upgrade && (wanted == CLEANUP || (wanted == "" && had != CLEANUP))
    else
      && wanted != CLEANUP && (had == "" || wanted == had)
      && (t.Triggers? ==> if had == "" then wanted == "" else t.plan == had)
      && (upgrade ==>
            && had == "" && wanted == "" && (t.Triggers? ==> t.plan == DEPLOY)
            && (UPGRADE in plans || UPDATE in plans || DEPLOY in plans))
  }

  /** The execution that is stored: a plan that is scheduled anew gets the webhook's UID. */
  ghost predicate Executes(before: Spec, after: Spec, deleting: bool, t: Trigger, plans: map<string, Plan>, uuid: UID,
                           stored: PlanExecution) {
    var had, wanted := before.execution, after.execution;
    if deleting then stored == wanted
    else if after.ovRef != before.ovRef then
      stored == PlanExecution(if UPGRADE in plans then UPGRADE else if UPDATE in plans then UPDATE else DEPLOY,
                              uuid, NeverRun)
    else if t.Triggers? then stored == PlanExecution(t.plan, uuid, NeverRun)
    else if wanted.planName != had.planName then stored == PlanExecution(wanted.planName, uuid, NeverRun)
    else if wanted.status in {Complete, FatalError} then stored == PlanExecution("", "", Unset)
    else if wanted.planName != "" && wanted.uid != had.uid then stored == PlanExecution(wanted.planName, uuid, NeverRun)
    else stored == wanted
  }

  lemma {:induction false} ParamsStoredExactly(before: InstanceData, after: InstanceData, ov: OperatorVersion,
                                               oldOv: OperatorVersion)
    ensures ParamsStored(before.spec, after.spec, ov, oldOv, StoredParams(before, after, ov, oldOv))
  {
    forall k ensures Named(ov.parameters, k) <==> Defined(ov.parameters, k) { NamedIsDefined(ov.parameters, k); }
    forall k ensures Named(oldOv.parameters, k) <==> Defined(oldOv.parameters, k) {
      NamedIsDefined(oldOv.parameters, k);
    }
  }

  lemma {:induction false} ImmutablesExactly(before: InstanceData, after: InstanceData, ov: OperatorVersion,
                                             oldOv: OperatorVersion)
    requires forall k | Changed(before.spec.parameters, after.spec.parameters, k) :: Named(ov.parameters, k)
    requires !IsUpgrade(before, after) ==> oldOv == ov
    ensures AllDefined(ov.parameters, ChangedKeys(before.spec.parameters, after.spec.parameters))
    ensures ImmutableOk(before, after, ov, oldOv) <==> ImmutablesOk(before.spec, after.spec, ov, oldOv)
  {
    var p, q := before.spec.parameters, after.spec.parameters;
    CountedExactly(p, q, oldOv.parameters, ov.parameters);
    if IsUpgrade(before, after) {
      UpgradeExactly(q, oldOv.parameters, ov.parameters);
    } else {
      assert forall d | FirstDef(ov.parameters, d) :: d in ov.parameters;
    }
  }

  lemma {:induction false} UpgradeExactly(q: Params, oldDefs: seq<Parameter>, defs: seq<Parameter>)
    ensures UpgradeOk(q, oldDefs, defs) <==>
              forall d | d in defs && d.immutable ::
                d.name in q || (Named(oldDefs, d.name) && forall o | o in oldDefs && o.name == d.name :: o.immutable)
  {
    forall d | d in defs && d.immutable
      ensures d.name in Pruned(q, oldDefs, defs) <==> d.name in q
      ensures Named(oldDefs, d.name) <==> Defined(oldDefs, d.name)
      ensures ImmutabilityChanged(oldDefs, d) <==> exists o | o in oldDefs :: o.name == d.name && !o.immutable
    {
      DefinedByMember(defs, d);
      NamedIsDefined(oldDefs, d.name);
    }
  }

  /** Exactly the proper updates that are in nobody's way are stored, and as this says. */
  lemma {:induction false} UpdateExactly(w: World, before: InstanceData, after: InstanceData, ov: OperatorVersion,
                                         oldOv: OperatorVersion, uuid: UID)
    returns (stored: Params, t: Trigger)
    requires Judges(w, before.spec, after.spec, ov, oldOv) && !Alike(before, after)
    ensures ParamsStored(before.spec, after.spec, ov, oldOv, stored)
    ensures TriggerIs(CountedDefs(before.spec.parameters, after.spec.parameters, oldOv.parameters, ov.parameters),
                      ov.plans, t)
    ensures Updated(w, before, after, uuid).Stored? <==>
              && Proper(before.spec, after.spec, ov, oldOv, stored, w.parses) && !t.Rejected?
              && Passes(before.spec, after.spec, after.deleting, t, ov.plans)
    ensures Updated(w, before, after, uuid).Stored? ==>
              var next := Updated(w, before, after, uuid).instance;
              && next == after.(spec := Spec(after.spec.ovRef, stored, next.spec.execution))
              && Executes(before.spec, after.spec, after.deleting, t, ov.plans, uuid, next.spec.execution)
  {
    var p, q := before.spec.parameters, after.spec.parameters;
    stored := StoredParams(before, after, ov, oldOv);
    t := TriggeredBy(CountedDefs(p, q, oldOv.parameters, ov.parameters), ov.plans);
    ParamsStoredExactly(before, after, ov, oldOv);
    TriggeredExactly(CountedDefs(p, q, oldOv.parameters, ov.parameters), ov.plans, t);
    AdmitExactly(w, before, after, ov, oldOv, stored, t);
    var v := PlanVerdict(before, after, t, ov.plans);
    if !v.Denied? { ExecutesExactly(before, after, t, ov.plans, uuid); }
    UpdatedIs(w, before, after, ov, oldOv, uuid);
  }

  lemma {:induction false} UpdatedIs(w: World, before: InstanceData, after: InstanceData, ov: OperatorVersion,
                                     oldOv: OperatorVersion, uuid: UID)
    requires Judges(w, before.spec, after.spec, ov, oldOv) && !Alike(before, after)
    ensures
      var v, r := Admit(before, after, ov, oldOv, w.parses), Updated(w, before, after, uuid);
      && r.Stored? == !v.Denied?
      && (!v.Denied? ==> r.instance == after.(spec :=
            Spec(after.spec.ovRef, StoredParams(before, after, ov, oldOv), ExecutionOf(after, v, uuid))))
  {
    var v := Admit(before, after, ov, oldOv, w.parses);
    if v.Unchanged? { UnchangedIsNoUpgrade(before, after, ov, oldOv, w.parses); }
  }

  ghost function ExecutionOf(after: InstanceData, v: Verdict, uuid: UID): PlanExecution {
    if v.Schedules? then Scheduled(v.plan, uuid) else after.spec.execution
  }

  lemma {:induction false} ExecutesExactly(before: InstanceData, after: InstanceData, t: Trigger,
                                           plans: map<string, Plan>, uuid: UID)
    requires !PlanVerdict(before, after, t, plans).Denied? && (t.Triggers? ==> t.plan != "")
    ensures Executes(before.spec, after.spec, after.deleting, t, plans, uuid,
                     ExecutionOf(after, PlanVerdict(before, after, t, plans), uuid))
  {
    DeletionRules(before.spec.execution.planName, after.spec.execution.planName, t, IsUpgrade(before, after));
    NormalLifeRules(before.spec.execution, after.spec.execution, t, IsUpgrade(before, after), plans);
  }

  lemma {:induction false} AdmitExactly(w: World, before: InstanceData, after: InstanceData, ov: OperatorVersion,
                                        oldOv: OperatorVersion, stored: Params, t: Trigger)
    requires Judges(w, before.spec, after.spec, ov, oldOv) && stored == StoredParams(before, after, ov, oldOv)
    requires t == TriggeredBy(CountedDefs(before.spec.parameters, after.spec.parameters, oldOv.parameters,
                                          ov.parameters), ov.plans)
    ensures
      var v := Admit(before, after, ov, oldOv, w.parses);
      && (!v.Denied? <==>
            && Proper(before.spec, after.spec, ov, oldOv, stored, w.parses) && !t.Rejected?
            && Passes(before.spec, after.spec, after.deleting, t, ov.plans))
      && (!v.Denied? ==> v == PlanVerdict(before, after, t, ov.plans))
  {
    var p, q := before.spec.parameters, after.spec.parameters;
    ValuesExactly(ov.parameters, stored, w.parses);
    forall k ensures Named(ov.parameters, k) <==> Defined(ov.parameters, k) { NamedIsDefined(ov.parameters, k); }
    assert forall k :: k in ChangedKeys(p, q) <==> Changed(p, q, k);
    if AllDefined(ov.parameters, ChangedKeys(p, q)) {
      ImmutablesExactly(before, after, ov, oldOv);
      CountedExactly(p, q, oldOv.parameters, ov.parameters);
      PlansExactly(before, after, t, ov.plans);
    }
  }

  ghost function PlanVerdict(before: InstanceData, after: InstanceData, t: Trigger, plans: map<string, Plan>): Verdict {
    if after.deleting
    then WhileDeleting(before.spec.execution.planName, after.spec.execution.planName, t, IsUpgrade(before, after))
    else InNormalLife(before.spec.execution, after.spec.execution, t, IsUpgrade(before, after), plans)
  }

  lemma {:induction false} PlansExactly(before: InstanceData, after: InstanceData, t: Trigger, plans: map<string, Plan>)
    ensures !PlanVerdict(before, after, t, plans).Denied? <==>
            Passes(before.spec, after.spec, after.deleting, t, plans)
  {
    DeletionRules(before.spec.execution.planName, after.spec.execution.planName, t, IsUpgrade(before, after));
    NormalLifeRules(before.spec.execution, after.spec.execution, t, IsUpgrade(before, after), plans);
  }

  /** The first rule that an update breaks names the reason of its refusal. */
  lemma {:induction false} RefusedWhy(w: World, before: InstanceData, after: InstanceData, ov: OperatorVersion,
                                      oldOv: OperatorVersion, uuid: UID)
    returns (stored: Params, t: Trigger)
    requires Judges(w, before.spec, after.spec, ov, oldOv) && !Alike(before, after)
    ensures ParamsStored(before.spec, after.spec, ov, oldOv, stored)
    ensures TriggerIs(CountedDefs(before.spec.parameters, after.spec.parameters, oldOv.parameters, ov.parameters),
                      ov.plans, t)
    ensures
      var r, plan := Updated(w, before, after, uuid), after.spec.execution.planName;
      if plan != "" && plan !in ov.plans then r == Refused(UnknownPlan)
      else if exists k :: Changed(before.spec.parameters, after.spec.parameters, k) && !Named(ov.parameters, k) then
        r == Refused(UnknownParameter)
      else if !ImmutablesOk(before.spec, after.spec, ov, oldOv) then r == Refused(ImmutableParameter)
      else if !ValuesOk(ov.parameters, stored, w.parses) then r == Refused(InvalidParameter)
      else t.Rejected? ==> r == Refused(BadTrigger)
  {
    var p, q := before.spec.parameters, after.spec.parameters;
    stored, t := UpdateExactly(w, before, after, ov, oldOv, uuid);
    ParamsStoredExactly(before, after, ov, oldOv);
    assert stored == StoredParams(before, after, ov, oldOv);
    TriggeredExactly(CountedDefs(p, q, oldOv.parameters, ov.parameters), ov.plans, t);
    AdmitWhy(w, before, after, ov, oldOv, stored, t);
  }

  lemma {:induction false} AdmitWhy(w: World, before: InstanceData, after: InstanceData, ov: OperatorVersion,
                                    oldOv: OperatorVersion, stored: Params, t: Trigger)
    requires Judges(w, before.spec, after.spec, ov, oldOv) && stored == StoredParams(before, after, ov, oldOv)
    requires t == TriggeredBy(CountedDefs(before.spec.parameters, after.spec.parameters, oldOv.parameters,
                                          ov.parameters), ov.plans)
    ensures
      var v, plan := Admit(before, after, ov, oldOv, w.parses), after.spec.execution.planName;
      if plan != "" && plan !in ov.plans then v == Denied(UnknownPlan)
      else if exists k :: Changed(before.spec.parameters, after.spec.parameters, k) && !Named(ov.parameters, k) then
        v == Denied(UnknownParameter)
      else if !ImmutablesOk(before.spec, after.spec, ov, oldOv) then v == Denied(ImmutableParameter)
      else if !ValuesOk(ov.parameters, stored, w.parses) then v == Denied(InvalidParameter)
      else t.Rejected? ==> v == Denied(BadTrigger)
  {
    var p, q := before.spec.parameters, after.spec.parameters;
    ValuesExactly(ov.parameters, stored, w.parses);
    forall k ensures Named(ov.parameters, k) <==> Defined(ov.parameters, k) { NamedIsDefined(ov.parameters, k); }
    assert forall k :: k in ChangedKeys(p, q) <==> Changed(p, q, k);
    if AllDefined(ov.parameters, ChangedKeys(p, q)) {
      ImmutablesExactly(before, after, ov, oldOv);
      CountedExactly(p, q, oldOv.parameters, ov.parameters);
    }
  }

  /** Nothing is stored without the operator versions to judge it by, except where spec and status
      are as before: that is never even looked at. */
  lemma {:induction false} StoredIsJudged(w: World, before: InstanceData, after: InstanceData, uuid: UID)
    ensures Alike(before, after) ==> Updated(w, before, after, uuid) == Stored(after)
    ensures !Alike(before, after) && !(exists ov, oldOv :: Judges(w, before.spec, after.spec, ov, oldOv)) ==>
              Updated(w, before, after, uuid) == Refused(NoOperatorVersion)
  {
    if after.spec.ovRef in w.ovs && (IsUpgrade(before, after) ==> before.spec.ovRef in w.ovs) {
      var ov := w.ovs[after.spec.ovRef];
      assert Judges(w, before.spec, after.spec, ov, if IsUpgrade(before, after) then w.ovs[before.spec.ovRef] else ov);
    }
  }

  /** Hence an admitted change of a parameter that has a trigger, and so its removal, makes that
      very plan run under a new UID, unless the instance is upgraded or being deleted. */
  lemma {:induction false} TouchedParameterSchedules(w: World, before: InstanceData, after: InstanceData, uuid: UID,
                                                     d: Parameter)
    requires Updated(w, before, after, uuid).Stored? && !after.deleting
    requires after.spec.ovRef == before.spec.ovRef && after.spec.ovRef in w.ovs
    requires FirstDef(w.ovs[after.spec.ovRef].parameters, d) && d.trigger != ""
    requires
      var p, q := before.spec.parameters, after.spec.parameters;
      || Changed(p, q, d.name)
      || (Removed(p, q, d.name)
          && forall k | Removed(p, q, k) :: Named(w.ovs[after.spec.ovRef].parameters, k))
    ensures Updated(w, before, after, uuid).instance.spec.execution == PlanExecution(d.trigger, uuid, NeverRun)
  {
    var ov := w.ovs[after.spec.ovRef];
    var p, q := before.spec.parameters, after.spec.parameters;
    assert p != q;
    var stored, t := UpdateExactly(w, before, after, ov, ov, uuid);
    assert d in ov.parameters;
    assert d in CountedDefs(p, q, ov.parameters, ov.parameters);
  }

  // ----- creation -----

  /** `v` is the default of the first immutable definition called `k` that has a default. */
  ghost predicate DefaultFor(defs: seq<Parameter>, k: string, v: string) {
    exists n | 0 <= n < |defs| ::
      && defs[n].name == k && defs[n].immutable && defs[n].default == Some(v)
      && forall m | 0 <= m < n && defs[m].name == k :: !defs[m].immutable || defs[m].default.None?
  }

  /** Whatever was sent stays; of what was not, immutable defaults are added, and nothing else. */
  ghost predicate DefaultsAdded(defs: seq<Parameter>, sent: Params, stored: Params) {
    && (forall k | k in sent :: k in stored && stored[k] == sent[k])
    && (forall d | d in defs && d.immutable && d.default.Some? :: d.name in stored)
    && (forall k | k in stored && k !in sent :: DefaultFor(defs, k, stored[k]))
  }

  lemma {:induction false} DefaultsAddedExactly(defs: seq<Parameter>, sent: Params)
    ensures DefaultsAdded(defs, sent, WithImmutableDefaults(defs, sent))
  {
    if defs != [] {
      var d, stored := defs[0], WithImmutableDefaults(defs, sent);
      var next := if d.immutable && d.default.Some? && d.name !in sent then sent[d.name := d.default.value] else sent;
      DefaultsAddedExactly(defs[1..], next);
      forall k | k in stored && k !in sent ensures DefaultFor(defs, k, stored[k]) {
        if k !in next { DefaultIsLater(defs, k, stored[k]); }
      }
    }
  }

  lemma {:induction false} DefaultIsLater(defs: seq<Parameter>, k: string, v: string)
    requires defs != [] && DefaultFor(defs[1..], k, v)
    requires defs[0].name == k ==> !defs[0].immutable || defs[0].default.None?
    ensures DefaultFor(defs, k, v)
  {
    var n :| 0 <= n < |defs[1..]| && defs[1..][n].name == k && defs[1..][n].immutable && defs[1..][n].default == Some(v)
      && forall m | 0 <= m < n && defs[1..][m].name == k :: !defs[1..][m].immutable || defs[1..][m].default.None?;
    assert defs[n + 1] == defs[1..][n];
    forall m | 0 <= m < n + 1 && defs[m].name == k ensures !defs[m].immutable || defs[m].default.None? {
      if m > 0 { assert defs[m] == defs[1..][m - 1]; }
    }
  }

  /** Exactly the instances with a deploy plan and acceptable parameters are created, to deploy
      under the webhook's UID, with the cleanup finalizer if cleanup is still to run. */
  lemma {:induction false} CreateExactly(w: World, i: InstanceData, cleanup: Option<PlanStatus>, uuid: UID,
                                         ov: OperatorVersion)
    returns (stored: Params)
    requires i.spec.ovRef in w.ovs ==> ov == w.ovs[i.spec.ovRef]
    ensures DefaultsAdded(ov.parameters, i.spec.parameters, stored)
    ensures Created(w, i, cleanup, uuid).Stored? <==>
            i.spec.ovRef in w.ovs && DEPLOY in ov.plans && ValuesOk(ov.parameters, stored, w.parses)
    ensures Created(w, i, cleanup, uuid).Stored? ==>
              var next := Created(w, i, cleanup, uuid).instance;
              && next == i.(finalizers := next.finalizers,
                            spec := Spec(i.spec.ovRef, stored, PlanExecution(DEPLOY, uuid, i.spec.execution.status)))
              && next.finalizers ==
                 i.finalizers
                 + if CLEANUP in ov.plans && CLEANUP_FINALIZER !in i.finalizers
                     && (cleanup.None? || cleanup.value.status == NeverRun)
                   then [CLEANUP_FINALIZER] else []
  {
    stored := WithImmutableDefaults(ov.parameters, i.spec.parameters);
    DefaultsAddedExactly(ov.parameters, i.spec.parameters);
    ValuesExactly(ov.parameters, stored, w.parses);
  }
}
