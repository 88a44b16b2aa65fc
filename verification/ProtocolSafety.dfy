/** What holds in every reachable state of the instance protocol. */
module ProtocolSafety {
  import opened Plans
  import opened Parameters
  import opened Instances
  import opened Admission
  import opened Controller
  import opened Engine
  import opened Protocol
  import EngineStatus

  // ----- what one reconciliation may change -----

  /** What may differ between the instance `s` that has its plan scheduled and `next`. */
  ghost predicate Evolved(s: InstanceData, next: InstanceData) {
    var plan := s.spec.execution.planName;
    && KeyedByName(next.planStatus) && s.planStatus.Keys <= next.planStatus.Keys
    && next.spec == s.spec.(execution := s.spec.execution.(status := next.spec.execution.status))
    && next.deleting == s.deleting
    && (next.spec.execution.status == s.spec.execution.status
        || (plan in next.planStatus && next.spec.execution.status == next.planStatus[plan].status))
    && (forall k | k in next.planStatus && k != plan ::
          next.planStatus[k].status == if k in s.planStatus then s.planStatus[k].status else NeverRun)
  }

  lemma {:induction false} WithStatusEvolves(s: InstanceData, next: InstanceData, ps: PlanStatus, now: Mark)
    requires Evolved(s, next) && ps.name == s.spec.execution.planName && ps.name in next.planStatus
    ensures Evolved(s, WithStatus(next, ps, now))
  {
  }

  lemma {:induction false} InitEvolves(s: InstanceData, plans: map<string, Plan>)
    requires KeyedByName(s.planStatus)
    ensures Evolved(s, s.(planStatus := InitStatus(s.planStatus, plans)))
  {
    InitKeepsNames(s.planStatus, plans);
  }

  lemma {:induction false} PreparedEvolves(s: InstanceData, ov: OperatorVersion, now: Mark)
    requires KeyedByName(s.planStatus) && Prepared(s, ov, now).Some?
    ensures Evolved(s, Prepared(s, ov, now).value)
  {
    var t, plan := s.(planStatus := InitStatus(s.planStatus, ov.plans)), s.spec.execution.planName;
    InitEvolves(s, ov.plans);
    WithStatusEvolves(s, t, ResetTree(t.planStatus[plan], s.spec.execution.uid), now);
  }

  lemma {:induction false} AdvancedEvolves(s: InstanceData, r: InstanceData, ov: OperatorVersion, x: Inputs)
    requires Evolved(s, r) && s.spec.execution.planName in r.planStatus
    ensures Advanced(r, ov, x).Writes? && Evolved(s, Advanced(r, ov, x).next)
    ensures Advanced(r, ov, x).next.finalizers == r.finalizers
  {
    var plan := s.spec.execution.planName;
    var ps := r.planStatus[plan];
    if !x.resolves {
      WithStatusEvolves(s, r, ps.(status := FatalError), x.now);
    } else if plan in ov.plans && x.prepares {
      var c := Pass(ov.plans[plan], ov.tasks, x.ask, x.pass);
      EngineStatus.PassKeepsIdentity(c, ps, []);
      WithStatusEvolves(s, r, ExecutePass(c, ps, []).tree, x.now);
    }
  }

  lemma {:induction false} EvolvedFrame(s: InstanceData, readiness: string, next: InstanceData)
    requires Evolved(s.(readiness := readiness), next)
    ensures Evolved(s, next) && Evolved(s, WithoutFinalizer(next))
  {
  }

  lemma {:induction false} NextFacts(w: World, i: InstanceData, x: Inputs)
    requires KeyedByName(i.planStatus) && Reconciled(w, i, x).Writes?
    ensures
      var s := WithCleanup(i, w.ovs[i.spec.ovRef], x.uuid);
      Evolved(s, NextOf(w, i, x)) && Reconciled(w, i, x).next.finalizers == i.finalizers
  {
    var ov := w.ovs[i.spec.ovRef];
    var i' := WithCleanup(i, ov, x.uuid);
    var s := i'.(readiness := x.readiness);
    if s.spec.execution.planName != "" {
      PreparedEvolves(s, ov, x.now);
      AdvancedEvolves(s, Prepared(s, ov, x.now).value, ov, x);
    }
    EvolvedFrame(i', x.readiness, Reconciled(w, i, x).next);
  }

  lemma {:induction false} IdleChangesNoStatus(w: World, i: InstanceData, x: Inputs)
    requires Reconciled(w, i, x).Writes? && WithCleanup(i, w.ovs[i.spec.ovRef], x.uuid).spec.execution.planName == ""
    ensures NextOf(w, i, x).planStatus == i.planStatus && Reconciled(w, i, x).runs == []
  {
  }

  // ----- the basic invariant: optimistic concurrency -----

  /** A reconciliation in flight whose version is still current was computed from exactly what
      is stored; after its first write the stored status is still the one it was computed from. */
  ghost predicate Basic(w: World, s: State) {
    && (s.reg.obj.Some? ==> KeyedByName(s.reg.obj.value.planStatus))
    && s.finished <= s.used
    && (s.reg.obj.Some? ==> s.reg.obj.value.spec.execution.uid in s.used + {""})
    && CtlOk(w, s.ctl)
    && (!s.ctl.Idle? ==> s.ctl.x.uuid in s.used && s.ctl.base.spec.execution.uid in s.used + {""})
    && (!s.ctl.Idle? ==> s.ctl.version <= s.reg.version && KeyedByName(s.ctl.base.planStatus))
    && (s.ctl.Computed? && s.ctl.version == s.reg.version ==> s.reg.obj == Some(s.ctl.base))
    && (s.ctl.SpecWritten? && s.ctl.version == s.reg.version && s.reg.obj.Some? ==>
          s.reg.obj.value.planStatus == s.ctl.base.planStatus && s.reg.obj.value.deleting == s.ctl.base.deleting)
  }

  lemma {:induction false} BasicKept(w: World, s: State, a: Action)
    requires Basic(w, s)
    ensures Basic(w, Next(w, s, a))
  {
    match a {
      case Update(after, uuid) =>
        if PutInstance(w, s.reg, after, s.reg.version, uuid).Some? { PutFacts(w, s.reg, after, s.reg.version, uuid); }
      case WriteSpec(uuid) => BasicWriteSpec(w, s, uuid);
      case WriteStatus => BasicWriteStatus(w, s);
      case WriteBoth(uuid) =>
        BasicWriteSpec(w, s, uuid);
        BasicWriteStatus(w, DoWriteSpec(w, s, uuid));
      case _ =>
    }
  }

  /** An instance write never touches the status, and stores a UID that was sent or generated. */
  lemma {:induction false} PutFacts(w: World, r: Register, sent: InstanceData, version: nat, uuid: UID)
    requires PutInstance(w, r, sent, version, uuid).Some?
    ensures r.obj.Some? && version == r.version
    ensures
      var r' := PutInstance(w, r, sent, version, uuid).value;
      && r'.version == r.version + 1
      && (r'.obj.Some? ==>
            && r'.obj.value.planStatus == r.obj.value.planStatus && r'.obj.value.deleting == r.obj.value.deleting
            && r'.obj.value.spec.execution.uid in {uuid, "", sent.spec.execution.uid})
  {
    var i := Updated(w, r.obj.value, sent.(deleting := r.obj.value.deleting), uuid).instance;
    assert i.spec.execution.uid in {uuid, "", sent.spec.execution.uid};
  }

  lemma {:induction false} BasicWriteSpec(w: World, s: State, uuid: UID)
    requires Basic(w, s)
    ensures Basic(w, DoWriteSpec(w, s, uuid))
  {
    if s.ctl.Computed? {
      var next := NextOf(w, s.ctl.base, s.ctl.x);
      NextFacts(w, s.ctl.base, s.ctl.x);
      if PutInstance(w, s.reg, next, s.ctl.version, uuid).Some? { PutFacts(w, s.reg, next, s.ctl.version, uuid); }
    }
  }

  lemma {:induction false} BasicWriteStatus(w: World, s: State)
    requires Basic(w, s)
    ensures Basic(w, DoWriteStatus(w, s))
  {
    if s.ctl.SpecWritten? { NextFacts(w, s.ctl.base, s.ctl.x); }
  }

  lemma {:induction false} AlwaysBasic(w: World, acts: seq<Action>)
    ensures Basic(w, After(w, acts))
  {
    if acts != [] {
      AlwaysBasic(w, acts[..|acts| - 1]);
      BasicKept(w, After(w, acts[..|acts| - 1]), acts[|acts| - 1]);
    }
  }

  // ----- the controller never blocks itself -----

  /** No parameter of any operator version triggers the cleanup plan. */
  ghost predicate NoCleanupTrigger(w: World) {
    forall r, p | r in w.ovs && p in w.ovs[r].parameters :: p.trigger != CLEANUP
  }

  /** The stored plan exists and is not `cleanup`, and the stored parameters are valid. */
  ghost predicate Sound(w: World, i: InstanceData) {
    && i.spec.ovRef in w.ovs
    && ParamsValid(w.ovs[i.spec.ovRef].parameters, i.spec.parameters, w.parses)
    && (i.spec.execution.planName != "" ==>
          i.spec.execution.planName in w.ovs[i.spec.ovRef].plans && i.spec.execution.planName != CLEANUP)
  }

  /** Soundness but for the part that depends on what parameters trigger. */
  ghost predicate SoundButCleanup(w: World, i: InstanceData) {
    && i.spec.ovRef in w.ovs
    && ParamsValid(w.ovs[i.spec.ovRef].parameters, i.spec.parameters, w.parses)
    && (i.spec.execution.planName != "" ==> i.spec.execution.planName in w.ovs[i.spec.ovRef].plans)
  }

  /** The definitions an update counts towards its trigger. */
  ghost function Counted(w: World, before: InstanceData, after: InstanceData): set<Parameter>
    requires after.spec.ovRef in w.ovs && (IsUpgrade(before, after) ==> before.spec.ovRef in w.ovs)
    requires AllDefined(w.ovs[after.spec.ovRef].parameters, ChangedKeys(before.spec.parameters, after.spec.parameters))
  {
    var ov := w.ovs[after.spec.ovRef];
    var oldOv := if IsUpgrade(before, after) then w.ovs[before.spec.ovRef] else ov;
    var p, q := before.spec.parameters, after.spec.parameters;
    ChangedDefs(p, q, oldOv.parameters, ov.parameters) + RemovedDefs(p, q, ov.parameters)
  }

  lemma {:induction false} TriggeredPlanExists(w: World, before: InstanceData, after: InstanceData)
    requires after.spec.ovRef in w.ovs && (IsUpgrade(before, after) ==> before.spec.ovRef in w.ovs)
    requires AllDefined(w.ovs[after.spec.ovRef].parameters, ChangedKeys(before.spec.parameters, after.spec.parameters))
    requires TriggeredBy(Counted(w, before, after), w.ovs[after.spec.ovRef].plans).Triggers?
    ensures
      var plan := TriggeredBy(Counted(w, before, after), w.ovs[after.spec.ovRef].plans).plan;
      plan in w.ovs[after.spec.ovRef].plans && (NoCleanupTrigger(w) ==> plan != CLEANUP)
  {
    var defs, ov := Counted(w, before, after), w.ovs[after.spec.ovRef];
    TriggeredPlanIsNamed(defs, ov.plans);
    assert forall p | p in defs :: p in ov.parameters;
    if NoCleanupTrigger(w) && exists p | p in defs :: p.trigger != "" {
      var p :| p in defs && p.trigger != "";
      assert p.trigger != CLEANUP;
    }
  }

  /** Whatever is admitted on an instance that is not being deleted is valid and names a plan
      that exists, other than `cleanup` unless a parameter triggers that. */
  lemma {:induction false} AdmittedExists(w: World, before: InstanceData, after: InstanceData, uuid: UID)
    requires !after.deleting && Updated(w, before, after, uuid).Stored?
    requires MetadataOnly(before, after) ==> SoundButCleanup(w, before)
    ensures SoundButCleanup(w, Updated(w, before, after, uuid).instance)
    ensures NoCleanupTrigger(w) && !MetadataOnly(before, after) ==>
              Updated(w, before, after, uuid).instance.spec.execution.planName != CLEANUP
  {
    if !MetadataOnly(before, after) {
      var trigger := TriggeredBy(Counted(w, before, after), w.ovs[after.spec.ovRef].plans);
      if trigger.Triggers? { TriggeredPlanExists(w, before, after); }
      var ov := w.ovs[after.spec.ovRef];
      VerdictPlan(before.spec.execution, after.spec.execution, trigger, IsUpgrade(before, after), ov.plans);
    }
  }

  /** The same for the part that also holds during deletion. */
  lemma {:induction false} AdmittedWhileDeleting(w: World, before: InstanceData, after: InstanceData, uuid: UID)
    requires after.deleting && Updated(w, before, after, uuid).Stored?
    requires MetadataOnly(before, after) ==> SoundButCleanup(w, before)
    ensures SoundButCleanup(w, Updated(w, before, after, uuid).instance)
  {
  }

  lemma {:induction false} VerdictPlan(before: PlanExecution, after: PlanExecution, trigger: Trigger, isUpgrade: bool,
                                       plans: map<string, Plan>)
    requires trigger.Triggers? ==> trigger.plan in plans
    requires after.planName != "" ==> after.planName in plans
    ensures
      var v := InNormalLife(before, after, trigger, isUpgrade, plans);
      && (v.Unchanged? ==> after.planName != CLEANUP)
      && (v.Schedules? && v.plan != "" ==> v.plan in plans)
      && (v.Schedules? && v.plan == CLEANUP ==> trigger == Triggers(CLEANUP))
  {
  }

  lemma {:induction false} AdmittedIsSound(w: World, before: InstanceData, after: InstanceData, uuid: UID)
    requires NoCleanupTrigger(w) && !after.deleting
    requires Updated(w, before, after, uuid).Stored? && (MetadataOnly(before, after) ==> Sound(w, before))
    ensures Sound(w, Updated(w, before, after, uuid).instance)
  {
    AdmittedExists(w, before, after, uuid);
  }

  ghost predicate SoundState(w: World, s: State) {
    s.reg.obj.Some? && !s.reg.obj.value.deleting ==> Sound(w, s.reg.obj.value)
  }

  lemma {:induction false} PutIsSound(w: World, r: Register, sent: InstanceData, version: nat, uuid: UID)
    requires NoCleanupTrigger(w)
    requires r.obj.Some? && !r.obj.value.deleting ==> Sound(w, r.obj.value)
    ensures
      var r' := PutInstance(w, r, sent, version, uuid);
      r'.Some? && r'.value.obj.Some? && !r'.value.obj.value.deleting ==> Sound(w, r'.value.obj.value)
  {
    var r' := PutInstance(w, r, sent, version, uuid);
    if r'.Some? && !r.obj.value.deleting {
      AdmittedIsSound(w, r.obj.value, sent.(deleting := false), uuid);
    }
  }

  lemma {:induction false} SoundKept(w: World, s: State, a: Action)
    requires NoCleanupTrigger(w) && Basic(w, s) && SoundState(w, s)
    ensures SoundState(w, Next(w, s, a))
  {
    match a {
      case Update(after, uuid) => PutIsSound(w, s.reg, after, s.reg.version, uuid);
      case WriteSpec(uuid) => SoundWriteSpec(w, s, uuid);
      case WriteBoth(uuid) => SoundWriteSpec(w, s, uuid);
      case _ =>
    }
  }

  lemma {:induction false} SoundWriteSpec(w: World, s: State, uuid: UID)
    requires NoCleanupTrigger(w) && Basic(w, s) && SoundState(w, s)
    ensures SoundState(w, DoWriteSpec(w, s, uuid))
  {
    if s.ctl.Computed? {
      PutIsSound(w, s.reg, NextOf(w, s.ctl.base, s.ctl.x), s.ctl.version, uuid);
    }
  }

  lemma {:induction false} AlwaysSound(w: World, acts: seq<Action>)
    requires NoCleanupTrigger(w)
    ensures SoundState(w, After(w, acts))
  {
    if acts != [] {
      var n := |acts| - 1;
      AlwaysSound(w, acts[..n]);
      AlwaysBasic(w, acts[..n]);
      SoundKept(w, After(w, acts[..n]), acts[n]);
    }
  }

  /** The webhook's answer to a write that changes nothing but the execution status. */
  lemma {:induction false} ProgressVerdict(w: World, before: InstanceData, after: InstanceData, uuid: UID)
    requires !before.deleting && !after.deleting && before.spec.ovRef in w.ovs
    requires after.spec == before.spec.(execution := before.spec.execution.(status := after.spec.execution.status))
    requires !MetadataOnly(before, after)
    ensures
      var ov, plan := w.ovs[before.spec.ovRef], before.spec.execution.planName;
      var r := Updated(w, before, after, uuid);
      if plan != "" && plan !in ov.plans then r == Refused(UnknownPlan)
      else if !ParamsValid(ov.parameters, before.spec.parameters, w.parses) then r == Refused(InvalidParameter)
      else if plan == CLEANUP then r == Refused(CleanupRequested)
      else if after.spec.execution.status.IsTerminal()
           then r == Stored(after.(spec := after.spec.(execution := PlanExecution("", "", Unset))))
      else r == Stored(after)
  {
    var p := before.spec.parameters;
    assert ChangedKeys(p, p) == {} && RemovedKeys(p, p) == {};
  }

  /** A reconciliation is in flight, and what it was computed from is still what is stored. */
  ghost predicate InFlight(s: State) {
    s.ctl.Computed? && s.ctl.version == s.reg.version
  }

  /** The status of a plan is updated, unless the plan cannot be prepared. */
  predicate Updates(ov: OperatorVersion, plan: string, x: Inputs) {
    !x.resolves || (plan in ov.plans && x.prepares)
  }

  /** What a reconciliation makes of the initialised tree of a plan it resumes. */
  ghost function Resumes(ov: OperatorVersion, plan: string, tree: PlanStatus, x: Inputs): PlanStatus {
    if !Updates(ov, plan, x) then tree
    else if !x.resolves then Stamped(tree.(status := FatalError), x.now)
    else Stamped(ExecutePass(Pass(ov.plans[plan], ov.tasks, x.ask, x.pass), tree, []).tree, x.now)
  }

  /** A reconciliation of `i` leaves spec and status alone: the stored execution is resumed, and
      with its status updated, down to the mark of the update, all statuses are as they were. */
  ghost predicate NothingStirs(w: World, i: InstanceData, x: Inputs)
    requires i.spec.ovRef in w.ovs
  {
    var ov, e, all := w.ovs[i.spec.ovRef], i.spec.execution, InitStatus(i.planStatus, w.ovs[i.spec.ovRef].plans);
    && !MustScheduleCleanup(i, ov) && i.readiness == x.readiness
    && e.planName in i.planStatus && i.planStatus[e.planName].uid == e.uid
    && (var end := Resumes(ov, e.planName, all[e.planName], x);
        i.planStatus == all[e.planName := end] && (Updates(ov, e.planName, x) ==> e.status == end.status))
  }

  /** That is exactly when its first write, if there is one, changes nothing but metadata. */
  lemma {:induction false} MetadataOnlyExactly(w: World, i: InstanceData, x: Inputs)
    requires KeyedByName(i.planStatus) && Reconciled(w, i, x).Writes?
    ensures MetadataOnly(i, NextOf(w, i, x)) <==> NothingStirs(w, i, x)
  {
    var ov, e := w.ovs[i.spec.ovRef], i.spec.execution;
    if MustScheduleCleanup(i, ov) {
      NextFacts(w, i, x);
    } else if e.planName != "" {
      if InitStatus(i.planStatus, ov.plans)[e.planName].uid == e.uid {
        ResumedMetadata(w, i, x);
      } else {
        StartedMetadata(w, i, x);
      }
    }
  }

  /** In particular never, if the status of the plan is updated at another time than it was last,
      or with other messages. */
  lemma {:induction false} LaterUpdateStirs(w: World, i: InstanceData, x: Inputs)
    requires i.spec.ovRef in w.ovs && Updates(w.ovs[i.spec.ovRef], i.spec.execution.planName, x)
    requires
      var plan := i.spec.execution.planName;
      plan in i.planStatus ==> i.planStatus[plan].updated != Some(x.now)
    ensures !NothingStirs(w, i, x)
  {
  }

  lemma {:induction false} ResumedMetadata(w: World, i: InstanceData, x: Inputs)
    requires KeyedByName(i.planStatus) && Reconciled(w, i, x).Writes?
    requires !MustScheduleCleanup(i, w.ovs[i.spec.ovRef]) && i.spec.execution.planName != ""
    requires
      var all := InitStatus(i.planStatus, w.ovs[i.spec.ovRef].plans);
      i.spec.execution.planName in all && all[i.spec.execution.planName].uid == i.spec.execution.uid
    ensures MetadataOnly(i, NextOf(w, i, x)) <==> NothingStirs(w, i, x)
  {
    var ov := w.ovs[i.spec.ovRef];
    var r := i.(readiness := x.readiness, planStatus := InitStatus(i.planStatus, ov.plans));
    InitKeepsNames(i.planStatus, ov.plans);
    ResumesExactly(r, ov, x);
    assert NextOf(w, i, x) == WithoutFinalizer(Advanced(r, ov, x).next);
  }

  lemma {:induction false} StartedMetadata(w: World, i: InstanceData, x: Inputs)
    requires KeyedByName(i.planStatus) && Reconciled(w, i, x).Writes?
    requires !MustScheduleCleanup(i, w.ovs[i.spec.ovRef]) && i.spec.execution.planName != ""
    requires
      var all := InitStatus(i.planStatus, w.ovs[i.spec.ovRef].plans);
      i.spec.execution.planName in all && all[i.spec.execution.planName].uid != i.spec.execution.uid
    ensures !MetadataOnly(i, NextOf(w, i, x)) && !NothingStirs(w, i, x)
  {
    var ov := w.ovs[i.spec.ovRef];
    var s := i.(readiness := x.readiness);
    StartsAnew(s, ov, x);
    assert NextOf(w, i, x) == WithoutFinalizer(Advanced(Prepared(s, ov, x.now).value, ov, x).next);
  }

  lemma {:induction false} ResumesExactly(r: InstanceData, ov: OperatorVersion, x: Inputs)
    requires r.spec.execution.planName in r.planStatus && KeyedByName(r.planStatus)
    ensures
      var plan, next := r.spec.execution.planName, Advanced(r, ov, x).next;
      var end := Resumes(ov, plan, r.planStatus[plan], x);
      && next.planStatus == r.planStatus[plan := end] && next.readiness == r.readiness
      && next.finalizers == r.finalizers && next.deleting == r.deleting
      && next.spec == r.spec.(execution := r.spec.execution.(status :=
           if Updates(ov, plan, x) then end.status else r.spec.execution.status))
  {
    var plan := r.spec.execution.planName;
    if x.resolves && plan in ov.plans && x.prepares {
      EngineStatus.PassKeepsIdentity(Pass(ov.plans[plan], ov.tasks, x.ask, x.pass), r.planStatus[plan], []);
    } else {
      assert r.planStatus[plan := r.planStatus[plan]] == r.planStatus;
    }
  }

  /** The runs that a reconciliation makes. */
  ghost function MadeBy(ov: OperatorVersion, plan: string, tree: PlanStatus, x: Inputs): seq<Run> {
    if x.resolves && plan in ov.plans && x.prepares
    then ExecutePass(Pass(ov.plans[plan], ov.tasks, x.ask, x.pass), tree, []).log else []
  }

  /** Preparing changes no other tree than that of the scheduled plan. */
  lemma {:induction false} PreparedTrees(s: InstanceData, ov: OperatorVersion, now: Mark)
    requires KeyedByName(s.planStatus) && Prepared(s, ov, now).Some?
    ensures
      var e, all, r := s.spec.execution, InitStatus(s.planStatus, ov.plans), Prepared(s, ov, now).value;
      && e.planName in r.planStatus && r.planStatus == all[e.planName := r.planStatus[e.planName]]
      && KeyedByName(r.planStatus) && r.deleting == s.deleting
      && r.readiness == s.readiness && r.finalizers == s.finalizers
      && r.spec == s.spec.(execution := e.(status := if all[e.planName].uid == e.uid then e.status else Pending))
  {
    var e, all := s.spec.execution, InitStatus(s.planStatus, ov.plans);
    InitKeepsNames(s.planStatus, ov.plans);
    assert all[e.planName := all[e.planName]] == all;
  }

  lemma {:induction false} AdvancedTrees(s: InstanceData, ov: OperatorVersion, x: Inputs)
    requires KeyedByName(s.planStatus) && Prepared(s, ov, x.now).Some?
        && s.spec.execution.planName in Prepared(s, ov, x.now).value.planStatus
    requires Prepared(s, ov, x.now).value.spec.execution.planName == s.spec.execution.planName
    ensures
      var e, all := s.spec.execution, InitStatus(s.planStatus, ov.plans);
      var tree := Prepared(s, ov, x.now).value.planStatus[e.planName];
      var end, next := Resumes(ov, e.planName, tree, x), Advanced(Prepared(s, ov, x.now).value, ov, x).next;
      && e.planName in all && next.planStatus == all[e.planName := end] && next.deleting == s.deleting
      && next.readiness == s.readiness && next.finalizers == s.finalizers
      && Advanced(Prepared(s, ov, x.now).value, ov, x).runs == MadeBy(ov, e.planName, tree, x)
      && next.spec == s.spec.(execution := e.(status :=
           if Updates(ov, e.planName, x) then end.status else if all[e.planName].uid == e.uid then e.status
             else Pending))
  {
    var e, all, r := s.spec.execution, InitStatus(s.planStatus, ov.plans), Prepared(s, ov, x.now).value;
    PreparedTrees(s, ov, x.now);
    ResumesExactly(r, ov, x);
    var end := Resumes(ov, e.planName, r.planStatus[e.planName], x);
    assert r.planStatus[e.planName := end] == all[e.planName := end];
  }

  /** The instance that a reconciliation goes by, and the tree that it goes on from. */
  ghost function Scheduling(w: World, i: InstanceData, x: Inputs): InstanceData
    requires i.spec.ovRef in w.ovs
  {
    WithCleanup(i, w.ovs[i.spec.ovRef], x.uuid).(readiness := x.readiness)
  }

  /** How the statuses come about that a reconciliation with a scheduled plan hands over. */
  lemma {:induction false} ReconcileTrees(w: World, i: InstanceData, x: Inputs)
    requires KeyedByName(i.planStatus) && Reconciled(w, i, x).Writes?
    requires Scheduling(w, i, x).spec.execution.planName != ""
    ensures
      var ov, s := w.ovs[i.spec.ovRef], Scheduling(w, i, x);
      var e, next, all := s.spec.execution, NextOf(w, i, x), InitStatus(i.planStatus, ov.plans);
      && Prepared(s, ov, x.now).Some? && e.planName in Prepared(s, ov, x.now).value.planStatus && e.planName in all
      && (var tree := Prepared(s, ov, x.now).value.planStatus[e.planName];
          var end := Resumes(ov, e.planName, tree, x);
          && next.planStatus == all[e.planName := end] && next.deleting == i.deleting
          && Reconciled(w, i, x).runs == MadeBy(ov, e.planName, tree, x)
          && next.spec == s.spec.(execution := e.(status :=
               if Updates(ov, e.planName, x) then end.status else if all[e.planName].uid == e.uid then e.status
                 else Pending)))
  {
    var ov, s := w.ovs[i.spec.ovRef], Scheduling(w, i, x);
    PreparedTrees(s, ov, x.now);
    AdvancedTrees(s, ov, x);
    assert NextOf(w, i, x) == WithoutFinalizer(Advanced(Prepared(s, ov, x.now).value, ov, x).next);
  }

  /** A plan that is started anew gets the UID of the execution. */
  lemma {:induction false} StartsAnew(s: InstanceData, ov: OperatorVersion, x: Inputs)
    requires KeyedByName(s.planStatus) && Prepared(s, ov, x.now).Some?
    requires
      var e, all := s.spec.execution, InitStatus(s.planStatus, ov.plans);
      all[e.planName].uid != e.uid
    ensures
      var e, r := s.spec.execution, Prepared(s, ov, x.now).value;
      && e.planName in r.planStatus && r.spec.execution.planName == e.planName
      && e.planName in Advanced(r, ov, x).next.planStatus && Advanced(r, ov, x).next.planStatus[e.planName].uid == e.uid
  {
    var e, r := s.spec.execution, Prepared(s, ov, x.now).value;
    InitKeepsNames(s.planStatus, ov.plans);
    PreparedEvolves(s, ov, x.now);
    ResumesExactly(r, ov, x);
    if Updates(ov, e.planName, x) && x.resolves {
      EngineStatus.PassKeepsIdentity(Pass(ov.plans[e.planName], ov.tasks, x.ask, x.pass), r.planStatus[e.planName], []);
    }
  }

  /** The first write of such a reconciliation changes more than metadata. */
  ghost predicate WritesSpec(w: World, s: State)
    requires InFlight(s) && CtlOk(w, s.ctl)
  {
    NeedsSpecWrite(s.ctl.base, NextOf(w, s.ctl.base, s.ctl.x)) && !NothingStirs(w, s.ctl.base, s.ctl.x)
  }

  /** In every reachable state outside deletion the first write of a reconciliation, if it makes
      one, is admitted. It clears a plan that has ended, provided that it really writes the spec;
      otherwise the plan stays and gets its new status. */
  lemma {:induction false} ControllerNeverBlocksItself(w: World, acts: seq<Action>, uuid: UID)
    requires NoCleanupTrigger(w) && InFlight(After(w, acts)) && !After(w, acts).ctl.base.deleting
    ensures
      var s := After(w, acts);
      var before, status := s.ctl.base.spec, NextOf(w, s.ctl.base, s.ctl.x).spec.execution.status;
      var s' := DoWriteSpec(w, s, uuid);
      && s'.ctl.SpecWritten? && s'.reg.obj.Some?
      && s'.reg.obj.value.spec == before.(execution :=
           if status.IsTerminal()
             && WritesSpec(w, s) then PlanExecution("", "", Unset) else before.execution.(status := status))
  {
    var s := After(w, acts);
    AlwaysBasic(w, acts);
    AlwaysSound(w, acts);
    var next := NextOf(w, s.ctl.base, s.ctl.x);
    MetadataOnlyExactly(w, s.ctl.base, s.ctl.x);
    NextFacts(w, s.ctl.base, s.ctl.x);
    assert next.(deleting := s.ctl.base.deleting) == next;
    if !MetadataOnly(s.ctl.base, next) { ProgressVerdict(w, s.ctl.base, next, uuid); }
  }

  /** So a plan that has ended stays scheduled exactly if its stored status already was the one it
      ended in, but for a write that is needed for the finalizer. */
  lemma {:induction false} EndedPlanStays(w: World, acts: seq<Action>, uuid: UID)
    requires NoCleanupTrigger(w) && InFlight(After(w, acts)) && !After(w, acts).ctl.base.deleting
    requires
      var s := After(w, acts);
      s.ctl.base.spec.execution.planName != "" && NextOf(w, s.ctl.base, s.ctl.x).spec.execution.status.IsTerminal()
    ensures
      var s, s' := After(w, acts), DoWriteSpec(w, After(w, acts), uuid);
      var base, next := s.ctl.base, NextOf(w, s.ctl.base, s.ctl.x);
      s'.reg.obj.Some? && (s'.reg.obj.value.spec.execution.planName != "" <==>
        && base.spec.execution.status == next.spec.execution.status
        && (next.finalizers == base.finalizers || NothingStirs(w, base, s.ctl.x)))
  {
    var s := After(w, acts);
    ControllerNeverBlocksItself(w, acts, uuid);
    AlwaysBasic(w, acts);
    MetadataOnlyExactly(w, s.ctl.base, s.ctl.x);
    NextFacts(w, s.ctl.base, s.ctl.x);
  }

  /** A plan that has ended under the stored status and UID is neither run nor cleared by any
      reconciliation that resolves its dependencies. */
  lemma {:induction false} EndedPlanIsLeftAlone(w: World, i: InstanceData, x: Inputs)
    requires i.spec.ovRef in w.ovs && KeyedByName(i.planStatus) && !i.deleting && x.resolves
    requires
      var e := i.spec.execution;
      && e.planName != "" && e.planName in i.planStatus && e.status.IsTerminal()
      && i.planStatus[e.planName].uid == e.uid && i.planStatus[e.planName].status == e.status
    ensures Reconciled(w, i, x).Writes? && Reconciled(w, i, x).runs == [] && NextOf(w, i, x).spec == i.spec
    ensures
      var e, statuses := i.spec.execution, NextOf(w, i, x).planStatus;
      e.planName in statuses && statuses[e.planName].uid == e.uid && statuses[e.planName].status == e.status
  {
    var ov, e := w.ovs[i.spec.ovRef], i.spec.execution;
    var s := i.(readiness := x.readiness);
    assert WithCleanup(i, ov, x.uuid) == i;
    var r := Prepared(s, ov, x.now).value;
    assert r.planStatus[e.planName].status == e.status;
    AdvancedEvolves(s, r, ov, x) by { PreparedEvolves(s, ov, x.now); }
  }

  ghost predicate SoundButCleanupState(w: World, s: State) {
    s.reg.obj.Some? ==> SoundButCleanup(w, s.reg.obj.value)
  }

  /** Whatever parameters trigger, and also during deletion, the stored plan exists and the stored
      parameters are valid. */
  lemma {:induction false} AlwaysSoundButCleanup(w: World, acts: seq<Action>)
    ensures SoundButCleanupState(w, After(w, acts))
  {
    if acts != [] {
      var n := |acts| - 1;
      AlwaysSoundButCleanup(w, acts[..n]);
      AlwaysBasic(w, acts[..n]);
      SoundButCleanupKept(w, After(w, acts[..n]), acts[n]);
    }
  }

  lemma {:induction false} SoundButCleanupKept(w: World, s: State, a: Action)
    requires Basic(w, s) && SoundButCleanupState(w, s)
    ensures SoundButCleanupState(w, Next(w, s, a))
  {
    match a {
      case Update(after, uuid) => PutIsSoundButCleanup(w, s.reg, after, s.reg.version, uuid);
      case WriteSpec(uuid) => SoundButCleanupWriteSpec(w, s, uuid);
      case WriteBoth(uuid) => SoundButCleanupWriteSpec(w, s, uuid);
      case _ =>
    }
  }

  lemma {:induction false} SoundButCleanupWriteSpec(w: World, s: State, uuid: UID)
    requires Basic(w, s) && SoundButCleanupState(w, s)
    ensures SoundButCleanupState(w, DoWriteSpec(w, s, uuid))
  {
    if s.ctl.Computed? {
      PutIsSoundButCleanup(w, s.reg, NextOf(w, s.ctl.base, s.ctl.x), s.ctl.version, uuid);
    }
  }

  lemma {:induction false} PutIsSoundButCleanup(w: World, r: Register, sent: InstanceData, version: nat, uuid: UID)
    requires r.obj.Some? ==> SoundButCleanup(w, r.obj.value)
    ensures
      var r' := PutInstance(w, r, sent, version, uuid);
      r'.Some? && r'.value.obj.Some? ==> SoundButCleanup(w, r'.value.obj.value)
  {
    if PutInstance(w, r, sent, version, uuid).Some? {
      var after := sent.(deleting := r.obj.value.deleting);
      if after.deleting {
        AdmittedWhileDeleting(w, r.obj.value, after, uuid);
      } else {
        AdmittedExists(w, r.obj.value, after, uuid);
      }
    }
  }

  /** Without that assumption the write is refused exactly when the stored plan is `cleanup`. */
  lemma {:induction false} ProgressRefusedOnlyForCleanup(w: World, acts: seq<Action>, uuid: UID)
    requires InFlight(After(w, acts)) && !After(w, acts).ctl.base.deleting
    ensures
      var s := After(w, acts);
      AfterSpecWrite(w, s.reg, s.ctl.base, s.ctl.version, NextOf(w, s.ctl.base, s.ctl.x), uuid).None?
      <==> s.ctl.base.spec.execution.planName == CLEANUP && WritesSpec(w, s)
  {
    var s := After(w, acts);
    AlwaysBasic(w, acts);
    AlwaysSoundButCleanup(w, acts);
    var next := NextOf(w, s.ctl.base, s.ctl.x);
    MetadataOnlyExactly(w, s.ctl.base, s.ctl.x);
    NextFacts(w, s.ctl.base, s.ctl.x);
    assert next.(deleting := s.ctl.base.deleting) == next;
    if !MetadataOnly(s.ctl.base, next) { ProgressVerdict(w, s.ctl.base, next, uuid); }
  }

  /** The webhook's answer, during deletion, to a write that changes nothing but the execution. */
  lemma {:induction false} DeletionVerdict(w: World, before: InstanceData, after: InstanceData, uuid: UID)
    requires after.deleting && !MetadataOnly(before, after) && SoundButCleanup(w, before)
    requires after.spec == before.spec.(execution := after.spec.execution)
    requires after.spec.execution.planName in {"", before.spec.execution.planName}
        || after.spec.execution.planName in w.ovs[before.spec.ovRef].plans
    requires before.spec.execution.planName == CLEANUP ==> after.spec.execution.planName == CLEANUP
    ensures
      var r := Updated(w, before, after, uuid);
      if after.spec.execution.planName in {"", CLEANUP} then r == Stored(after) else r == Refused(NotCleanup)
  {
    var p := before.spec.parameters;
    assert ChangedKeys(p, p) == {} && RemovedKeys(p, p) == {};
  }

  /** During deletion the first write is refused exactly when another plan than `cleanup` is
      scheduled and there is no cleanup left to put in its place. */
  lemma {:induction false} DeletionWriteRefused(w: World, acts: seq<Action>, uuid: UID)
    requires InFlight(After(w, acts)) && After(w, acts).ctl.base.deleting
    ensures
      var s := After(w, acts);
      var base, plan := s.ctl.base, s.ctl.base.spec.execution.planName;
      AfterSpecWrite(w, s.reg, base, s.ctl.version, NextOf(w, base, s.ctl.x), uuid).None?
      <==>
        && WritesSpec(w, s) && plan !in {"", CLEANUP}
        && !(CLEANUP in w.ovs[base.spec.ovRef].plans && CleanupNeverRun(base))
  {
    var s := After(w, acts);
    AlwaysBasic(w, acts);
    AlwaysSoundButCleanup(w, acts);
    var next := NextOf(w, s.ctl.base, s.ctl.x);
    MetadataOnlyExactly(w, s.ctl.base, s.ctl.x);
    NextFacts(w, s.ctl.base, s.ctl.x);
    assert next.(deleting := s.ctl.base.deleting) == next;
    if !MetadataOnly(s.ctl.base, next) { DeletionVerdict(w, s.ctl.base, next, uuid); }
  }
}
