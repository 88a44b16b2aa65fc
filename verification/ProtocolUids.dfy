/** When one UID stands for one plan. */
module ProtocolUids {
  import opened Plans
  import opened Instances
  import opened Admission
  import opened Controller
  import opened Engine
  import opened Protocol
  import opened ProtocolSafety
  import opened ProtocolTheorems
  import opened ProtocolOrder

  /** The runs logged under the UID of a scheduled plan are runs of that plan. */
  ghost predicate Agrees(log: seq<Executed>, spec: Spec) {
    spec.execution.planName != "" ==>
      forall n | 0 <= n < |log| && log[n].uid == spec.execution.uid :: KeyOf(log[n]) == SpecKey(spec)
  }

  ghost predicate LabelsOk(w: World, log: seq<Executed>, used: set<UID>) {
    && (forall n | 0 <= n < |log| :: log[n].uid in used + {""} && KnownPlan(w, log[n].ovRef, log[n].plan))
    && (forall m, n | 0 <= m < n < |log| && log[m].uid == log[n].uid :: KeyOf(log[m]) == KeyOf(log[n]))
  }

  ghost predicate UidState(w: World, s: State)
    requires CtlOk(w, s.ctl)
  {
    && LabelsOk(w, s.log, s.used)
    && (s.reg.obj.Some? ==> Agrees(s.log, s.reg.obj.value.spec))
    && (InFlight(s) && s.reg.obj.Some? ==> Agrees(s.log, NextOf(w, s.ctl.base, s.ctl.x).spec))
  }

  /** An update that requests, during deletion, a plan under a UID under which another plan, or
      the plan of another operator version, has been run. */
  ghost predicate ForeignUidSent(s: State, a: Action) {
    && a.Update? && s.reg.obj.Some? && s.reg.obj.value.deleting && a.after.spec.execution.planName != ""
    && exists n ::
        0 <= n < |s.log| && s.log[n].uid == a.after.spec.execution.uid && KeyOf(s.log[n]) != SpecKey(a.after.spec)
  }

  lemma {:induction false} NewUidAgrees(w: World, log: seq<Executed>, used: set<UID>, spec: Spec)
    requires LabelsOk(w, log, used) && spec.execution.uid !in used + {""}
    ensures Agrees(log, spec)
  {
  }

  /** Runs of `spec` are added to the log. */
  lemma {:induction false} LabelsGrow(w: World, log: seq<Executed>, used: set<UID>, more: set<UID>, spec: Spec,
                                      runs: seq<Run>)
    requires LabelsOk(w, log, used) && used <= more && Agrees(log, spec)
    requires spec.execution.planName == "" ==> runs == []
    requires
      var e := spec.execution;
      e.planName != "" ==> KnownPlan(w, spec.ovRef, e.planName) && e.uid in more + {""}
    ensures LabelsOk(w, log + Logged(spec, runs), more) && Agrees(log + Logged(spec, runs), spec)
  {
    var all := log + Logged(spec, runs);
    forall n | 0 <= n < |all|
      ensures all[n].uid in more + {""} && KnownPlan(w, all[n].ovRef, all[n].plan)
      ensures if n < |log| then all[n] == log[n] else KeyOf(all[n]) == SpecKey(spec)
    {
      if n < |log| { assert all[n] == log[n]; }
    }
  }

  lemma {:induction false} UidReconcile(w: World, s: State, x: Inputs)
    requires Basic(w, s) && UidState(w, s) && SoundButCleanupState(w, s) && x.uuid != "" && x.uuid !in s.used
    requires s.ctl.Idle? && s.reg.obj.Some? && Reconciled(w, s.reg.obj.value, x).Writes?
    ensures UidState(w, DoReconcile(w, s, x))
  {
    var i := s.reg.obj.value;
    var next, runs := NextOf(w, i, x), Reconciled(w, i, x).runs;
    NextFacts(w, i, x);
    ReconcileAgrees(w, s, x);
    if next.spec.execution.planName == "" { IdleChangesNoStatus(w, i, x); }
    LabelsGrow(w, s.log, s.used, s.used + {x.uuid}, next.spec, runs);
    OtherAgrees(s.log, i.spec, next.spec, runs);
    assert Reconciled(w, i, x).next.spec == next.spec;
  }

  /** The execution that a reconciliation goes by. */
  lemma {:induction false} ReconcileAgrees(w: World, s: State, x: Inputs)
    requires Basic(w, s) && UidState(w, s) && SoundButCleanupState(w, s) && x.uuid != "" && x.uuid !in s.used
    requires s.reg.obj.Some? && Reconciled(w, s.reg.obj.value, x).Writes?
    ensures
      var i, spec := s.reg.obj.value, NextOf(w, s.reg.obj.value, x).spec;
      var e := spec.execution;
      && Agrees(s.log, spec)
        && (e.planName == "" ==> WithCleanup(i, w.ovs[i.spec.ovRef], x.uuid).spec.execution.planName == "")
      && (e.planName != "" ==> KnownPlan(w, spec.ovRef, e.planName) && e.uid in s.used + {x.uuid, ""})
      && (SameExecution(spec, i.spec) || e.uid != i.spec.execution.uid)
  {
    var i, spec := s.reg.obj.value, NextOf(w, s.reg.obj.value, x).spec;
    NextFacts(w, i, x);
    if spec.execution.uid == x.uuid { NewUidAgrees(w, s.log, s.used, spec); }
  }

  lemma {:induction false} OtherAgrees(log: seq<Executed>, spec: Spec, other: Spec, runs: seq<Run>)
    requires Agrees(log, spec) && (SameExecution(other, spec) || other.execution.uid != spec.execution.uid)
    ensures Agrees(log + Logged(other, runs), spec)
  {
    var all := log + Logged(other, runs);
    forall n | 0 <= n < |all| && spec.execution.planName != "" && all[n].uid == spec.execution.uid
      ensures KeyOf(all[n]) == SpecKey(spec)
    {
      if n < |log| { assert all[n] == log[n]; }
    }
  }

  /** An admitted write stores the execution that was sent, none, or one under a new UID. */
  lemma {:induction false} PutExecution(w: World, r: Register, sent: InstanceData, version: nat, uuid: UID)
    requires PutInstance(w, r, sent, version, uuid).Some?
    ensures
      var obj := PutInstance(w, r, sent, version, uuid).value.obj;
      obj.Some? ==>
        SameExecution(obj.value.spec, sent.spec) || obj.value.spec.execution.planName == ""
          || obj.value.spec.execution.uid == uuid
  {
  }

  lemma {:induction false} UidWriteSpec(w: World, s: State, uuid: UID)
    requires Basic(w, s) && UidState(w, s) && uuid != "" && uuid !in s.used
    ensures UidState(w, DoWriteSpec(w, s, uuid))
  {
    if InFlight(s) && s.reg.obj.Some? { UidFirstWrite(w, s, uuid); }
  }

  lemma {:induction false} UidFirstWrite(w: World, s: State, uuid: UID)
    requires Basic(w, s) && UidState(w, s) && uuid != "" && uuid !in s.used && InFlight(s) && s.reg.obj.Some?
    ensures UidState(w, DoWriteSpec(w, s, uuid))
  {
    FirstWriteAgrees(w, s, uuid);
  }

  lemma {:induction false} FirstWriteAgrees(w: World, s: State, uuid: UID)
    requires Basic(w, s) && UidState(w, s) && uuid != "" && uuid !in s.used && InFlight(s) && s.reg.obj.Some?
    ensures
      var r := PutInstance(w, s.reg, NextOf(w, s.ctl.base, s.ctl.x), s.ctl.version, uuid);
      r.Some? && r.value.obj.Some? ==> Agrees(s.log, r.value.obj.value.spec)
  {
    var next := NextOf(w, s.ctl.base, s.ctl.x);
    var r := PutInstance(w, s.reg, next, s.ctl.version, uuid);
    if r.Some? && r.value.obj.Some? {
      PutExecution(w, s.reg, next, s.ctl.version, uuid);
      if r.value.obj.value.spec.execution.uid == uuid { NewUidAgrees(w, s.log, s.used, r.value.obj.value.spec); }
    }
  }

  /** During deletion an admitted update stores the specification as it was sent. */
  lemma {:induction false} PutWhileDeleting(w: World, r: Register, sent: InstanceData, version: nat, uuid: UID)
    requires PutInstance(w, r, sent, version, uuid).Some? && r.obj.value.deleting
    ensures
      var obj := PutInstance(w, r, sent, version, uuid).value.obj;
      obj.Some? ==> obj.value.spec == sent.spec
  {
    StoredAsSent(w, r.obj.value, sent.(deleting := true), uuid);
  }

  /** Outside deletion every admitted update keeps the agreement. */
  lemma {:induction false} LiveUpdateAgrees(w: World, s: State, after: InstanceData, uuid: UID)
    requires Basic(w, s) && UidState(w, s) && Enabled(s, Update(after, uuid))
    requires PutInstance(w, s.reg, after, s.reg.version, uuid).Some? && !s.reg.obj.value.deleting
    ensures
      var obj := PutInstance(w, s.reg, after, s.reg.version, uuid).value.obj;
      obj.Some? ==> Agrees(s.log, obj.value.spec)
  {
    var obj := PutInstance(w, s.reg, after, s.reg.version, uuid).value.obj;
    UpdateStores(w, s.reg.obj.value, after.(deleting := false), uuid);
    if obj.Some? && obj.value.spec.execution.uid == uuid { NewUidAgrees(w, s.log, s.used, obj.value.spec); }
  }

  /** An update breaks the agreement exactly if it is admitted, during deletion, with a plan and a
      UID under which another plan or operator version has been run. */
  lemma {:induction false} UpdateBreaksAgreement(w: World, s: State, after: InstanceData, uuid: UID)
    requires Basic(w, s) && UidState(w, s) && Enabled(s, Update(after, uuid))
    ensures
      var s', r := Next(w, s, Update(after, uuid)), PutInstance(w, s.reg, after, s.reg.version, uuid);
      (s'.reg.obj.Some? && !Agrees(s'.log, s'.reg.obj.value.spec))
      <==> r.Some? && r.value.obj.Some? && ForeignUidSent(s, Update(after, uuid))
  {
    if PutInstance(w, s.reg, after, s.reg.version, uuid).Some? {
      if s.reg.obj.value.deleting {
        PutWhileDeleting(w, s.reg, after, s.reg.version, uuid);
      } else {
        LiveUpdateAgrees(w, s, after, uuid);
      }
    }
  }

  lemma {:induction false} UidCreate(w: World, s: State, i: InstanceData, cleanup: Option<PlanStatus>, uuid: UID)
    requires Basic(w, s) && UidState(w, s) && uuid != "" && uuid !in s.used
    ensures UidState(w, DoCreate(w, s, i, cleanup, uuid))
  {
    if s.reg.obj.None? && Created(w, i, cleanup, uuid).Stored? {
      NewUidAgrees(w, s.log, s.used, Created(w, i, cleanup, uuid).instance.spec);
    }
  }

  lemma {:induction false} UidUpdate(w: World, s: State, after: InstanceData, uuid: UID)
    requires Basic(w, s) && UidState(w, s) && Enabled(s, Update(after, uuid)) && !ForeignUidSent(s, Update(after, uuid))
    ensures UidState(w, DoUpdate(w, s, after, uuid))
  {
    UpdateBreaksAgreement(w, s, after, uuid);
  }

  lemma {:induction false} UidKept(w: World, s: State, a: Action)
    requires Basic(w, s) && UidState(w, s) && SoundButCleanupState(w, s) && Enabled(s, a) && !ForeignUidSent(s, a)
    ensures UidState(w, Next(w, s, a))
  {
    match a {
      case Create(i, cleanup, uuid) => UidCreate(w, s, i, cleanup, uuid);
      case Update(after, uuid) => UidUpdate(w, s, after, uuid);
      case Delete =>
      case Reconciles(x) =>
        if s.ctl.Idle? && s.reg.obj.Some? && Reconciled(w, s.reg.obj.value, x).Writes? { UidReconcile(w, s, x); }
      case WriteSpec(uuid) => UidWriteSpec(w, s, uuid);
      case WriteStatus =>
      case WriteBoth(uuid) => UidWriteSpec(w, s, uuid);
      case Crash =>
    }
  }

  lemma {:induction false} AlwaysAgrees(w: World, acts: seq<Action>)
    requires Legal(w, acts) && forall n | 0 <= n < |acts| :: !ForeignUidSent(After(w, acts[..n]), acts[n])
    ensures UidState(w, After(w, acts))
    decreases |acts|
  {
    if acts != [] {
      var n := |acts| - 1;
      forall m | 0 <= m < n
        ensures Enabled(After(w, acts[..n][..m]), acts[..n][m])
            && !ForeignUidSent(After(w, acts[..n][..m]), acts[..n][m])
      {
        assert acts[..n][..m] == acts[..m];
      }
      AlwaysAgrees(w, acts[..n]);
      AlwaysBasic(w, acts[..n]);
      AlwaysSoundButCleanup(w, acts[..n]);
      UidKept(w, After(w, acts[..n]), acts[n]);
    }
  }

  /** In every legal run without such an update, all tasks run under one UID belong to one plan of
      one operator version. */
  lemma {:induction false} OneUidOnePlan(w: World, acts: seq<Action>)
    requires Legal(w, acts) && forall n | 0 <= n < |acts| :: !ForeignUidSent(After(w, acts[..n]), acts[n])
    ensures
      var log := After(w, acts).log;
      && (forall n | 0 <= n < |log| :: KnownPlan(w, log[n].ovRef, log[n].plan))
      && (forall m, n | 0 <= m < n < |log| && log[m].uid == log[n].uid ::
          log[m].ovRef == log[n].ovRef && log[m].plan == log[n].plan)
  {
    AlwaysAgrees(w, acts);
    var log := After(w, acts).log;
    assert forall m, n | 0 <= m < n < |log| && log[m].uid == log[n].uid :: KeyOf(log[m]) == KeyOf(log[n]);
  }
}
