/** The promises of the instance protocol, over whole runs. */
module ProtocolTheorems {
  import opened Plans
  import opened Parameters
  import opened Instances
  import opened Admission
  import opened Controller
  import opened Engine
  import opened Protocol
  import opened ProtocolSafety

  // ----- one plan at a time -----

  /** Users do not write `planExecution.status`. */
  ghost predicate UsersLeaveStatus(s: State, a: Action) {
    match a
    case Create(i, _, _) => i.spec.execution.status.Unset?
    case Update(after, _) => s.reg.obj.Some? ==> after.spec.execution.status == s.reg.obj.value.spec.execution.status
    case _ => true
  }

  /** The two writes of the controller happen together. */
  predicate WritesTogether(a: Action) {
    !a.WriteSpec? && !a.WriteStatus?
  }

  /** Only the plan named in the spec can have a running status. */
  ghost predicate OneRunning(i: InstanceData) {
    && !i.spec.execution.status.IsTerminal()
    && (forall k | k in i.planStatus && i.planStatus[k].status.IsRunning() :: k == i.spec.execution.planName && k != "")
  }

  ghost predicate OnePlan(s: State) {
    && !s.ctl.SpecWritten?
    && (s.reg.obj.Some? && !s.reg.obj.value.deleting ==> OneRunning(s.reg.obj.value))
  }

  lemma {:induction false} UserUpdateKeepsOne(w: World, before: InstanceData, after: InstanceData, uuid: UID)
    requires OneRunning(before) && !after.deleting && Updated(w, before, after, uuid).Stored?
    requires after.spec.execution.status == before.spec.execution.status
    ensures OneRunning(Merged(before, Updated(w, before, after, uuid).instance))
  {
  }

  /** The statuses that a reconciliation computes name no other running plan than its own. */
  lemma {:induction false} ComputedKeepsOne(w: World, base: InstanceData, x: Inputs)
    requires KeyedByName(base.planStatus) && Reconciled(w, base, x).Writes? && !base.deleting && OneRunning(base)
    ensures
      var next, plan := NextOf(w, base, x), base.spec.execution.planName;
      && next.spec == base.spec.(execution := base.spec.execution.(status := next.spec.execution.status))
        && !next.deleting
      && (forall k | k in next.planStatus && next.planStatus[k].status.IsRunning() :: k == plan && k != "")
      && (next.spec.execution.status.IsTerminal() ==>
          plan in next.planStatus && next.planStatus[plan].status.IsTerminal())
  {
    NextFacts(w, base, x);
    if base.spec.execution.planName == "" { IdleChangesNoStatus(w, base, x); }
  }

  /** The instance that both writes of a reconciliation leave behind. */
  lemma {:induction false} ControllerKeepsOne(w: World, base: InstanceData, x: Inputs, uuid: UID)
    requires KeyedByName(base.planStatus) && Reconciled(w, base, x).Writes? && !base.deleting && OneRunning(base)
    ensures
      var next := NextOf(w, base, x);
      && (next.spec == base.spec ==> OneRunning(base.(planStatus := next.planStatus)))
      && (Updated(w, base, next, uuid).Stored? ==>
            OneRunning(Merged(base, Updated(w, base, next, uuid).instance).(planStatus := next.planStatus)))
  {
    var next := NextOf(w, base, x);
    ComputedKeepsOne(w, base, x);
    if !MetadataOnly(base, next) { ProgressVerdict(w, base, next, uuid); }
  }

  lemma {:induction false} WriteBothKeepsOne(w: World, s: State, uuid: UID)
    requires Basic(w, s) && OnePlan(s)
    ensures OnePlan(DoWriteStatus(w, DoWriteSpec(w, s, uuid)))
  {
    if InFlight(s) && !s.ctl.base.deleting { WriteBothLive(w, s, uuid); }
  }

  lemma {:induction false} WriteBothLive(w: World, s: State, uuid: UID)
    requires Basic(w, s) && OnePlan(s) && InFlight(s) && !s.ctl.base.deleting
    ensures OnePlan(DoWriteStatus(w, DoWriteSpec(w, s, uuid)))
  {
    ControllerKeepsOne(w, s.ctl.base, s.ctl.x, uuid);
    NextFacts(w, s.ctl.base, s.ctl.x);
    var next := NextOf(w, s.ctl.base, s.ctl.x);
    assert next.(deleting := s.ctl.base.deleting) == next;
  }

  lemma {:induction false} OnePlanKept(w: World, s: State, a: Action)
    requires Basic(w, s) && OnePlan(s) && UsersLeaveStatus(s, a) && WritesTogether(a)
    ensures OnePlan(Next(w, s, a))
  {
    match a {
      case Update(after, uuid) =>
        if s.reg.obj.Some? && !s.reg.obj.value.deleting {
          var sent := after.(deleting := false);
          if Updated(w, s.reg.obj.value, sent, uuid).Stored? { UserUpdateKeepsOne(w, s.reg.obj.value, sent, uuid); }
        }
      case WriteBoth(uuid) => WriteBothKeepsOne(w, s, uuid);
      case _ =>
    }
  }

  /** In every state of such a run, while the instance is not being deleted, every plan with a
      running status is the plan named in the spec, so at most one is running. */
  lemma {:induction false} OnePlanAtATime(w: World, acts: seq<Action>)
    requires forall n | 0 <= n < |acts| :: UsersLeaveStatus(After(w, acts[..n]), acts[n]) && WritesTogether(acts[n])
    ensures OnePlan(After(w, acts))
    ensures
      var s := After(w, acts);
      s.reg.obj.Some? && !s.reg.obj.value.deleting ==>
        var statuses := s.reg.obj.value.planStatus;
        forall k, l | k in statuses && l in statuses && statuses[k].status.IsRunning()
          && statuses[l].status.IsRunning() :: k == l
    decreases |acts|
  {
    if acts != [] {
      var n := |acts| - 1;
      forall m | 0 <= m < n
        ensures UsersLeaveStatus(After(w, acts[..n][..m]), acts[..n][m]) && WritesTogether(acts[..n][m]) {
        assert acts[..n][..m] == acts[..m];
      }
      OnePlanAtATime(w, acts[..n]);
      AlwaysBasic(w, acts[..n]);
      OnePlanKept(w, After(w, acts[..n]), acts[n]);
    }
  }

  /** The instance that the first write alone leaves behind. */
  ghost function FirstWriteOnly(w: World, base: InstanceData, next: InstanceData, uuid: UID): InstanceData {
    if NeedsSpecWrite(base, next) && Updated(w, base, next, uuid).Stored?
    then Merged(base, Updated(w, base, next, uuid).instance) else base
  }

  /** The two writes have to happen together: after the first one alone the promise is broken
      exactly when the plan has ended, its stored status is still a running one, and it exists, is
      not cleanup and runs on valid parameters, so that the write is admitted and clears it. */
  lemma {:induction false} FirstWriteAlone(w: World, base: InstanceData, x: Inputs, uuid: UID)
    requires KeyedByName(base.planStatus) && Reconciled(w, base, x).Writes? && !base.deleting && OneRunning(base)
    ensures
      var next, plan, ov := NextOf(w, base, x), base.spec.execution.planName, w.ovs[base.spec.ovRef];
      OneRunning(FirstWriteOnly(w, base, next, uuid)) <==>
        !(&& next.spec.execution.status.IsTerminal() && plan in base.planStatus
          && base.planStatus[plan].status.IsRunning()
          && plan in ov.plans && plan != CLEANUP && ParamsValid(ov.parameters, base.spec.parameters, w.parses))
  {
    var next := NextOf(w, base, x);
    NextFacts(w, base, x);
    if !MetadataOnly(base, next) { ProgressVerdict(w, base, next, uuid); }
  }

  lemma {:induction false} StoppingBetweenTheWrites(w: World, s: State, uuid: UID)
    requires Basic(w, s) && s.ctl.Computed? && s.ctl.version == s.reg.version && !s.ctl.base.deleting
    ensures
      Next(w, Next(w, s, WriteSpec(uuid)), Crash).reg.obj
      == Some(FirstWriteOnly(w, s.ctl.base, NextOf(w, s.ctl.base, s.ctl.x), uuid))
  {
    var next, base := NextOf(w, s.ctl.base, s.ctl.x), s.ctl.base;
    NextFacts(w, base, s.ctl.x);
    assert next.(deleting := base.deleting) == next;
  }

  // ----- a finished execution is never run again -----

  /** While an instance is being deleted, users do not request a plan under a finished UID. */
  ghost predicate NoFinishedUidSent(s: State, a: Action) {
    a.Update? && s.reg.obj.Some? && s.reg.obj.value.deleting && a.after.spec.execution.planName != "" ==>
      a.after.spec.execution.uid !in s.finished
  }

  /** No plan is scheduled under a finished UID, neither in the store nor by the controller. */
  ghost predicate NoneFinished(w: World, s: State)
    requires CtlOk(w, s.ctl)
  {
    && (s.reg.obj.Some? && s.reg.obj.value.spec.execution.planName != "" ==>
          s.reg.obj.value.spec.execution.uid !in s.finished)
    && (s.ctl.Computed? && s.ctl.version == s.reg.version ==>
          var e := NextOf(w, s.ctl.base, s.ctl.x).spec.execution; e.planName != "" ==> e.uid !in s.finished)
  }

  /** Outside deletion a plan is stored either under a UID of the webhook's own making, whatever
      UID was sent, or unchanged and with a status that is not terminal. */
  lemma {:induction false} StoredUid(w: World, before: InstanceData, after: InstanceData, uuid: UID)
    requires !after.deleting && !MetadataOnly(before, after) && Updated(w, before, after, uuid).Stored?
    ensures
      var e := Updated(w, before, after, uuid).instance.spec.execution;
      || e.planName == ""
      || e.uid == uuid
      || (e.uid == before.spec.execution.uid == after.spec.execution.uid && e.planName == before.spec.execution.planName
          && !after.spec.execution.status.IsTerminal())
  {
  }

  lemma {:induction false} PutNotFinished(w: World, s: State, sent: InstanceData, version: nat, uuid: UID)
    requires Basic(w, s) && NoneFinished(w, s) && uuid !in s.used && s.reg.obj.Some?
    requires uuid != sent.spec.execution.uid
    requires s.reg.obj.value.deleting && sent.spec.execution.planName != "" ==> sent.spec.execution.uid !in s.finished
    ensures
      var r := PutInstance(w, s.reg, sent, version, uuid);
      r.Some? && r.value.obj.Some? && r.value.obj.value.spec.execution.planName != "" ==>
        r.value.obj.value.spec.execution.uid !in s.finished + FinishedBy(s.reg.obj.value, sent)
  {
    var before, after := s.reg.obj.value, sent.(deleting := s.reg.obj.value.deleting);
    if Updated(w, before, after, uuid).Stored? && !before.deleting && !MetadataOnly(before, after) {
      StoredUid(w, before, after, uuid);
    }
  }

  /** That is exactly how an update can schedule a plan under a finished UID again. */
  lemma {:induction false} FinishedUidComesBack(w: World, s: State, after: InstanceData, uuid: UID)
    requires Basic(w, s) && NoneFinished(w, s) && Enabled(s, Update(after, uuid))
    ensures
      var s', r := Next(w, s, Update(after, uuid)), PutInstance(w, s.reg, after, s.reg.version, uuid);
      (s'.reg.obj.Some? && s'.reg.obj.value.spec.execution.planName != ""
        && s'.reg.obj.value.spec.execution.uid in s'.finished)
      <==> r.Some? && r.value.obj.Some? && !NoFinishedUidSent(s, Update(after, uuid))
  {
    if s.reg.obj.Some? {
      if NoFinishedUidSent(s, Update(after, uuid)) {
        PutNotFinished(w, s, after, s.reg.version, uuid);
      } else if Updated(w, s.reg.obj.value, after.(deleting := true), uuid).Stored? {
        StoredAsSent(w, s.reg.obj.value, after.(deleting := true), uuid);
      }
    }
  }

  /** During deletion whatever is admitted is stored as it was sent. */
  lemma {:induction false} StoredAsSent(w: World, before: InstanceData, after: InstanceData, uuid: UID)
    requires after.deleting && Updated(w, before, after, uuid).Stored?
    ensures Updated(w, before, after, uuid).instance == after
  {
  }

  lemma {:induction false} NoneFinishedKept(w: World, s: State, a: Action)
    requires Basic(w, s) && NoneFinished(w, s) && Enabled(s, a) && NoFinishedUidSent(s, a)
    ensures NoneFinished(w, Next(w, s, a))
  {
    match a {
      case Update(after, uuid) =>
        if s.reg.obj.Some? { PutNotFinished(w, s, after, s.reg.version, uuid); }
      case Reconciles(x) =>
        if s.ctl.Idle? && s.reg.obj.Some? && Reconciled(w, s.reg.obj.value, x).Writes? {
          NextFacts(w, s.reg.obj.value, x);
        }
      case WriteSpec(uuid) => WriteSpecNotFinished(w, s, uuid);
      case WriteBoth(uuid) => WriteSpecNotFinished(w, s, uuid);
      case _ =>
    }
  }

  lemma {:induction false} WriteSpecNotFinished(w: World, s: State, uuid: UID)
    requires Basic(w, s) && NoneFinished(w, s) && uuid != "" && uuid !in s.used
    ensures NoneFinished(w, DoWriteSpec(w, s, uuid))
  {
    if s.ctl.Computed? && s.ctl.version == s.reg.version {
      var next := NextOf(w, s.ctl.base, s.ctl.x);
      NextFacts(w, s.ctl.base, s.ctl.x);
      PutNotFinished(w, s, next, s.ctl.version, uuid);
    }
  }

  lemma {:induction false} NeverScheduledAgain(w: World, acts: seq<Action>)
    requires Legal(w, acts) && forall n | 0 <= n < |acts| :: NoFinishedUidSent(After(w, acts[..n]), acts[n])
    ensures NoneFinished(w, After(w, acts))
    decreases |acts|
  {
    if acts != [] {
      var n := |acts| - 1;
      forall m | 0 <= m < n
        ensures Enabled(After(w, acts[..n][..m]), acts[..n][m])
            && NoFinishedUidSent(After(w, acts[..n][..m]), acts[..n][m])
      {
        assert acts[..n][..m] == acts[..m];
      }
      NeverScheduledAgain(w, acts[..n]);
      AlwaysBasic(w, acts[..n]);
      NoneFinishedKept(w, After(w, acts[..n]), acts[n]);
    }
  }

  /** Once a spec write with a terminal status for a UID has been admitted outside deletion, no
      later reconciliation runs a task under that UID, crashes and lost writes notwithstanding. */
  lemma {:induction false} FinishedIsNeverRunAgain(w: World, acts: seq<Action>, n: nat, m: nat)
    requires Legal(w, acts) && forall k | 0 <= k < |acts| :: NoFinishedUidSent(After(w, acts[..k]), acts[k])
    requires n <= m < |acts|
    ensures After(w, acts[..m]).log <= After(w, acts[..m + 1]).log
    ensures
      var before, after := After(w, acts[..m]).log, After(w, acts[..m + 1]).log;
      forall k | |before| <= k < |after| :: after[k].uid !in After(w, acts[..n]).finished
  {
    var s := After(w, acts[..m]);
    forall k | 0 <= k < m
      ensures Enabled(After(w, acts[..m][..k]), acts[..m][k])
      && NoFinishedUidSent(After(w, acts[..m][..k]), acts[..m][k]) {
      assert acts[..m][..k] == acts[..k];
    }
    NeverScheduledAgain(w, acts[..m]);
    AlwaysBasic(w, acts[..m]);
    FinishedStays(w, acts, n, m);
    assert acts[..m + 1][..m] == acts[..m] && acts[..m + 1][m] == acts[m];
    StepRunsUnder(w, s, acts[m]);
  }

  lemma {:induction false} StepRunsUnder(w: World, s: State, a: Action)
    requires Basic(w, s) && NoneFinished(w, s) && Enabled(s, a)
    ensures
      var log := Next(w, s, a).log;
      s.log <= log && forall k | |s.log| <= k < |log| :: log[k].uid !in s.finished
  {
    if a.Reconciles? && s.ctl.Idle? && s.reg.obj.Some? && Reconciled(w, s.reg.obj.value, a.x).Writes? {
      ReconcileRunsUnder(w, s.reg.obj.value, a.x);
    }
  }

  /** A reconciliation runs tasks only under the UID of a scheduled plan or under its own UUID. */
  lemma {:induction false} ReconcileRunsUnder(w: World, i: InstanceData, x: Inputs)
    requires KeyedByName(i.planStatus) && Reconciled(w, i, x).Writes?
    ensures
      var e := Reconciled(w, i, x).next.spec.execution;
      Reconciled(w, i, x).runs != [] ==>
        e.uid == x.uuid || (i.spec.execution.planName != "" && e.uid == i.spec.execution.uid)
  {
    NextFacts(w, i, x);
    if WithCleanup(i, w.ovs[i.spec.ovRef], x.uuid).spec.execution.planName == "" { IdleChangesNoStatus(w, i, x); }
  }

  lemma {:induction false} FinishedGrows(w: World, s: State, a: Action)
    requires CtlOk(w, s.ctl)
    ensures s.finished <= Next(w, s, a).finished
  {
  }

  lemma {:induction false} FinishedStays(w: World, acts: seq<Action>, n: nat, m: nat)
    requires n <= m <= |acts|
    ensures After(w, acts[..n]).finished <= After(w, acts[..m]).finished
    decreases m
  {
    if n < m {
      FinishedStays(w, acts, n, m - 1);
      assert acts[..m][..m - 1] == acts[..m - 1] && acts[..m][m - 1] == acts[m - 1];
      FinishedGrows(w, After(w, acts[..m - 1]), acts[m - 1]);
    }
  }
}
