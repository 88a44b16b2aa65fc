/** What stays true of one instance over its life: finalizer, cleanup plan and parameters. */
module ProtocolHistory {
  import opened Plans
  import opened Parameters
  import opened Instances
  import opened Admission
  import opened Controller
  import opened Engine
  import opened Protocol
  import opened ProtocolSafety

  /** The instance exists in every state from the n-th to the m-th. */
  ghost predicate Alive(w: World, acts: seq<Action>, n: nat, m: nat)
    requires m <= |acts|
  {
    forall k | n <= k <= m :: After(w, acts[..k]).reg.obj.Some?
  }

  ghost function At(w: World, acts: seq<Action>, n: nat): InstanceData
    requires n <= |acts| && After(w, acts[..n]).reg.obj.Some?
  {
    After(w, acts[..n]).reg.obj.value
  }

  lemma {:induction false} LastStep(w: World, acts: seq<Action>, m: nat)
    requires 0 < m <= |acts|
    ensures After(w, acts[..m]) == Next(w, After(w, acts[..m - 1]), acts[m - 1])
  {
    assert acts[..m][..m - 1] == acts[..m - 1] && acts[..m][m - 1] == acts[m - 1];
  }

  // ----- the finalizer -----

  lemma {:induction false} StepKeepsEntries(w: World, s: State, a: Action)
    requires Basic(w, s) && s.reg.obj.Some? && Next(w, s, a).reg.obj.Some?
    ensures s.reg.obj.value.planStatus.Keys <= Next(w, s, a).reg.obj.value.planStatus.Keys
  {
    match a {
      case Update(after, uuid) =>
        if PutInstance(w, s.reg, after, s.reg.version, uuid).Some? { PutFacts(w, s.reg, after, s.reg.version, uuid); }
      case WriteSpec(uuid) => WriteSpecKeepsEntries(w, s, uuid);
      case WriteStatus => WriteStatusKeepsEntries(w, s);
      case WriteBoth(uuid) =>
        WriteSpecKeepsEntries(w, s, uuid);
        BasicWriteSpec(w, s, uuid);
        WriteStatusKeepsEntries(w, DoWriteSpec(w, s, uuid));
      case _ =>
    }
  }

  lemma {:induction false} WriteSpecKeepsEntries(w: World, s: State, uuid: UID)
    requires Basic(w, s) && s.reg.obj.Some?
    ensures
      var s' := DoWriteSpec(w, s, uuid);
      s'.reg.obj.Some? ==> s'.reg.obj.value.planStatus == s.reg.obj.value.planStatus
  {
    if s.ctl.Computed? {
      var next := NextOf(w, s.ctl.base, s.ctl.x);
      if PutInstance(w, s.reg, next, s.ctl.version, uuid).Some? { PutFacts(w, s.reg, next, s.ctl.version, uuid); }
    }
  }

  lemma {:induction false} WriteStatusKeepsEntries(w: World, s: State)
    requires Basic(w, s) && s.reg.obj.Some?
    ensures
      var s' := DoWriteStatus(w, s);
      s'.reg.obj.Some? && s.reg.obj.value.planStatus.Keys <= s'.reg.obj.value.planStatus.Keys
  {
    if s.ctl.SpecWritten? { NextFacts(w, s.ctl.base, s.ctl.x); }
  }

  /** While the instance exists, a plan status never disappears, that of cleanup included. */
  lemma {:induction false} StatusEntriesStay(w: World, acts: seq<Action>, n: nat, m: nat)
    requires n <= m <= |acts| && Alive(w, acts, n, m)
    ensures At(w, acts, n).planStatus.Keys <= At(w, acts, m).planStatus.Keys
    decreases m
  {
    if n < m {
      StatusEntriesStay(w, acts, n, m - 1);
      LastStep(w, acts, m);
      AlwaysBasic(w, acts[..m - 1]);
      StepKeepsEntries(w, After(w, acts[..m - 1]), acts[m - 1]);
    }
  }

  ghost predicate HasFinalizer(s: State) {
    s.reg.obj.Some? && CLEANUP_FINALIZER in s.reg.obj.value.finalizers
  }

  /** A reconciliation ends without a cleanup status exactly if none is stored and either the
      operator has no cleanup plan or nothing is scheduled outside deletion. */
  ghost predicate NoCleanupStatus(w: World, i: InstanceData)
    requires i.spec.ovRef in w.ovs
  {
    && CLEANUP !in i.planStatus
    && (CLEANUP !in w.ovs[i.spec.ovRef].plans || (!i.deleting && i.spec.execution.planName == ""))
  }

  lemma {:induction false} CleanupStatusMissing(w: World, i: InstanceData, x: Inputs)
    requires KeyedByName(i.planStatus) && Reconciled(w, i, x).Writes?
    ensures CLEANUP !in NextOf(w, i, x).planStatus <==> NoCleanupStatus(w, i)
  {
    if Scheduling(w, i, x).spec.execution.planName == "" {
      IdleChangesNoStatus(w, i, x);
    } else {
      ReconcileTrees(w, i, x);
    }
  }

  /** The first write of the controller drops the finalizer exactly when it is admitted and the
      cleanup status it was computed with is COMPLETE, or missing. */
  lemma {:induction false} WriteSpecDropsFinalizer(w: World, s: State, uuid: UID)
    requires Basic(w, s) && HasFinalizer(s)
    ensures
      !HasFinalizer(DoWriteSpec(w, s, uuid)) <==>
        && InFlight(s)
        && (var next := NextOf(w, s.ctl.base, s.ctl.x);
            && AfterSpecWrite(w, s.reg, s.ctl.base, s.ctl.version, next, uuid).Some?
            && (NoCleanupStatus(w, s.ctl.base)
              || (CLEANUP in next.planStatus && next.planStatus[CLEANUP].status.Complete?)))
  {
    if InFlight(s) {
      var next := NextOf(w, s.ctl.base, s.ctl.x);
      NextFacts(w, s.ctl.base, s.ctl.x);
      CleanupStatusMissing(w, s.ctl.base, s.ctl.x);
      PutKeepsFinalizers(w, s.reg, next, s.ctl.version, uuid);
    }
  }

  /** In every reachable state: the first write takes the finalizer away without a COMPLETE cleanup
      exactly when no cleanup status is stored and, outside deletion, nothing is scheduled or the
      operator has no cleanup plan. During deletion the operator must have none, and a write that
      also moves a scheduled plan is refused. */
  lemma {:induction false} FinalizerGoesWithoutCleanup(w: World, acts: seq<Action>, uuid: UID)
    requires HasFinalizer(After(w, acts)) && InFlight(After(w, acts))
    ensures
      var s, s' := After(w, acts), DoWriteSpec(w, After(w, acts), uuid);
      var base, next := s.ctl.base, NextOf(w, s.ctl.base, s.ctl.x);
      !HasFinalizer(s') && !(CLEANUP in next.planStatus && next.planStatus[CLEANUP].status.Complete?)
      <==>
        && NoCleanupStatus(w, base)
        && (base.deleting && base.spec.execution.planName != "" ==> NothingStirs(w, base, s.ctl.x))
  {
    var s := After(w, acts);
    AlwaysBasic(w, acts);
    AlwaysSoundButCleanup(w, acts);
    CleanupStatusMissing(w, s.ctl.base, s.ctl.x);
    WriteSpecDropsFinalizer(w, s, uuid);
    if s.ctl.base.deleting {
      DeletionWriteRefused(w, acts, uuid);
    } else {
      ProgressRefusedOnlyForCleanup(w, acts, uuid);
    }
  }

  lemma {:induction false} PutKeepsFinalizers(w: World, r: Register, sent: InstanceData, version: nat, uuid: UID)
    ensures
      var r' := PutInstance(w, r, sent, version, uuid);
      r'.Some? ==> if r'.value.obj.Some? then r'.value.obj.value.finalizers == sent.finalizers
        else sent.finalizers == []
  {
  }

  /** Once the status holds a cleanup entry, the controller takes the finalizer away only in a
      write made when that entry is COMPLETE; so a cleanup in FATAL_ERROR keeps it. */
  lemma {:induction false} FinalizerSafety(w: World, acts: seq<Action>, n: nat, m: nat)
    requires n <= m < |acts| && Alive(w, acts, n, m) && CLEANUP in At(w, acts, n).planStatus
    requires !acts[m].Update? && !acts[m].Delete? && !acts[m].Create?
    requires HasFinalizer(After(w, acts[..m])) && !HasFinalizer(After(w, acts[..m + 1]))
    ensures
      var s := After(w, acts[..m]);
      && s.ctl.Computed? && s.reg.obj == Some(s.ctl.base)
      && (var next := NextOf(w, s.ctl.base, s.ctl.x);
          CLEANUP in next.planStatus && next.planStatus[CLEANUP].status.Complete?)
  {
    var s := After(w, acts[..m]);
    LastStep(w, acts, m + 1);
    assert acts[..m + 1][..m] == acts[..m];
    StatusEntriesStay(w, acts, n, m);
    AlwaysBasic(w, acts[..m]);
    if acts[m].WriteSpec? || acts[m].WriteBoth? {
      var uuid := acts[m].uuid;
      WriteSpecDropsFinalizer(w, s, uuid);
      if HasFinalizer(DoWriteSpec(w, s, uuid)) {
        assert HasFinalizer(DoWriteStatus(w, DoWriteSpec(w, s, uuid)));
      } else {
        NextFacts(w, s.ctl.base, s.ctl.x);
      }
    }
  }

  ghost predicate CleaningUp(i: InstanceData) {
    i.deleting && i.spec.execution.planName == CLEANUP
  }

  lemma {:induction false} PutKeepsCleanup(w: World, r: Register, sent: InstanceData, version: nat, uuid: UID)
    requires r.obj.Some? && CleaningUp(r.obj.value)
    ensures
      var r' := PutInstance(w, r, sent, version, uuid);
      r'.Some? && r'.value.obj.Some? ==> CleaningUp(r'.value.obj.value)
  {
  }

  /** While the instance is being deleted, nothing moves it off the cleanup plan. */
  lemma {:induction false} CleanupStays(w: World, acts: seq<Action>, n: nat, m: nat)
    requires n <= m <= |acts| && Alive(w, acts, n, m) && CleaningUp(At(w, acts, n))
    ensures CleaningUp(At(w, acts, m))
    decreases m
  {
    if n < m {
      CleanupStays(w, acts, n, m - 1);
      LastStep(w, acts, m);
      StepKeepsCleanup(w, After(w, acts[..m - 1]), acts[m - 1]);
    }
  }

  lemma {:induction false} StepKeepsCleanup(w: World, s: State, a: Action)
    requires CtlOk(w, s.ctl) && s.reg.obj.Some? && CleaningUp(s.reg.obj.value) && Next(w, s, a).reg.obj.Some?
    ensures CleaningUp(Next(w, s, a).reg.obj.value)
  {
    match a {
      case Update(after, uuid) => PutKeepsCleanup(w, s.reg, after, s.reg.version, uuid);
      case WriteSpec(uuid) =>
        if s.ctl.Computed? { PutKeepsCleanup(w, s.reg, NextOf(w, s.ctl.base, s.ctl.x), s.ctl.version, uuid); }
      case WriteBoth(uuid) =>
        if s.ctl.Computed? { PutKeepsCleanup(w, s.reg, NextOf(w, s.ctl.base, s.ctl.x), s.ctl.version, uuid); }
      case _ =>
    }
  }

  // ----- a terminal status in the spec -----

  lemma {:induction false} PutTerminal(w: World, r: Register, sent: InstanceData, version: nat, uuid: UID)
    requires PutInstance(w, r, sent, version, uuid).Some? && !r.obj.value.deleting
    ensures
      var obj := PutInstance(w, r, sent, version, uuid).value.obj;
      obj.Some? && obj.value.spec.execution.status.IsTerminal() ==>
        obj.value.spec.execution == r.obj.value.spec.execution
  {
  }

  /** The execution of an instance that is stored and not being deleted. */
  ghost function Live(s: State): Option<PlanExecution> {
    if s.reg.obj.Some? && !s.reg.obj.value.deleting then Some(s.reg.obj.value.spec.execution) else None
  }

  lemma {:induction false} TerminalStep(w: World, s: State, a: Action)
    requires CtlOk(w, s.ctl) && Live(Next(w, s, a)).Some? && Live(Next(w, s, a)).value.status.IsTerminal()
    ensures
      || Live(Next(w, s, a)) == Live(s)
      || (a.Create? && Live(Next(w, s, a)).value == PlanExecution(DEPLOY, a.uuid, a.i.spec.execution.status))
  {
    match a {
      case Update(after, uuid) => TerminalUpdate(w, s, after, uuid);
      case WriteSpec(uuid) => TerminalWrite(w, s, uuid);
      case WriteBoth(uuid) =>
        TerminalWrite(w, s, uuid);
        LiveStays(w, DoWriteSpec(w, s, uuid));
      case WriteStatus => LiveStays(w, s);
      case _ =>
    }
  }

  lemma {:induction false} LiveStays(w: World, s: State)
    requires CtlOk(w, s.ctl)
    ensures Live(DoWriteStatus(w, s)) == Live(s)
  {
  }

  lemma {:induction false} TerminalUpdate(w: World, s: State, after: InstanceData, uuid: UID)
    ensures
      var e := Live(DoUpdate(w, s, after, uuid));
      e.Some? && e.value.status.IsTerminal() ==> e == Live(s)
  {
    if PutInstance(w, s.reg, after, s.reg.version, uuid).Some? && !s.reg.obj.value.deleting {
      PutTerminal(w, s.reg, after, s.reg.version, uuid);
    }
  }

  lemma {:induction false} TerminalWrite(w: World, s: State, uuid: UID)
    requires CtlOk(w, s.ctl)
    ensures
      var e := Live(DoWriteSpec(w, s, uuid));
      e.Some? && e.value.status.IsTerminal() ==> e == Live(s)
  {
    if s.ctl.Computed? {
      var next := NextOf(w, s.ctl.base, s.ctl.x);
      if PutInstance(w, s.reg, next, s.ctl.version, uuid).Some? && !s.reg.obj.value.deleting {
        PutTerminal(w, s.reg, next, s.ctl.version, uuid);
      }
    }
  }

  /** Outside deletion the stored execution has a terminal status only if the user sent that status
      with the creation of the instance, and the execution has not changed since. */
  lemma {:induction false} TerminalOnlyFromCreation(w: World, acts: seq<Action>) returns (n: nat)
    requires Live(After(w, acts)).Some? && Live(After(w, acts)).value.status.IsTerminal()
    ensures
      var e := Live(After(w, acts)).value;
      && n < |acts| && acts[n].Create? && e == PlanExecution(DEPLOY, acts[n].uuid, acts[n].i.spec.execution.status)
      && (forall k | n < k <= |acts| :: Live(After(w, acts[..k])) == Some(e))
    decreases |acts|
  {
    var m := |acts| - 1;
    var s := After(w, acts[..m]);
    assert acts[..|acts|] == acts;
    TerminalStep(w, s, acts[m]);
    if Live(After(w, acts)) == Live(s) {
      n := TerminalOnlyFromCreation(w, acts[..m]);
      forall k | n < k <= |acts| ensures Live(After(w, acts[..k])) == Live(After(w, acts)) {
        if k <= m { assert acts[..m][..k] == acts[..k]; }
      }
    } else {
      n := m;
    }
  }

  // ----- parameters -----

  function DefsOfRef(w: World, ref: string): seq<Parameter> {
    if ref in w.ovs then w.ovs[ref].parameters else []
  }

  /** The stored keys that the current operator version does not define. */
  ghost function Unknown(w: World, i: InstanceData): set<string> {
    set k | k in i.spec.parameters && !Defined(DefsOfRef(w, i.spec.ovRef), k)
  }

  ghost predicate Immutable(w: World, ref: string, k: string) {
    Defined(DefsOfRef(w, ref), k) && Def(DefsOfRef(w, ref), k).immutable
  }

  /** How the parameters may change from `i` to `j`. */
  ghost predicate ParamsEvolve(w: World, i: InstanceData, j: InstanceData) {
    && Unknown(w, j) <= Unknown(w, i)
    && (forall k | k in Unknown(w, j) :: j.spec.parameters[k] == i.spec.parameters[k])
  }

  ghost predicate ImmutablesEvolve(w: World, i: InstanceData, j: InstanceData) {
    forall k | k in j.spec.parameters && Immutable(w, i.spec.ovRef, k) ::
      k in i.spec.parameters && j.spec.parameters[k] == i.spec.parameters[k]
  }

  lemma {:induction false} AdmittedParams(w: World, before: InstanceData, after: InstanceData, uuid: UID)
    requires Updated(w, before, after, uuid).Stored?
    ensures
      var j := Updated(w, before, after, uuid).instance;
      ParamsEvolve(w, before, j) && (!IsUpgrade(before, j) ==> ImmutablesEvolve(w, before, j))
  {
    var j := Updated(w, before, after, uuid).instance;
    if !MetadataOnly(before, after) {
      var ov := w.ovs[after.spec.ovRef];
      var oldOv := if IsUpgrade(before, after) then w.ovs[before.spec.ovRef] else ov;
      var p, q := before.spec.parameters, after.spec.parameters;
      assert j.spec.parameters == StoredParams(before, after, ov, oldOv);
      forall k | k in j.spec.parameters
        ensures !Defined(ov.parameters, k) ==> k in p && p[k] == q[k] && !Defined(oldOv.parameters, k)
        ensures !IsUpgrade(before, after) && Immutable(w, before.spec.ovRef, k) ==> k in p && p[k] == q[k]
      {
        assert k in q;
        if k in ChangedKeys(p, q) {
          assert Defined(ov.parameters, k);
          if !IsUpgrade(before, after) {
            assert Def(ov.parameters, k) in ChangedDefs(p, q, oldOv.parameters, ov.parameters);
          }
        }
      }
    }
  }

  /** An operator version change is admitted only on an idle instance, with no plan requested,
      outside deletion; then every parameter that became immutable, or was added as immutable,
      has an explicit value among the stored ones. */
  lemma {:induction false} UpgradeRules(w: World, before: InstanceData, after: InstanceData, uuid: UID)
    requires IsUpgrade(before, after) && Updated(w, before, after, uuid).Stored?
    ensures !after.deleting && before.spec.execution.planName == "" && after.spec.execution.planName == ""
    ensures before.spec.ovRef in w.ovs && after.spec.ovRef in w.ovs
    ensures
      var stored, oldOv, newOv := Updated(w, before, after, uuid).instance, w.ovs[before.spec.ovRef],
        w.ovs[after.spec.ovRef];
      && (forall p | p in newOv.parameters && p.immutable
        && (ImmutabilityChanged(oldOv.parameters, p) || !Defined(oldOv.parameters, p.name)) ::
            p.name in stored.spec.parameters)
      && stored.spec.execution.planName in {UPGRADE, UPDATE, DEPLOY} && stored.spec.execution.planName in newOv.plans
      && stored.spec.execution.uid == uuid
  {
    var stored, newOv := Updated(w, before, after, uuid).instance, w.ovs[after.spec.ovRef];
    var oldOv := w.ovs[before.spec.ovRef];
    assert stored.spec.parameters == Pruned(after.spec.parameters, oldOv.parameters, newOv.parameters);
    forall p | p in newOv.parameters && p.immutable && ImmutabilityChanged(oldOv.parameters, p)
      ensures p.name in stored.spec.parameters
    {
      DefinedByMember(newOv.parameters, p);
    }
  }

  /** What a step may do to the parameters of an instance that exists before and after it. */
  ghost predicate Evolve(w: World, i: Option<InstanceData>, j: Option<InstanceData>) {
    i.Some? && j.Some? ==>
      && ParamsEvolve(w, i.value, j.value)
      && (!IsUpgrade(i.value, j.value) ==> ImmutablesEvolve(w, i.value, j.value))
  }

  lemma {:induction false} SameParams(w: World, i: InstanceData, j: InstanceData)
    requires i.spec == j.spec
    ensures Evolve(w, Some(i), Some(j))
  {
  }

  lemma {:induction false} PutParams(w: World, r: Register, sent: InstanceData, version: nat, uuid: UID)
    ensures
      var r' := PutInstance(w, r, sent, version, uuid);
      r'.Some? ==> Evolve(w, r.obj, r'.value.obj)
  {
    if r.obj.Some? {
      var before, after := r.obj.value, sent.(deleting := r.obj.value.deleting);
      if Updated(w, before, after, uuid).Stored? { AdmittedParams(w, before, after, uuid); }
    }
  }

  lemma {:induction false} WriteSpecParams(w: World, s: State, uuid: UID)
    requires CtlOk(w, s.ctl)
    ensures Evolve(w, s.reg.obj, DoWriteSpec(w, s, uuid).reg.obj)
  {
    if s.reg.obj.Some? { SameParams(w, s.reg.obj.value, s.reg.obj.value); }
    if s.ctl.Computed? { PutParams(w, s.reg, NextOf(w, s.ctl.base, s.ctl.x), s.ctl.version, uuid); }
  }

  lemma {:induction false} SpecIsKept(w: World, s: State, a: Action)
    requires CtlOk(w, s.ctl) && (a.Create? || a.Delete? || a.Reconciles? || a.WriteStatus? || a.Crash?)
    requires s.reg.obj.Some? && Next(w, s, a).reg.obj.Some?
    ensures Next(w, s, a).reg.obj.value.spec == s.reg.obj.value.spec
  {
  }

  lemma {:induction false} StepParams(w: World, s: State, a: Action)
    requires CtlOk(w, s.ctl)
    ensures Evolve(w, s.reg.obj, Next(w, s, a).reg.obj)
  {
    if s.reg.obj.Some? && Next(w, s, a).reg.obj.Some? {
      match a {
        case Update(after, uuid) =>
          SameParams(w, s.reg.obj.value, s.reg.obj.value);
          PutParams(w, s.reg, after, s.reg.version, uuid);
        case WriteSpec(uuid) => WriteSpecParams(w, s, uuid);
        case WriteBoth(uuid) =>
          WriteSpecParams(w, s, uuid);
          var s' := DoWriteSpec(w, s, uuid);
          if s'.reg.obj.Some? { SpecIsKept(w, s', WriteStatus); }
        case _ =>
          SpecIsKept(w, s, a);
          SameParams(w, s.reg.obj.value, Next(w, s, a).reg.obj.value);
      }
    }
  }

  /** Over all updates and upgrades the stored keys unknown to the current operator version can
      only become fewer, and their values do not change. */
  lemma {:induction false} UnknownKeysShrink(w: World, acts: seq<Action>, n: nat, m: nat)
    requires n <= m <= |acts| && Alive(w, acts, n, m)
    ensures ParamsEvolve(w, At(w, acts, n), At(w, acts, m))
    decreases m
  {
    if n < m {
      UnknownKeysShrink(w, acts, n, m - 1);
      LastStep(w, acts, m);
      StepParams(w, After(w, acts[..m - 1]), acts[m - 1]);
    }
  }

  /** Between upgrades, the stored value of an immutable parameter is constant until it is
      possibly dropped, and once it is absent it can never be set again. */
  lemma {:induction false} ImmutableHistory(w: World, acts: seq<Action>, n: nat, m: nat)
    requires n <= m <= |acts| && Alive(w, acts, n, m)
    requires forall k | n <= k <= m :: At(w, acts, k).spec.ovRef == At(w, acts, n).spec.ovRef
    ensures ImmutablesEvolve(w, At(w, acts, n), At(w, acts, m))
    decreases m
  {
    if n < m {
      ImmutableHistory(w, acts, n, m - 1);
      LastStep(w, acts, m);
      StepParams(w, After(w, acts[..m - 1]), acts[m - 1]);
      assert At(w, acts, m - 1).spec.ovRef == At(w, acts, m).spec.ovRef;
    }
  }
}
