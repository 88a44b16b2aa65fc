/** The instance protocol: users, the API server with its admission webhook, and the controller,
    as one state machine. Every write of an instance goes through admission; the controller
    writes the spec first and the status second, and may stop anywhere in between. */
module Protocol {
  import opened Plans
  import opened Parameters
  import opened Instances
  import opened Admission
  import opened Controller
  import opened Engine

  // ----- the API server -----

  /** The stored instance and its resource version; every successful write raises the version. */
  datatype Register = Register(obj: Option<InstanceData>, version: nat)

  /** A write to the instance itself cannot touch the status or the deletion timestamp, and an
      instance that is being deleted disappears with its last finalizer. */
  function Merged(before: InstanceData, sent: InstanceData): InstanceData {
    sent.(planStatus := before.planStatus, readiness := before.readiness, deleting := before.deleting)
  }

  function Kept(i: InstanceData): Option<InstanceData> {
    if i.deleting && i.finalizers == [] then None else Some(i)
  }

  /** The version check, admission, and the store. */
  ghost function PutInstance(w: World, r: Register, sent: InstanceData, version: nat, uuid: UID): Option<Register> {
    if r.obj.None? || version != r.version then None else
    match Updated(w, r.obj.value, sent.(deleting := r.obj.value.deleting), uuid)
    case Refused(_) => None
    case Stored(i) => Some(Register(Kept(Merged(r.obj.value, i)), r.version + 1))
  }

  /** The status subresource: version check, but no admission. */
  function PutStatus(r: Register, sent: InstanceData, version: nat): Option<Register> {
    if r.obj.None? || version != r.version then None else
    Some(Register(Some(r.obj.value.(planStatus := sent.planStatus, readiness := sent.readiness)), r.version + 1))
  }

  class ApiServer {
    var obj: Option<InstanceData>
    var version: nat

    function Value(): Register
      reads this
    {
      Register(obj, version)
    }

    method Update(w: World, sent: InstanceData, sentVersion: nat, uuid: UID) returns (ok: bool)
      modifies this
      ensures
        var r := PutInstance(w, old(Value()), sent, sentVersion, uuid);
        ok == r.Some? && Value() == if ok then r.value else old(Value())
    {
      if obj.None? || sentVersion != version { return false; }
      var before := obj.value;
      var i := new Instance(sent.(deleting := before.deleting));
      var denied := HandleUpdate(w, before, i, uuid);
      if denied.Some? { return false; }
      obj, version := Kept(Merged(before, i.Data())), version + 1;
      return true;
    }

    method UpdateStatus(sent: InstanceData, sentVersion: nat) returns (ok: bool)
      modifies this
      ensures
        var r := PutStatus(old(Value()), sent, sentVersion);
        ok == r.Some? && Value() == if ok then r.value else old(Value())
    {
      if obj.None? || sentVersion != version { return false; }
      obj, version := Some(obj.value.(planStatus := sent.planStatus, readiness := sent.readiness)), version + 1;
      return true;
    }
  }

  // ----- the two writes of the controller -----

  /** The first write is left out when neither spec nor metadata changed. */
  predicate NeedsSpecWrite(base: InstanceData, next: InstanceData) {
    next.spec != base.spec || next.finalizers != base.finalizers
  }

  ghost function AfterSpecWrite(w: World, r: Register, base: InstanceData, version: nat, next: InstanceData,
                                uuid: UID): Option<Register> {
    if NeedsSpecWrite(base, next) then PutInstance(w, r, next, version, uuid) else Some(r)
  }

  /** `updateInstance`, on an instance computed from `base` as read at `version`. */
  method UpdateInstance(w: World, server: ApiServer, i: Instance, base: InstanceData, version: nat, uuid: UID)
    returns (ok: bool)
    requires i.Valid()
    modifies server, i
    ensures
      var next := WithoutFinalizer(old(i.Data()));
      var r := AfterSpecWrite(w, old(server.Value()), base, version, next, uuid);
      if r.None? then !ok && server.Value() == old(server.Value()) else
      var version' := if NeedsSpecWrite(base, next) then version + 1 else version;
      var r' := PutStatus(r.value, next, version');
      && server.Value() == (if r'.Some? then r'.value else r.value)
      && ok == (r'.Some? || (next.deleting && next.finalizers == []))
    ensures i.Data() == WithoutFinalizer(old(i.Data()))
  {
    var _ := i.TryRemoveFinalizer();
    var next, current := i.Data(), version;
    if next.spec != base.spec || next.finalizers != base.finalizers {
      ok := server.Update(w, next, version, uuid);
      if !ok { return; }
      current := version + 1;
    }
    ok := server.UpdateStatus(next, current);
    if !ok && i.deleting && i.finalizers == [] { return true; }
  }

  // ----- the state machine -----

  datatype Progress =
    | Idle
    | Computed(base: InstanceData, version: nat, x: Inputs)
    | SpecWritten(base: InstanceData, version: nat, x: Inputs)

  /** A task run, with the plan execution it belongs to: its UID, its operator version and plan. */
  datatype Executed = Executed(uid: UID, ovRef: string, plan: string, run: Run)

  /** `used` holds every UID that was ever generated or sent, `finished` those for which a spec
      write carrying a terminal status was admitted while the instance was not being deleted. */
  datatype State = State(reg: Register, ctl: Progress, used: set<UID>, finished: set<UID>, log: seq<Executed>)

  datatype Action =
    | Create(i: InstanceData, cleanup: Option<PlanStatus>, uuid: UID)
    | Update(after: InstanceData, uuid: UID)
    | Delete
    | Reconciles(x: Inputs)
    | WriteSpec(uuid: UID)
    | WriteStatus
    | WriteBoth(uuid: UID)
    | Crash

  const INIT := State(Register(None, 0), Idle, {}, {}, [])

  /** Generated UUIDs are new, so are the numbers given to reconciliations, and a lookup finds one
      of the statuses of that name. */
  ghost predicate Enabled(s: State, a: Action) {
    match a
    case Create(i, cleanup, uuid) => uuid != "" && uuid !in s.used && MayFind(i.planStatus, CLEANUP, cleanup)
    case Update(after, uuid) => uuid != "" && uuid !in s.used && uuid != after.spec.execution.uid
    case Reconciles(x) => x.uuid != "" && x.uuid !in s.used && NewPass(s.log, x.pass)
    case WriteSpec(uuid) => uuid != "" && uuid !in s.used
    case WriteBoth(uuid) => uuid != "" && uuid !in s.used
    case _ => true
  }

  ghost predicate NewPass(log: seq<Executed>, pass: nat) {
    forall n | 0 <= n < |log| :: log[n].run.pass != pass
  }

  /** The instance a reconciliation of `base` hands to the API server. */
  ghost function NextOf(w: World, base: InstanceData, x: Inputs): InstanceData
    requires Reconciled(w, base, x).Writes?
  {
    WithoutFinalizer(Reconciled(w, base, x).next)
  }

  ghost predicate CtlOk(w: World, ctl: Progress) {
    ctl.Idle? || Reconciled(w, ctl.base, ctl.x).Writes?
  }

  function FinishedBy(before: InstanceData, sent: InstanceData): set<UID> {
    var e := sent.spec.execution;
    if !before.deleting && !MetadataOnly(before, sent) && e.status.IsTerminal() && e.uid != "" then {e.uid} else {}
  }

  function Logged(spec: Spec, runs: seq<Run>): seq<Executed> {
    seq(|runs|, n requires 0 <= n < |runs| => Executed(spec.execution.uid, spec.ovRef, spec.execution.planName,
      runs[n]))
  }

  ghost function DoCreate(w: World, s: State, i: InstanceData, cleanup: Option<PlanStatus>, uuid: UID): State {
    if s.reg.obj.Some? then s else
    match Created(w, i, cleanup, uuid)
    case Refused(_) => s
    case Stored(j) =>
      s.(reg := Register(Some(j.(planStatus := map[], readiness := "", deleting := false)), s.reg.version + 1),
         used := s.used + {uuid, i.spec.execution.uid})
  }

  ghost function DoUpdate(w: World, s: State, after: InstanceData, uuid: UID): State {
    var used := s.used + {uuid, after.spec.execution.uid};
    var r := PutInstance(w, s.reg, after, s.reg.version, uuid);
    if r.None? then s.(used := used)
    else s.(reg := r.value, used := used, finished := s.finished + FinishedBy(s.reg.obj.value, after))
  }

  function DoDelete(s: State): State {
    if s.reg.obj.None? then s else
    s.(reg := Register(Kept(s.reg.obj.value.(deleting := true)), s.reg.version + 1))
  }

  ghost function DoReconcile(w: World, s: State, x: Inputs): State {
    if !s.ctl.Idle? || s.reg.obj.None? then s else
    match Reconciled(w, s.reg.obj.value, x)
    case Skips => s.(used := s.used + {x.uuid})
    case Writes(next, runs) =>
      s.(ctl := Computed(s.reg.obj.value, s.reg.version, x), used := s.used + {x.uuid},
         log := s.log + Logged(next.spec, runs))
  }

  ghost function DoWriteSpec(w: World, s: State, uuid: UID): State
    requires CtlOk(w, s.ctl)
  {
    if !s.ctl.Computed? then s else
    var Computed(base, version, x) := s.ctl;
    var next := NextOf(w, base, x);
    var r := AfterSpecWrite(w, s.reg, base, version, next, uuid);
    if r.None? then s.(ctl := Idle, used := s.used + {uuid})
    else if !NeedsSpecWrite(base, next) then s.(ctl := SpecWritten(base, version, x), used := s.used + {uuid})
    else s.(reg := r.value, ctl := SpecWritten(base, version + 1, x), used := s.used + {uuid, next.spec.execution.uid},
            finished := s.finished + FinishedBy(s.reg.obj.value, next))
  }

  ghost function DoWriteStatus(w: World, s: State): State
    requires CtlOk(w, s.ctl)
  {
    if !s.ctl.SpecWritten? then s else
    var SpecWritten(base, version, x) := s.ctl;
    var r := PutStatus(s.reg, NextOf(w, base, x), version);
    s.(ctl := Idle, reg := if r.Some? then r.value else s.reg)
  }

  ghost function Next(w: World, s: State, a: Action): (s': State)
    requires CtlOk(w, s.ctl)
    ensures CtlOk(w, s'.ctl)
  {
    match a
    case Create(i, cleanup, uuid) => DoCreate(w, s, i, cleanup, uuid)
    case Update(after, uuid) => DoUpdate(w, s, after, uuid)
    case Delete => DoDelete(s)
    case Reconciles(x) => DoReconcile(w, s, x)
    case WriteSpec(uuid) => DoWriteSpec(w, s, uuid)
    case WriteStatus => DoWriteStatus(w, s)
    case WriteBoth(uuid) => DoWriteStatus(w, DoWriteSpec(w, s, uuid))
    case Crash => s.(ctl := Idle)
  }

  /** The state after a run of actions. */
  ghost function After(w: World, acts: seq<Action>): (s: State)
    ensures CtlOk(w, s.ctl)
  {
    if acts == [] then INIT else
    var n := |acts| - 1;
    Next(w, After(w, acts[..n]), acts[n])
  }

  /** Every action of the run was enabled when it happened. */
  ghost predicate Legal(w: World, acts: seq<Action>) {
    forall n | 0 <= n < |acts| :: Enabled(After(w, acts[..n]), acts[n])
  }
}
