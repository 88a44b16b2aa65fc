/** Runs that show why the promises of the protocol carry their assumptions. */
module ProtocolLimits {
  import opened Plans
  import opened Parameters
  import opened Instances
  import opened Admission
  import opened Controller
  import opened Engine
  import opened Protocol
  import opened ProtocolSafety
  import opened ProtocolTheorems

  const NO_STEPS := Plan(Serial, [])
  const REQUEST := InstanceData(Spec("ov", map[], PlanExecution("", "", Unset)), map[], "", [], false)

  function WorldOf(ov: OperatorVersion): World {
    World(map["ov" := ov], (_, _) => true)
  }

  function Input(uuid: UID, now: Mark, readiness: string, prepares: bool): Inputs {
    Inputs(uuid, now, readiness, true, prepares, (_, _, _) => Done, now)
  }

  // ----- building legal runs step by step -----

  /** Six UIDs, as the webhook and the controller generate them: not empty and all different. */
  datatype Ids = Ids(a: UID, b: UID, c: UID, d: UID, e: UID, f: UID) {
    predicate Distinct() {
      && a != "" && b != "" && c != "" && d != "" && e != "" && f != ""
      && a != b && a != c && a != d && a != e && a != f && b != c && b != d && b != e && b != f
      && c != d && c != e && c != f && d != e && d != f && e != f
    }
  }

  /** The instance `i` is stored, and the controller is idle. */
  ghost predicate Rests(s: State, i: InstanceData, version: nat, used: set<UID>) {
    s.reg == Register(Some(i), version) && s.ctl.Idle? && s.used == used
  }

  ghost predicate Holds(s: State, i: InstanceData, version: nat, x: Inputs, used: set<UID>) {
    s.reg == Register(Some(i), version) && s.ctl == Computed(i, version, x) && s.used == used
  }

  /** A legal run, without any update or deletion by a user, that ends in the given state. */
  ghost predicate Reaches(w: World, acts: seq<Action>, s: State) {
    && Legal(w, acts) && After(w, acts) == s
    && (forall a | a in acts :: !a.Update? && !a.Delete?)
  }

  lemma {:induction false} ReachesNext(w: World, acts: seq<Action>, s: State, a: Action)
    requires Reaches(w, acts, s) && Enabled(s, a) && !a.Update? && !a.Delete?
    ensures CtlOk(w, s.ctl) && Reaches(w, acts + [a], Next(w, s, a))
  {
    LegalNext(w, acts, a);
  }

  lemma {:induction false} LegalNext(w: World, acts: seq<Action>, a: Action)
    requires Legal(w, acts) && Enabled(After(w, acts), a)
    ensures Legal(w, acts + [a]) && After(w, acts + [a]) == Next(w, After(w, acts), a)
  {
    var more := acts + [a];
    assert more[..|acts|] == acts;
    forall n | 0 <= n < |more| ensures Enabled(After(w, more[..n]), more[n]) {
      if n < |acts| { assert more[..n] == acts[..n]; }
    }
  }

  lemma {:induction false} Begin(w: World, i: InstanceData, uuid: UID, j: InstanceData)
    returns (acts: seq<Action>, s: State)
    requires i.planStatus == map[] && Created(w, i, None, uuid) == Stored(j) && j.planStatus == map[]
        && j.readiness == "" && !j.deleting && uuid != ""
    ensures Reaches(w, acts, s) && Rests(s, j, 1, {uuid, i.spec.execution.uid}) && s.finished == {} && s.log == []
  {
    acts, s := [], INIT;
    ReachesNext(w, acts, s, Create(i, None, uuid));
    acts, s := acts + [Create(i, None, uuid)], Next(w, s, Create(i, None, uuid));
    assert j == j.(planStatus := map[], readiness := "", deleting := false);
  }

  lemma {:induction false} Computes(w: World, acts: seq<Action>, s: State, x: Inputs, i: InstanceData, version: nat,
                                    used: set<UID>)
    returns (acts': seq<Action>, s': State)
    requires Reaches(w, acts, s) && Rests(s, i, version, used) && x.uuid != "" && x.uuid !in used
        && NewPass(s.log, x.pass)
    requires Reconciled(w, i, x).Writes?
    ensures Reaches(w, acts', s')
    ensures Holds(s', i, version, x, used + {x.uuid}) && s'.finished == s.finished
    ensures s'.log == s.log + Logged(NextOf(w, i, x).spec, Reconciled(w, i, x).runs)
  {
    ReachesNext(w, acts, s, Reconciles(x));
    acts', s' := acts + [Reconciles(x)], Next(w, s, Reconciles(x));
  }

  lemma {:induction false} WritesFirst(w: World, acts: seq<Action>, s: State, uuid: UID, i: InstanceData, version: nat,
                                       x: Inputs, used: set<UID>, j: InstanceData)
    returns (acts': seq<Action>, s': State)
    requires Reaches(w, acts, s) && Holds(s, i, version, x, used) && uuid != "" && uuid !in used
    requires Reconciled(w, i, x).Writes? && NeedsSpecWrite(i, NextOf(w, i, x))
        && NextOf(w, i, x).deleting == i.deleting == false
    requires Updated(w, i, NextOf(w, i, x), uuid) == Stored(j)
    ensures Reaches(w, acts', s')
    ensures s'.reg == Register(Some(Merged(i, j)), version + 1)
    ensures s'.ctl == SpecWritten(i, version + 1, x) && s'.used == used + {uuid, NextOf(w, i, x).spec.execution.uid}
    ensures s'.finished == s.finished + FinishedBy(i, NextOf(w, i, x)) && s'.log == s.log
  {
    ReachesNext(w, acts, s, WriteSpec(uuid));
    acts', s' := acts + [WriteSpec(uuid)], Next(w, s, WriteSpec(uuid));
    FirstWriteIs(w, s.reg, i, version, NextOf(w, i, x), uuid, j);
  }

  lemma {:induction false} FirstWriteIs(w: World, r: Register, i: InstanceData, version: nat, next: InstanceData,
                                        uuid: UID, j: InstanceData)
    requires r == Register(Some(i), version) && NeedsSpecWrite(i, next) && next.deleting == i.deleting == false
    requires Updated(w, i, next, uuid) == Stored(j)
    ensures AfterSpecWrite(w, r, i, version, next, uuid) == Some(Register(Some(Merged(i, j)), version + 1))
  {
    assert next.(deleting := i.deleting) == next;
  }

  lemma {:induction false} WritesSecond(w: World, acts: seq<Action>, s: State, i: InstanceData, j: InstanceData,
                                        version: nat, x: Inputs)
    returns (acts': seq<Action>, s': State)
    requires Reaches(w, acts, s) && s.reg == Register(Some(j), version) && s.ctl == SpecWritten(i, version, x)
    requires Reconciled(w, i, x).Writes?
    ensures Reaches(w, acts', s') && s'.finished == s.finished && s'.log == s.log
    ensures Rests(s', j.(planStatus := NextOf(w, i, x).planStatus, readiness := NextOf(w, i, x).readiness),
        version + 1, s.used)
  {
    ReachesNext(w, acts, s, WriteStatus);
    acts', s' := acts + [WriteStatus], Next(w, s, WriteStatus);
  }

  lemma {:induction false} Stops(w: World, acts: seq<Action>, s: State, i: InstanceData, version: nat)
    returns (acts': seq<Action>, s': State)
    requires Reaches(w, acts, s) && s.reg == Register(Some(i), version)
    ensures Reaches(w, acts', s') && Rests(s', i, version, s.used) && s'.finished == s.finished && s'.log == s.log
  {
    ReachesNext(w, acts, s, Crash);
    acts', s' := acts + [Crash], Next(w, s, Crash);
  }

  // ----- a small operator -----

  /** An operator whose plans have no phases, with the given parameters. */
  function Operator(parameters: seq<Parameter>, plans: set<string>): OperatorVersion {
    OperatorVersion("op", "1.0.0", "", [], parameters, map k | k in plans :: NO_STEPS)
  }

  function NewStatus(k: string): PlanStatus { PlanStatus(k, NeverRun, [], "", None) }

  /** The plan statuses `m` together with new ones for the plans that have none. */
  function AllStatuses(m: map<string, PlanStatus>, plans: set<string>): map<string, PlanStatus> {
    map k | k in m.Keys + plans :: if k in m then m[k] else NewStatus(k)
  }

  lemma {:induction false} NoStatusesYet(plans: set<string>)
    ensures AllStatuses(map[], plans) == map k | k in plans :: NewStatus(k)
  {
  }

  /** A pass over a plan without phases completes it. */
  lemma {:induction false} EmptyPlanCompletes(ps: PlanStatus, x: Inputs, tasks: seq<Task>)
    requires !ps.status.IsTerminal()
    ensures ExecutePass(Pass(NO_STEPS, tasks, x.ask, x.pass), ps, []) == Result(ps.(status := Complete), None, [])
  {
  }

  lemma {:induction false} SmallInit(parameters: seq<Parameter>, plans: set<string>, m: map<string, PlanStatus>)
    requires KeyedByName(m) && forall k | k in m :: m[k].phases == []
    ensures InitStatus(m, Operator(parameters, plans).plans) == AllStatuses(m, plans)
  {
    var all := AllStatuses(m, plans);
    forall k | k in plans ensures InitPlan(k, NO_STEPS, m) == all[k] { assert InitPhases([], all[k].phases) == []; }
  }

  /** What a reconciliation of that operator writes, for an instance with plan statuses `m`. */
  lemma {:induction false} SmallReconcile(parameters: seq<Parameter>, plans: set<string>, i: InstanceData, x: Inputs)
    requires i.spec.ovRef == "ov" && !i.deleting && i.spec.execution.planName in plans
        && i.spec.execution.planName != "" && x.resolves
    requires KeyedByName(i.planStatus) && forall k | k in i.planStatus :: i.planStatus[k].phases == []
    requires
      var plan := i.spec.execution.planName;
      plan in i.planStatus && i.planStatus[plan].uid == i.spec.execution.uid ==> !i.planStatus[plan].status.IsTerminal()
    ensures
      var w, e := WorldOf(Operator(parameters, plans)), i.spec.execution;
      var all := AllStatuses(i.planStatus, plans);
      var now := if all[e.planName].uid == e.uid then all[e.planName]
        else PlanStatus(e.planName, Pending, [], e.uid, Some(x.now));
      var end := if x.prepares then now.(status := Complete, updated := Some(x.now)) else now;
      var status := if x.prepares || all[e.planName].uid != e.uid then end.status else e.status;
      Reconciled(w, i, x) ==
      Writes(i.(spec := i.spec.(execution := e.(status := status)), planStatus := all[e.planName := end],
        readiness := x.readiness), [])
  {
    var w, e := WorldOf(Operator(parameters, plans)), i.spec.execution;
    var ov := Operator(parameters, plans);
    assert w.ovs["ov"] == ov && ov.plans.Keys == plans;
    var all := AllStatuses(i.planStatus, plans);
    var s := i.(readiness := x.readiness);
    SmallInit(parameters, plans, i.planStatus);
    assert Stamped(ResetTree(all[e.planName], e.uid), x.now) == PlanStatus(e.planName, Pending, [], e.uid, Some(x.now));
    var r := Prepared(s, ov, x.now).value;
    EmptyPlanCompletes(r.planStatus[e.planName], x, []);
    if x.prepares {
      assert Advanced(r, ov, x).next.planStatus
        == all[e.planName := r.planStatus[e.planName].(status := Complete, updated := Some(x.now))];
    } else {
      assert r.planStatus == all[e.planName := r.planStatus[e.planName]];
    }
  }

  const ALWAYS: (string, string) -> bool := (_, _) => true

  lemma {:induction false} NoDefaults(defs: seq<Parameter>, params: Params)
    requires forall p | p in defs :: !p.immutable
    ensures WithImmutableDefaults(defs, params) == params
  {
    if defs != [] { NoDefaults(defs[1..], params); }
  }

  function Created0(u: Ids, plans: set<string>): InstanceData {
    REQUEST.(spec := Spec("ov", map[], PlanExecution(DEPLOY, u.a, Unset)),
             finalizers := if CLEANUP in plans then [CLEANUP_FINALIZER] else [])
  }

  function Completed(u: Ids, plans: set<string>): InstanceData {
    Created0(u, plans).(spec := Spec("ov", map[], PlanExecution(DEPLOY, u.a, Complete)), readiness := "r",
                     planStatus := (map k | k in plans ::
                       NewStatus(k))[DEPLOY := PlanStatus(DEPLOY, Complete, [], u.a, Some(1))])
  }

  function Idle0(u: Ids, plans: set<string>): InstanceData {
    Created0(u, plans).(spec := NONE_SCHEDULED)
  }

  const NONE_SCHEDULED := Spec("ov", map[], PlanExecution("", "", Unset))
  function First(u: Ids): Inputs { Input(u.b, 1, "r", true) }

  lemma {:induction false} CreatedIs(u: Ids, parameters: seq<Parameter>, plans: set<string>)
    requires DEPLOY in plans && ParamsValid(parameters, map[], ALWAYS) && forall p | p in parameters :: !p.immutable
    ensures Created(WorldOf(Operator(parameters, plans)), REQUEST, None, u.a) == Stored(Created0(u, plans))
  {
    NoDefaults(parameters, map[]);
  }

  lemma {:induction false} CompletedIs(u: Ids, parameters: seq<Parameter>, plans: set<string>)
    requires DEPLOY in plans
    ensures
      var w := WorldOf(Operator(parameters, plans));
      Reconciled(w, Created0(u, plans), First(u)) == Writes(Completed(u, plans), [])
        && NextOf(w, Created0(u, plans), First(u)) == Completed(u, plans)
  {
    var i := Created0(u, plans);
    SmallReconcile(parameters, plans, i, First(u));
    NoStatusesYet(plans);
  }

  lemma {:induction false} CompletedIsCleared(u: Ids, parameters: seq<Parameter>, plans: set<string>)
    requires DEPLOY in plans && ParamsValid(parameters, map[], ALWAYS)
    ensures
      var w, i, next := WorldOf(Operator(parameters, plans)), Created0(u, plans), Completed(u, plans);
      && NeedsSpecWrite(i, next) && !next.deleting && Updated(w, i, next, u.c) == Stored(next.(spec := NONE_SCHEDULED))
      && Merged(i, next.(spec := NONE_SCHEDULED)) == Idle0(u, plans) && (u.a != "" ==> FinishedBy(i, next) == {u.a})
  {
    ProgressVerdict(WorldOf(Operator(parameters, plans)), Created0(u, plans), Completed(u, plans), u.c);
  }

  /** Creation, the first reconciliation, and its first write, of which `j` is stored. */
  lemma {:induction false} FirstReconcile(w: World, u: Ids, request: InstanceData, i: InstanceData, x: Inputs,
                                          j: InstanceData)
    returns (acts: seq<Action>, s: State)
    requires u.Distinct() && x.uuid == u.b && request.planStatus == map[] && request.spec.execution.uid == ""
    requires Created(w, request, None, u.a) == Stored(i) && i.planStatus == map[] && i.readiness == "" && !i.deleting
    requires Reconciled(w, i, x).Writes?
    requires NeedsSpecWrite(i, NextOf(w, i, x)) && !NextOf(w, i, x).deleting
        && NextOf(w, i, x).spec.execution.uid == u.a
    requires Updated(w, i, NextOf(w, i, x), u.c) == Stored(j)
    ensures Reaches(w, acts, s) && s.reg == Register(Some(Merged(i, j)), 2) && s.ctl == SpecWritten(i, 2, x)
    ensures s.used == {u.a, "", u.b, u.c} && s.finished == FinishedBy(i, NextOf(w, i, x))
    ensures s.log == Logged(NextOf(w, i, x).spec, Reconciled(w, i, x).runs)
  {
    var used: set<UID> := {u.a, "", u.b};
    assert u.c !in used && used + {u.c, u.a} == {u.a, "", u.b, u.c};
    acts, s := BeginAndCompute(w, u, request, i, x);
    var acts', s' := WritesFirst(w, acts, s, u.c, i, 1, x, used, j);
    assert s'.finished == FinishedBy(i, NextOf(w, i, x));
    acts, s := acts', s';
  }

  lemma {:induction false} BeginAndCompute(w: World, u: Ids, request: InstanceData, i: InstanceData, x: Inputs)
    returns (acts: seq<Action>, s: State)
    requires u.Distinct() && x.uuid == u.b && request.planStatus == map[] && request.spec.execution.uid == ""
    requires Created(w, request, None, u.a) == Stored(i) && i.planStatus == map[] && i.readiness == "" && !i.deleting
    requires Reconciled(w, i, x).Writes?
    ensures Reaches(w, acts, s) && Holds(s, i, 1, x, {u.a, "", u.b}) && s.finished == {}
    ensures s.log == Logged(NextOf(w, i, x).spec, Reconciled(w, i, x).runs)
  {
    acts, s := Begin(w, request, u.a, i);
    acts, s := Computes(w, acts, s, x, i, 1, {u.a, ""});
  }

  /** Deploy is created, completed and cleared by the first write of the first reconciliation. */
  lemma {:induction false} Deployed(u: Ids, parameters: seq<Parameter>, plans: set<string>)
    returns (acts: seq<Action>, s: State)
    requires u.Distinct()
    requires DEPLOY in plans && ParamsValid(parameters, map[], ALWAYS) && forall p | p in parameters :: !p.immutable
    ensures
      var w := WorldOf(Operator(parameters, plans));
      && Reaches(w, acts, s)
      && s.reg == Register(Some(Idle0(u, plans)), 2)
      && s.ctl == SpecWritten(Created0(u, plans), 2, First(u)) && s.used == {u.a, "", u.b, u.c} && s.finished == {u.a}
      && s.log == []
  {
    CreatedIs(u, parameters, plans);
    CompletedIs(u, parameters, plans);
    CompletedIsCleared(u, parameters, plans);
    var next := Completed(u, plans);
    acts, s := FirstReconcile(WorldOf(Operator(parameters, plans)), u, REQUEST, Created0(u, plans), First(u),
      next.(spec := NONE_SCHEDULED));
  }

  // ----- the finalizer is lost when the very first status write is -----

  /** The first reconciliation completes deploy and stops after its first write, so no status is
      stored. The next one finds no cleanup entry and takes the finalizer away: a healthy
      instance is left without it, although its cleanup plan has never run. */
  lemma {:induction false} FinalizerLost(u: Ids, plans: set<string>) returns (acts: seq<Action>, s: State)
    requires u.Distinct() && DEPLOY in plans && CLEANUP in plans
    ensures Reaches(WorldOf(Operator([], plans)), acts, s)
    ensures s.reg.obj == Some(Created0(u, plans).(spec := NONE_SCHEDULED, finalizers := []))
  {
    var before, deployed := Deployed(u, [], plans);
    acts, s := ResumesWithoutStatus(u, plans, before, deployed);
  }

  lemma {:induction false} ResumesWithoutStatus(u: Ids, plans: set<string>, acts: seq<Action>, s: State)
    returns (acts': seq<Action>, s': State)
    requires u.Distinct() && DEPLOY in plans && CLEANUP in plans
    requires Reaches(WorldOf(Operator([], plans)), acts, s) && s.log == []
    requires s.reg == Register(Some(Idle0(u, plans)), 2) && s.used == {u.a, "", u.b, u.c}
    ensures Reaches(WorldOf(Operator([], plans)), acts', s')
    ensures s'.reg.obj == Some(Created0(u, plans).(spec := NONE_SCHEDULED, finalizers := []))
  {
    var y := Input(u.d, 2, "s", true);
    var next := DropsFinalizer(u, plans, y, u.e);
    acts', s' := StopsAndResumes(WorldOf(Operator([], plans)), acts, s, Idle0(u, plans), 2, y, u.e, next);
  }

  /** A reconciliation of `i` makes its first write, of `next`, and that is stored as it is. */
  ghost predicate Resumable(w: World, i: InstanceData, y: Inputs, uuid: UID, next: InstanceData) {
    && Reconciled(w, i, y).Writes? && Reconciled(w, i, y).runs == [] && NextOf(w, i, y) == next && !next.deleting
    && NeedsSpecWrite(i, next) && Updated(w, i, next, uuid) == Stored(next)
  }

  /** The controller stops, reconciles again and makes the first write. */
  lemma {:induction false} StopsAndResumes(w: World, acts: seq<Action>, s: State, i: InstanceData, version: nat,
                                           y: Inputs, uuid: UID, next: InstanceData)
    returns (acts': seq<Action>, s': State)
    requires Reaches(w, acts, s) && s.reg == Register(Some(i), version) && !i.deleting
    requires y.uuid != "" && uuid != "" && y.uuid !in s.used && uuid !in s.used && uuid != y.uuid && s.log == []
    requires Resumable(w, i, y, uuid, next)
    ensures Reaches(w, acts', s')
    ensures s'.reg == Register(Some(Merged(i, next)), version + 1)
  {
    acts', s' := Stops(w, acts, s, i, version);
    acts', s' := ComputesAndWrites(w, acts', s', i, version, y, uuid, next);
  }

  /** A reconciliation and its first write, of which `j` is stored. */
  lemma {:induction false} ComputesAndWrites(w: World, acts: seq<Action>, s: State, i: InstanceData, version: nat,
                                             x: Inputs, uuid: UID, j: InstanceData)
    returns (acts': seq<Action>, s': State)
    requires Reaches(w, acts, s) && Rests(s, i, version, s.used) && !i.deleting && NewPass(s.log, x.pass)
    requires x.uuid != "" && uuid != "" && x.uuid !in s.used && uuid !in s.used && uuid != x.uuid
    requires Reconciled(w, i, x).Writes? && NeedsSpecWrite(i, NextOf(w, i, x)) && !NextOf(w, i, x).deleting
    requires Updated(w, i, NextOf(w, i, x), uuid) == Stored(j)
    ensures Reaches(w, acts', s') && s'.reg == Register(Some(Merged(i, j)), version + 1)
  {
    var used := s.used;
    acts', s' := Computes(w, acts, s, x, i, version, used);
    acts', s' := WritesFirst(w, acts', s', uuid, i, version, x, used + {x.uuid}, j);
  }

  lemma {:induction false} DropsFinalizer(u: Ids, plans: set<string>, y: Inputs, uuid: UID) returns (next: InstanceData)
    requires DEPLOY in plans && CLEANUP in plans && y == Input(u.d, 2, "s", true)
    ensures
      var w, idle := WorldOf(Operator([], plans)), Idle0(u, plans);
      && Resumable(w, idle, y, uuid, next)
        && Merged(idle, next) == Created0(u, plans).(spec := NONE_SCHEDULED, finalizers := [])
  {
    var w, idle := WorldOf(Operator([], plans)), Idle0(u, plans);
    assert Reconciled(w, idle, y) == Writes(idle.(readiness := "s"), []);
    assert Without([CLEANUP_FINALIZER], CLEANUP_FINALIZER) == [];
    next := NextOf(w, idle, y);
    ProgressVerdict(w, idle, next, uuid);
  }

  // ----- the two writes apart: a running status without a plan -----

  function Waiting(u: Ids, plans: set<string>): InstanceData {
    Created0(u, plans).(spec := Spec("ov", map[], PlanExecution(DEPLOY, u.a, Pending)), readiness := "r",
                        planStatus := (map k | k in plans ::
                          NewStatus(k))[DEPLOY := PlanStatus(DEPLOY, Pending, [], u.a, Some(1))])
  }

  lemma {:induction false} WaitingIs(u: Ids, plans: set<string>)
    requires u.Distinct() && DEPLOY in plans
    ensures
      var w, i, next, x := WorldOf(Operator([], plans)), Created0(u, plans), Waiting(u, plans),
        Input(u.b, 1, "r", false);
      && Resumable(w, i, x, u.c, next)
      && Merged(i, next).(planStatus := next.planStatus, readiness := next.readiness) == next
  {
    var w, i, next, x := WorldOf(Operator([], plans)), Created0(u, plans), Waiting(u, plans), Input(u.b, 1, "r", false);
    SmallReconcile([], plans, i, x);
    NoStatusesYet(plans);
    ProgressVerdict(w, i, next, u.c);
  }

  lemma {:induction false} WaitingReconciles(u: Ids, plans: set<string>)
    requires u.Distinct() && DEPLOY in plans
    ensures
      var w, i, x := WorldOf(Operator([], plans)), Waiting(u, plans), Input(u.d, 2, "r", true);
      && Reconciled(w, i, x).Writes? && Reconciled(w, i, x).runs == []
      && (var next := NextOf(w, i, x);
          && next.spec == i.spec.(execution := i.spec.execution.(status := Complete)) && next.deleting == i.deleting
          && next.finalizers == i.finalizers && next.readiness == i.readiness)
  {
    var i := Waiting(u, plans);
    WaitingStatuses(u, plans);
    SmallReconcile([], plans, i, Input(u.d, 2, "r", true));
    assert AllStatuses(i.planStatus, plans)[DEPLOY] == i.planStatus[DEPLOY];
  }

  lemma {:induction false} WaitingStatuses(u: Ids, plans: set<string>)
    requires DEPLOY in plans
    ensures
      var m := Waiting(u, plans).planStatus;
      && KeyedByName(m) && (forall k | k in m :: m[k].phases == []) && DEPLOY in m
      && m[DEPLOY] == PlanStatus(DEPLOY, Pending, [], u.a, Some(1))
  {
  }

  lemma {:induction false} WaitingCompletes(u: Ids, plans: set<string>) returns (next: InstanceData)
    requires u.Distinct() && DEPLOY in plans
    ensures
      var w, i, x := WorldOf(Operator([], plans)), Waiting(u, plans), Input(u.d, 2, "r", true);
      && Reconciled(w, i, x).Writes? && Reconciled(w, i, x).runs == [] && next == NextOf(w, i, x) && !next.deleting
      && NeedsSpecWrite(i, next) && Updated(w, i, next, u.e) == Stored(next.(spec := NONE_SCHEDULED))
      && Merged(i, next.(spec := NONE_SCHEDULED)) == i.(spec := NONE_SCHEDULED)
  {
    var w, i, x := WorldOf(Operator([], plans)), Waiting(u, plans), Input(u.d, 2, "r", true);
    WaitingReconciles(u, plans);
    next := NextOf(w, i, x);
    ProgressVerdict(w, i, next, u.e);
  }

  lemma {:induction false} DeployWaits(u: Ids, plans: set<string>) returns (acts: seq<Action>, s: State)
    requires u.Distinct() && DEPLOY in plans
    ensures Reaches(WorldOf(Operator([], plans)), acts, s) && Rests(s, Waiting(u, plans), 3, {u.a, "", u.b, u.c})
        && s.log == []
  {
    var w, i, x := WorldOf(Operator([], plans)), Created0(u, plans), Input(u.b, 1, "r", false);
    CreatedIs(u, [], plans);
    WaitingIs(u, plans);
    acts, s := FirstReconcile(w, u, REQUEST, i, x, Waiting(u, plans));
    acts, s := WritesSecond(w, acts, s, i, s.reg.obj.value, 2, x);
  }

  /** Deploy is pending and stored as such; the next reconciliation completes it but stops after
      its first write. Then a plan has a running status although the spec names none. */
  lemma {:induction false} StaleRunningStatus(u: Ids, plans: set<string>) returns (acts: seq<Action>, s: State)
    requires u.Distinct() && DEPLOY in plans
    ensures Reaches(WorldOf(Operator([], plans)), acts, s)
    ensures s.reg.obj == Some(Waiting(u, plans).(spec := NONE_SCHEDULED)) && s.ctl.Idle?
    ensures !OneRunning(s.reg.obj.value)
  {
    acts, s := DeployWaits(u, plans);
    acts, s := CompletesAndStops(u, plans, acts, s);
    assert DEPLOY in s.reg.obj.value.planStatus;
  }

  lemma {:induction false} CompletesAndStops(u: Ids, plans: set<string>, acts: seq<Action>, s: State)
    returns (acts': seq<Action>, s': State)
    requires u.Distinct() && DEPLOY in plans
    requires Reaches(WorldOf(Operator([], plans)), acts, s) && Rests(s, Waiting(u, plans), 3, {u.a, "", u.b, u.c})
        && s.log == []
    ensures Reaches(WorldOf(Operator([], plans)), acts', s') && s'.ctl.Idle?
    ensures s'.reg.obj == Some(Waiting(u, plans).(spec := NONE_SCHEDULED))
  {
    var w, i, x := WorldOf(Operator([], plans)), Waiting(u, plans), Input(u.d, 2, "r", true);
    var next := WaitingCompletes(u, plans);
    acts', s' := ComputesAndWrites(w, acts, s, i, 3, x, u.e, next.(spec := NONE_SCHEDULED));
    acts', s' := Stops(w, acts', s', s'.reg.obj.value, 4);
  }

  // ----- a plan that has ended stays scheduled -----

  /** The user sends the status COMPLETE along with the creation. */
  const ENDED_REQUEST := REQUEST.(spec := REQUEST.spec.(execution := PlanExecution("", "", Complete)))

  function CreatedEnded(u: Ids, plans: set<string>): InstanceData {
    Created0(u, plans).(spec := Spec("ov", map[], PlanExecution(DEPLOY, u.a, Complete)))
  }

  lemma {:induction false} EndedReconciles(u: Ids, plans: set<string>)
    requires u.Distinct() && DEPLOY in plans
    ensures
      var w, i, x := WorldOf(Operator([], plans)), CreatedEnded(u, plans), First(u);
      Reconciled(w, i, x) == Writes(Completed(u, plans), []) && NextOf(w, i, x) == Completed(u, plans)
      && !NeedsSpecWrite(i, Completed(u, plans))
  {
    SmallReconcile([], plans, CreatedEnded(u, plans), First(u));
    NoStatusesYet(plans);
  }

  /** A reconciliation without a first write. */
  lemma {:induction false} WritesStatusOnly(w: World, acts: seq<Action>, s: State, uuid: UID, i: InstanceData,
                                            version: nat, x: Inputs, used: set<UID>)
    returns (acts': seq<Action>, s': State)
    requires Reaches(w, acts, s) && Holds(s, i, version, x, used) && uuid != "" && uuid !in used
    requires Reconciled(w, i, x).Writes? && !NeedsSpecWrite(i, NextOf(w, i, x))
    ensures Reaches(w, acts', s')
    ensures Rests(s', i.(planStatus := NextOf(w, i, x).planStatus, readiness := NextOf(w, i, x).readiness),
        version + 1, used + {uuid})
  {
    ReachesNext(w, acts, s, WriteSpec(uuid));
    var written := Next(w, s, WriteSpec(uuid));
    acts', s' := WritesSecond(w, acts + [WriteSpec(uuid)], written, i, i, version, x);
  }

  lemma {:induction false} LeftAlone(u: Ids, plans: set<string>)
    requires DEPLOY in plans
    ensures forall x: Inputs | x.resolves ::
              var w, i := WorldOf(Operator([], plans)), Completed(u, plans);
              Reconciled(w, i, x).Writes? && Reconciled(w, i, x).runs == [] && NextOf(w, i, x).spec == i.spec
  {
    var w, i := WorldOf(Operator([], plans)), Completed(u, plans);
    forall x: Inputs | x.resolves
      ensures Reconciled(w, i, x).Writes? && Reconciled(w, i, x).runs == [] && NextOf(w, i, x).spec == i.spec
    {
      EndedPlanIsLeftAlone(w, i, x);
    }
  }

  /** Deploy ends COMPLETE in the first reconciliation. As the spec says so already, the spec is not
      written and never passes the webhook, which would clear it: the plan stays scheduled, in a
      run without a cleanup trigger, a crash or a deletion, and no reconciliation that resolves
      the dependencies runs or clears it any more. */
  lemma {:induction false} EndedPlanNotCleared(u: Ids, plans: set<string>) returns (acts: seq<Action>, s: State)
    requires u.Distinct() && DEPLOY in plans
    ensures Reaches(WorldOf(Operator([], plans)), acts, s) && NoCleanupTrigger(WorldOf(Operator([], plans)))
    ensures s.ctl.Idle? && s.reg.obj == Some(Completed(u, plans))
        && s.reg.obj.value.spec.execution == PlanExecution(DEPLOY, u.a, Complete)
    ensures forall x: Inputs | x.resolves ::
              var w := WorldOf(Operator([], plans));
              Reconciled(w, s.reg.obj.value, x).Writes? && Reconciled(w, s.reg.obj.value, x).runs == []
              && NextOf(w, s.reg.obj.value, x).spec == s.reg.obj.value.spec
  {
    var w, i := WorldOf(Operator([], plans)), CreatedEnded(u, plans);
    assert Created(w, ENDED_REQUEST, None, u.a) == Stored(i);
    EndedReconciles(u, plans);
    acts, s := BeginAndCompute(w, u, ENDED_REQUEST, i, First(u));
    acts, s := WritesStatusOnly(w, acts, s, u.c, i, 1, First(u), {u.a, "", u.b});
    LeftAlone(u, plans);
  }

  // ----- a parameter that triggers cleanup blocks the controller -----

  const TRIGGER := Parameter("p", false, None, CLEANUP, "string", false, None)

  function Triggered(u: Ids, plans: set<string>): InstanceData {
    Completed(u, plans).(spec := Spec("ov", map["p" := "x"], PlanExecution(CLEANUP, u.d, NeverRun)))
  }

  lemma {:induction false} DeployedAndStored(u: Ids, plans: set<string>) returns (acts: seq<Action>, s: State)
    requires u.Distinct() && DEPLOY in plans
    ensures
      var w := WorldOf(Operator([TRIGGER], plans));
      && Reaches(w, acts, s) && Rests(s, Completed(u, plans).(spec := NONE_SCHEDULED), 3, {u.a, "", u.b, u.c})
        && s.log == []
  {
    var w := WorldOf(Operator([TRIGGER], plans));
    acts, s := Deployed(u, [TRIGGER], plans);
    CompletedIs(u, [TRIGGER], plans);
    acts, s := WritesSecond(w, acts, s, Created0(u, plans), Idle0(u, plans), 2, First(u));
  }

  /** A user update that is stored as `j`. */
  lemma {:induction false} UserUpdates(w: World, acts: seq<Action>, s: State, after: InstanceData, uuid: UID,
                    i: InstanceData, version: nat, used: set<UID>, j: InstanceData) returns (acts': seq<Action>,
                      s': State)
    requires Legal(w, acts) && After(w, acts) == s && Rests(s, i, version, used)
    requires uuid != "" && uuid !in used && uuid != after.spec.execution.uid && !i.deleting && !after.deleting
    requires Updated(w, i, after, uuid) == Stored(j) && Merged(i, j) == j
    ensures Legal(w, acts') && After(w, acts') == s'
        && Rests(s', j, version + 1, used + {uuid, after.spec.execution.uid}) && s'.log == s.log
  {
    LegalNext(w, acts, Update(after, uuid));
    acts', s' := acts + [Update(after, uuid)], Next(w, s, Update(after, uuid));
    assert after.(deleting := i.deleting) == after;
  }

  lemma {:induction false} CleanupTriggered(u: Ids, plans: set<string>) returns (acts: seq<Action>, s: State)
    requires u.Distinct() && DEPLOY in plans && CLEANUP in plans
    ensures
      var w := WorldOf(Operator([TRIGGER], plans));
      Legal(w, acts) && After(w, acts) == s && Rests(s, Triggered(u, plans), 4, {u.a, "", u.b, u.c, u.d}) && s.log == []
  {
    acts, s := DeployedAndStored(u, plans);
    var idle := Completed(u, plans).(spec := NONE_SCHEDULED);
    var wanted := idle.(spec := NONE_SCHEDULED.(parameters := map["p" := "x"]));
    var stored := TriggerIsStored(u, plans, idle, wanted);
    var used: set<UID> := {u.a, "", u.b, u.c};
    assert u.d !in used && used + {u.d, ""} == {u.a, "", u.b, u.c, u.d};
    acts, s := UserUpdates(WorldOf(Operator([TRIGGER], plans)), acts, s, wanted, u.d, idle, 3, used, stored);
  }

  /** A reconciliation of `i` writes more than metadata. */
  ghost predicate Advances(w: World, i: InstanceData, x: Inputs) {
    Reconciled(w, i, x).Writes? && NeedsSpecWrite(i, NextOf(w, i, x)) && !MetadataOnly(i, NextOf(w, i, x))
  }

  lemma {:induction false} TriggeredAdvances(u: Ids, plans: set<string>, x: Inputs)
    requires DEPLOY in plans && CLEANUP in plans && u.Distinct() && x == Input(u.e, 3, "q", true)
    ensures
      var w, i := WorldOf(Operator([TRIGGER], plans)), Triggered(u, plans);
      Advances(w, i, x) && !i.deleting && i.spec.execution.planName == CLEANUP
  {
    SmallReconcile([TRIGGER], plans, Triggered(u, plans), x);
  }

  lemma {:induction false} ReconcilesFrom(w: World, acts: seq<Action>, s: State, i: InstanceData, version: nat,
                                          used: set<UID>, x: Inputs)
    returns (acts': seq<Action>, s': State)
    requires Legal(w, acts) && After(w, acts) == s && Rests(s, i, version, used) && x.uuid != "" && x.uuid !in used
    requires Reconciled(w, i, x).Writes? && NewPass(s.log, x.pass)
    ensures Legal(w, acts') && After(w, acts') == s' && s'.ctl == Computed(i, version, x) && s'.reg == s.reg
    ensures acts' == acts + [Reconciles(x)] && s'.log == s.log + Logged(NextOf(w, i, x).spec, Reconciled(w, i, x).runs)
  {
    LegalNext(w, acts, Reconciles(x));
    acts', s' := acts + [Reconciles(x)], Next(w, s, Reconciles(x));
  }

  /** Setting a parameter whose trigger is `cleanup` schedules that plan on an instance that is
      not being deleted; from then on every progress write of the controller is refused. */
  lemma {:induction false} CleanupTriggerBlocks(u: Ids, plans: set<string>, uuid: UID)
    returns (acts: seq<Action>, s: State)
    requires u.Distinct() && DEPLOY in plans && CLEANUP in plans
    ensures
      var w := WorldOf(Operator([TRIGGER], plans));
      && Legal(w, acts) && After(w, acts) == s
      && s.ctl.Computed? && s.ctl.version == s.reg.version && !s.ctl.base.deleting
      && AfterSpecWrite(w, s.reg, s.ctl.base, s.ctl.version, NextOf(w, s.ctl.base, s.ctl.x), uuid).None?
  {
    acts, s := CleanupTriggered(u, plans);
    var used: set<UID> := {u.a, "", u.b, u.c, u.d};
    var w, x := WorldOf(Operator([TRIGGER], plans)), Input(u.e, 3, "q", true);
    assert u.e !in used && NewPass(s.log, x.pass);
    TriggeredAdvances(u, plans, x);
    acts, s := RefusedFrom(w, acts, s, Triggered(u, plans), used, x, uuid);
  }

  /** A legal run after which a controller that is up to date has its first write refused. */
  ghost predicate IsRefused(w: World, acts: seq<Action>, s: State, uuid: UID) {
    && Legal(w, acts) && After(w, acts) == s
    && CtlOk(w, s.ctl) && FirstWriteRefused(w, s, uuid)
  }

  ghost predicate FirstWriteRefused(w: World, s: State, uuid: UID)
    requires CtlOk(w, s.ctl)
  {
    && s.ctl.Computed? && s.ctl.version == s.reg.version && !s.ctl.base.deleting
    && AfterSpecWrite(w, s.reg, s.ctl.base, s.ctl.version, NextOf(w, s.ctl.base, s.ctl.x), uuid).None?
  }

  lemma {:induction false} RefusedFrom(w: World, acts: seq<Action>, s: State, i: InstanceData, used: set<UID>,
                                       x: Inputs, uuid: UID)
    returns (acts': seq<Action>, s': State)
    requires Legal(w, acts) && After(w, acts) == s && Rests(s, i, 4, used) && x.uuid != "" && x.uuid !in used
        && NewPass(s.log, x.pass)
    requires Advances(w, i, x) && !i.deleting && i.spec.execution.planName == CLEANUP
    ensures IsRefused(w, acts', s', uuid)
  {
    acts', s' := ReconcilesFrom(w, acts, s, i, 4, used, x);
    AlwaysBasic(w, acts);
    MetadataOnlyExactly(w, i, x);
    ProgressRefusedOnlyForCleanup(w, acts', uuid);
  }

  lemma {:induction false} TriggerIsStored(u: Ids, plans: set<string>, idle: InstanceData, wanted: InstanceData)
    returns (stored: InstanceData)
    requires DEPLOY in plans && CLEANUP in plans && idle == Completed(u, plans).(spec := NONE_SCHEDULED)
    requires wanted == idle.(spec := NONE_SCHEDULED.(parameters := map["p" := "x"]))
    ensures stored == idle.(spec := Spec("ov", map["p" := "x"], PlanExecution(CLEANUP, u.d, NeverRun)))
    ensures Updated(WorldOf(Operator([TRIGGER], plans)), idle, wanted, u.d) == Stored(stored)
  {
    stored := idle.(spec := Spec("ov", map["p" := "x"], PlanExecution(CLEANUP, u.d, NeverRun)));
    var w, ov := WorldOf(Operator([TRIGGER], plans)), Operator([TRIGGER], plans);
    var p, q := idle.spec.parameters, wanted.spec.parameters;
    assert ChangedKeys(p, q) == {"p"} && RemovedKeys(p, q) == {};
    assert Def([TRIGGER], "p") == TRIGGER && DefsOf([TRIGGER], {"p"}) == {TRIGGER};
    assert ChangedDefs(p, q, [TRIGGER], [TRIGGER]) + RemovedDefs(p, q, [TRIGGER]) == {TRIGGER};
    assert ExplicitTriggers({TRIGGER}) == {CLEANUP};
    assert TriggeredBy({TRIGGER}, ov.plans) == Triggers(CLEANUP);
  }
}
