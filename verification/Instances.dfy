/** The Instance object and the methods that change it. */
module Instances {
  import opened Plans
  import opened Parameters

  const CLEANUP_FINALIZER := "kudo.dev.instance.cleanup"

  datatype PlanExecution = PlanExecution(planName: string, uid: UID, status: Status)
  datatype Spec = Spec(ovRef: string, parameters: Params, execution: PlanExecution)

  /** The value of an Instance. `readiness` stands for its conditions; `deleting` says that a
      deletion timestamp is set. */
  datatype InstanceData = InstanceData(spec: Spec, planStatus: map<string, PlanStatus>, readiness: string,
                                       finalizers: seq<string>, deleting: bool)

  /** Every plan status is stored under its own name. */
  predicate KeyedByName(planStatus: map<string, PlanStatus>) {
    forall k | k in planStatus :: planStatus[k].name == k
  }

  function StatusOf(planStatus: map<string, PlanStatus>, plan: string): Option<PlanStatus> {
    if plan in planStatus then Some(planStatus[plan]) else None
  }

  /** What looking a plan status up by the name it carries may come across. The API server accepts
      statuses stored under other names, of which several may carry the same name. */
  ghost predicate MayFind(planStatus: map<string, PlanStatus>, plan: string, r: Option<PlanStatus>) {
    match r
    case None => forall k | k in planStatus :: planStatus[k].name != plan
    case Some(ps) => ps.name == plan && exists k | k in planStatus :: planStatus[k] == ps
  }

  /** There is always something to come across, and just one thing if statuses are keyed by name. */
  lemma {:induction false} Finds(planStatus: map<string, PlanStatus>, plan: string) returns (r: Option<PlanStatus>)
    ensures MayFind(planStatus, plan, r)
    ensures KeyedByName(planStatus) ==> forall q | MayFind(planStatus, plan, q) :: q == StatusOf(planStatus, plan)
  {
    r := None;
    if k :| k in planStatus && planStatus[k].name == plan { r := Some(planStatus[k]); }
  }

  // ----- what the methods below make of the value -----

  function Stamped(ps: PlanStatus, now: Mark): PlanStatus { ps.(updated := Some(now)) }

  function WithStatus(i: InstanceData, ps: PlanStatus, now: Mark): InstanceData {
    if ps.name !in i.planStatus then i else
    i.(planStatus := i.planStatus[ps.name := Stamped(ps, now)],
       spec := i.spec.(execution := i.spec.execution.(status := ps.status)))
  }

  function ResetStep(s: StepStatus): StepStatus { s.(status := Pending) }

  function ResetPhase(p: PhaseStatus): PhaseStatus {
    p.(status := Pending, steps := seq(|p.steps|, n requires 0 <= n < |p.steps| => ResetStep(p.steps[n])))
  }

  /** A plan status with a new UID and everything PENDING. */
  function ResetTree(ps: PlanStatus, uid: UID): PlanStatus {
    ps.(uid := uid, status := Pending,
        phases := seq(|ps.phases|, n requires 0 <= n < |ps.phases| => ResetPhase(ps.phases[n])))
  }

  function Without(values: seq<string>, s: string): (r: seq<string>)
    ensures s !in r
    ensures forall x | x != s :: x in r <==> x in values
  {
    if values == [] then [] else (if values[0] == s then [] else [values[0]]) + Without(values[1..], s)
  }

  /** The cleanup plan has no status yet or has never run. */
  predicate CleanupNeverRun(i: InstanceData) {
    CLEANUP !in i.planStatus || i.planStatus[CLEANUP].status.NeverRun?
  }

  /** `cleanup` is the status of the cleanup plan as it was looked up. */
  function WithFinalizer(i: InstanceData, cleanup: Option<PlanStatus>): InstanceData {
    if CLEANUP_FINALIZER !in i.finalizers && (cleanup.None? || cleanup.value.status.NeverRun?)
    then i.(finalizers := i.finalizers + [CLEANUP_FINALIZER]) else i
  }

  /** The finalizer goes when the cleanup plan is COMPLETE, and also when it has no status. */
  function WithoutFinalizer(i: InstanceData): InstanceData {
    if CLEANUP_FINALIZER in i.finalizers && (CLEANUP in i.planStatus ==> i.planStatus[CLEANUP].status.IsFinished())
    then i.(finalizers := Without(i.finalizers, CLEANUP_FINALIZER)) else i
  }

  class Instance {
    var spec: Spec
    var planStatus: map<string, PlanStatus>
    var readiness: string
    var finalizers: seq<string>
    var deleting: bool

    constructor (i: InstanceData)
      ensures Data() == i
    {
      spec, planStatus, readiness, finalizers, deleting := i.spec, i.planStatus, i.readiness, i.finalizers, i.deleting;
    }

    function Data(): InstanceData
      reads this
    {
      InstanceData(spec, planStatus, readiness, finalizers, deleting)
    }

    predicate Valid()
      reads this
    {
      KeyedByName(planStatus)
    }

    /** Looks the status up by the name it carries, in whatever order the map is enumerated. */
    method PlanStatus(plan: string) returns (r: Option<PlanStatus>)
      ensures MayFind(planStatus, plan, r)
      ensures Valid() ==> r == StatusOf(planStatus, plan)
    {
      var todo := planStatus.Keys;
      while todo != {}
        invariant todo <= planStatus.Keys && forall k | k in planStatus.Keys - todo :: planStatus[k].name != plan
        decreases todo
      {
        var k :| k in todo;
        if planStatus[k].name == plan { return Some(planStatus[k]); }
        todo := todo - {k};
      }
      return None;
    }

    /** Also hands back `ps`, which is stamped if it is stored. */
    method UpdateInstanceStatus(ps: PlanStatus, now: Mark) returns (r: PlanStatus)
      requires Valid()
      modifies this
      ensures Valid() && Data() == WithStatus(old(Data()), ps, now)
      ensures r == if ps.name in old(planStatus) then Stamped(ps, now) else ps
    {
      r := ps;
      var todo := planStatus.Keys;
      while todo != {}
        invariant todo <= planStatus.Keys == old(planStatus).Keys && Valid()
        invariant readiness == old(readiness) && finalizers == old(finalizers) && deleting == old(deleting)
        invariant ps.name in old(planStatus) && ps.name !in todo ==>
            Data() == WithStatus(old(Data()), ps, now) && r == Stamped(ps, now)
        invariant ps.name !in old(planStatus) || ps.name in todo ==> Data() == old(Data()) && r == ps
        decreases todo
      {
        var k :| k in todo;
        if planStatus[k].name == ps.name {
          r := Stamped(r, now);
          planStatus := planStatus[k := r];
          spec := spec.(execution := spec.execution.(status := r.status));
        }
        todo := todo - {k};
      }
    }

    method ResetPlanStatus(ps: PlanStatus, uid: UID, now: Mark) returns (r: PlanStatus)
      requires Valid()
      modifies this
      ensures r == if ps.name in old(planStatus) then Stamped(ResetTree(ps, uid), now) else ResetTree(ps, uid)
      ensures Valid() && Data() == WithStatus(old(Data()), ResetTree(ps, uid), now)
    {
      r := ps.(uid := uid, status := Pending);
      for a := 0 to |r.phases|
        invariant r == ps.(uid := uid, status := Pending, phases := r.phases) && |r.phases| == |ps.phases|
        invariant forall n | 0 <= n < a :: r.phases[n] == ResetPhase(ps.phases[n])
        invariant forall n | a <= n < |r.phases| :: r.phases[n] == ps.phases[n]
      {
        var phase := r.phases[a].(status := Pending);
        for b := 0 to |phase.steps|
          invariant phase == ps.phases[a].(status := Pending, steps := phase.steps)
              && |phase.steps| == |ps.phases[a].steps|
          invariant forall n | 0 <= n < b :: phase.steps[n] == ResetStep(ps.phases[a].steps[n])
          invariant forall n | b <= n < |phase.steps| :: phase.steps[n] == ps.phases[a].steps[n]
        {
          phase := phase.(steps := phase.steps[b := phase.steps[b].(status := Pending)]);
        }
        assert phase.steps == ResetPhase(ps.phases[a]).steps;
        r := r.(phases := r.phases[a := phase]);
      }
      assert r.phases == ResetTree(ps, uid).phases;
      r := UpdateInstanceStatus(r, now);
    }

    method TryAddFinalizer() returns (added: bool, ghost cleanup: Option<PlanStatus>)
      modifies this`finalizers
      ensures MayFind(planStatus, CLEANUP, cleanup) && Data() == WithFinalizer(old(Data()), cleanup)
      ensures added <==> finalizers != old(finalizers)
    {
      added := false;
      cleanup := Finds(planStatus, CLEANUP);
      if CLEANUP_FINALIZER !in finalizers {
        var ps := PlanStatus(CLEANUP);
        cleanup := ps;
        if ps.None? || ps.value.status.NeverRun? {
          finalizers, added := finalizers + [CLEANUP_FINALIZER], true;
        }
      }
    }

    method TryRemoveFinalizer() returns (removed: bool)
      requires Valid()
      modifies this`finalizers
      ensures Data() == WithoutFinalizer(old(Data()))
      ensures removed <==> CLEANUP_FINALIZER in old(finalizers) && CLEANUP_FINALIZER !in finalizers
    {
      removed := false;
      if CLEANUP_FINALIZER in finalizers {
        var ps := PlanStatus(CLEANUP);
        if ps.None? || ps.value.status.IsFinished() {
          finalizers, removed := Without(finalizers, CLEANUP_FINALIZER), true;
        }
      }
    }
  }
}
