/** Plans whose phase or step names repeat. Statuses are looked up by name, so that all phases of
    one name share the status of the first, and likewise the steps of a phase. */
module EngineNames {
  import opened Plans
  import opened Engine
  import opened EngineRuns
  import opened EngineTheorems
  import opened EngineVisits

  function FirstPhase(phases: seq<Phase>, name: string): (i: nat)
    ensures i <= |phases|
    ensures i < |phases| ==> phases[i].name == name
    ensures forall k | 0 <= k < i :: phases[k].name != name
  {
    if phases == [] || phases[0].name == name then 0 else 1 + FirstPhase(phases[1..], name)
  }

  function FirstStep(steps: seq<Step>, name: string): (i: nat)
    ensures i <= |steps|
    ensures i < |steps| ==> steps[i].name == name
    ensures forall k | 0 <= k < i :: steps[k].name != name
  {
    if steps == [] || steps[0].name == name then 0 else 1 + FirstStep(steps[1..], name)
  }

  /** The phase whose status phase `i` uses. */
  ghost function PhaseSlot(plan: Plan, i: nat): (a: nat)
    requires i < |plan.phases|
    ensures a <= i && plan.phases[a].name == plan.phases[i].name
  {
    FirstPhase(plan.phases, plan.phases[i].name)
  }

  /** The step of that phase whose status step (i, j) uses, if there is one. */
  ghost function StepSlot(plan: Plan, i: nat, j: nat): nat
    requires InPlan(plan, i, j)
  {
    FirstStep(plan.phases[PhaseSlot(plan, i)].steps, plan.phases[i].steps[j].name)
  }

  ghost predicate PhaseShown(plan: Plan, tree: PlanStatus, i: nat)
    requires i < |plan.phases|
  {
    PhaseComplete(tree, PhaseSlot(plan, i))
  }

  /** The status that step (i, j) uses is COMPLETE. */
  ghost predicate StepShown(plan: Plan, tree: PlanStatus, i: nat, j: nat)
    requires InPlan(plan, i, j)
  {
    StepComplete(tree, PhaseSlot(plan, i), StepSlot(plan, i, j))
  }

  /** Step (i, j) is the first of its name in a phase that is the first of its name. */
  ghost predicate OwnsStatus(plan: Plan, i: nat, j: nat) {
    InPlan(plan, i, j) && PhaseSlot(plan, i) == i && StepSlot(plan, i, j) == j
  }

  lemma {:induction false} SlotIndex(plan: Plan, tree: PlanStatus, i: nat)
    requires Aligned(plan, tree) && i < |plan.phases|
    ensures PhaseIndex(tree.phases, plan.phases[i].name) == PhaseSlot(plan, i) < |tree.phases|
    ensures |tree.phases[PhaseSlot(plan, i)].steps| == |plan.phases[PhaseSlot(plan, i)].steps|
    ensures forall j: nat | j < |plan.phases[i].steps| ::
              StepIndex(tree.phases[PhaseSlot(plan, i)].steps, plan.phases[i].steps[j].name) == StepSlot(plan, i, j)
  {
    var a, b := PhaseSlot(plan, i), PhaseIndex(tree.phases, plan.phases[i].name);
    assert AlignedPhase(plan.phases[a], tree.phases[a]);
    assert b <= a && AlignedPhase(plan.phases[b], tree.phases[b]);
    forall j: nat | j < |plan.phases[i].steps|
      ensures StepIndex(tree.phases[a].steps, plan.phases[i].steps[j].name) == StepSlot(plan, i, j)
    {
      var x, y := StepIndex(tree.phases[a].steps, plan.phases[i].steps[j].name), StepSlot(plan, i, j);
      assert x <= y && y <= x;
    }
  }

  // ----- one visit -----

  /** No pass has seen every task of step (i, j) report done. */
  ghost predicate Undone(plan: Plan, log: seq<Run>, i: nat, j: nat) {
    InPlan(plan, i, j) && forall pass: nat :: !StepDone(plan, log, pass, i, j)
  }

  /** A step with tasks that was done has a COMPLETE status. */
  ghost predicate DoneIsShown(plan: Plan, tree: PlanStatus, log: seq<Run>) {
    forall i: nat, j: nat | InPlan(plan, i, j) && plan.phases[i].steps[j].tasks != [] && !StepShown(plan, tree, i, j) ::
      Undone(plan, log, i, j)
  }

  /** The log ends with this pass, which has not got as far as step (i, j). */
  ghost predicate NotReached(c: Pass, log: seq<Run>, i: nat, j: nat) {
    forall n | 0 <= n < |log| :: log[n].pass < c.number
      || (log[n].pass == c.number && Earlier(log[n].phase, log[n].step, i, j))
  }

  ghost predicate AddsAt(log: seq<Run>, more: seq<Run>, i: nat, j: nat) {
    log <= more && forall n | |log| <= n < |more| :: more[n].phase == i && more[n].step == j
  }

  lemma {:induction false} NotDoneYet(plan: Plan, log: seq<Run>, more: seq<Run>, pass: nat, i: nat, j: nat,
                                      name: string)
    requires InPlan(plan, i, j) && log <= more && !TaskDone(plan, log, pass, i, j, name)
    requires forall n | |log| <= n < |more| :: more[n].pass != pass || more[n].phase != i || more[n].step != j
    ensures !TaskDone(plan, more, pass, i, j, name)
  {
    forall n | 0 <= n < |more| ensures !IsDone(plan, more[n], pass, i, j, name) {
      if n < |log| { assert more[n] == log[n]; }
    }
  }

  lemma {:induction false} UndoneElsewhere(plan: Plan, log: seq<Run>, more: seq<Run>, i: nat, j: nat)
    requires Undone(plan, log, i, j) && log <= more
    requires forall n | |log| <= n < |more| :: more[n].phase != i || more[n].step != j
    ensures Undone(plan, more, i, j)
  {
    forall pass: nat ensures !StepDone(plan, more, pass, i, j) {
      assert !StepDone(plan, log, pass, i, j);
      var name :| name in plan.phases[i].steps[j].tasks && !TaskDone(plan, log, pass, i, j, name);
      NotDoneYet(plan, log, more, pass, i, j, name);
    }
  }

  /** What is left after a visit has not been done in this pass. */
  lemma {:induction false} LeftIsNotDone(c: Pass, i: nat, j: nat, end: nat, status: Status, left: set<string>,
                                         log: seq<Run>, r: TaskScan, x: string)
    requires InPlan(c.plan, i, j) && NotReached(c, log, i, j) && x in r.left
    requires VisitOk(c, i, j, 0, end, status, left, log, r) && r.err.None?
    ensures !TaskDone(c.plan, r.log, c.number, i, j, x)
  {
    forall n | 0 <= n < |r.log| ensures !IsDone(c.plan, r.log[n], c.number, i, j, x) {
      if n < |log| {
        assert r.log[n] == log[n];
      } else {
        assert r.log[n] == RunOf(c, i, j, n - |log|) && !DoneBetween(c, i, j, 0, end, x);
      }
    }
  }

  /** A visit that leaves a task open leaves the step undone. */
  lemma {:induction false} OpenVisit(c: Pass, i: nat, j: nat, status: Status, log: seq<Run>)
    requires Undone(c.plan, log, i, j) && NotReached(c, log, i, j)
    ensures
      var t := TaskLoop(c, i, j, 0, status, NameSet(c.plan.phases[i].steps[j].tasks), log);
      t.err.None? && t.left != {} ==> Undone(c.plan, t.log, i, j)
  {
    var tasks := c.plan.phases[i].steps[j].tasks;
    var t := TaskLoop(c, i, j, 0, status, NameSet(tasks), log);
    var end := TaskLoopVisits(c, i, j, 0, status, NameSet(tasks), log);
    TaskLoopFacts(c, i, j, 0, status, NameSet(tasks), log);
    if t.err.None? && t.left != {} {
      var x :| x in t.left;
      LeftIsNotDone(c, i, j, end, status, NameSet(tasks), log, t, x);
      NotDoneInPasses(c, i, j, log, t.log, x);
    }
  }

  lemma {:induction false} NotDoneInPasses(c: Pass, i: nat, j: nat, log: seq<Run>, more: seq<Run>, x: string)
    requires Undone(c.plan, log, i, j) && log <= more && forall n | |log| <= n < |more| :: more[n].pass == c.number
    requires x in c.plan.phases[i].steps[j].tasks && !TaskDone(c.plan, more, c.number, i, j, x)
    ensures Undone(c.plan, more, i, j)
  {
    forall pass: nat | pass != c.number ensures !StepDone(c.plan, more, pass, i, j) {
      assert !StepDone(c.plan, log, pass, i, j);
      var name :| name in c.plan.phases[i].steps[j].tasks && !TaskDone(c.plan, log, pass, i, j, name);
      NotDoneYet(c.plan, log, more, pass, i, j, name);
    }
    assert !StepDone(c.plan, more, c.number, i, j);
  }

  lemma {:induction false} VisitShows(plan: Plan, tree: PlanStatus, i: nat, j: nat, status: Status)
    requires Aligned(plan, tree) && InPlan(plan, i, j) && !StepShown(plan, tree, i, j)
    requires PhaseSlot(plan, i) < |tree.phases| && StepSlot(plan, i, j) < |tree.phases[PhaseSlot(plan, i)].steps|
    ensures
      var next := SetStep(tree, PhaseSlot(plan, i), StepSlot(plan, i, j), status);
      && Aligned(plan, next)
      && (forall a: nat :: PhaseComplete(next, a) == PhaseComplete(tree, a))
      && StepShown(plan, next, i, j) == status.Complete?
      && (forall x: nat, y: nat | InPlan(plan, x, y) && StepShown(plan, tree, x, y) :: StepShown(plan, next, x, y))
  {
    var a, b := PhaseSlot(plan, i), StepSlot(plan, i, j);
    var next := SetStep(tree, a, b, status);
    assert AlignedPhase(plan.phases[a], tree.phases[a]);
    assert forall x: nat, y: nat | x != a || y != b :: StepComplete(next, x, y) == StepComplete(tree, x, y);
  }

  /** One visit of a step whose status is not COMPLETE. */
  lemma {:induction false} Visit(c: Pass, i: nat, j: nat, tree: PlanStatus, log: seq<Run>)
    returns (t: TaskScan, next: PlanStatus)
    requires Aligned(c.plan, tree) && InPlan(c.plan, i, j) && DoneIsShown(c.plan, tree, log) && NotReached(c, log, i, j)
    requires PhaseSlot(c.plan, i) < |tree.phases| && StepSlot(c.plan, i, j) < |tree.phases[PhaseSlot(c.plan, i)].steps|
    requires !StepShown(c.plan, tree, i, j)
    ensures t == TaskLoop(c, i, j, 0, Resumed(tree.phases[PhaseSlot(c.plan, i)].steps[StepSlot(c.plan, i, j)].status),
                          NameSet(c.plan.phases[i].steps[j].tasks), log)
    ensures next == SetStep(tree, PhaseSlot(c.plan, i), StepSlot(c.plan, i, j), Verdict(t))
    ensures Aligned(c.plan, next) && forall a: nat :: PhaseComplete(next, a) == PhaseComplete(tree, a)
    ensures forall x: nat, y: nat | InPlan(c.plan, x, y) && StepShown(c.plan, tree, x, y) ::
        StepShown(c.plan, next, x, y)
    ensures AddsAt(log, t.log, i, j) && NotReached(c, t.log, i, j + 1)
    ensures t.err.None? ==> DoneIsShown(c.plan, next, t.log) && StepShown(c.plan, next, i, j) == (t.left == {})
    ensures t.err.None? && t.left != {} ==> Undone(c.plan, t.log, i, j)
  {
    var plan, tasks := c.plan, c.plan.phases[i].steps[j].tasks;
    var a, b := PhaseSlot(plan, i), StepSlot(plan, i, j);
    var resumed := Resumed(tree.phases[a].steps[b].status);
    t := TaskLoop(c, i, j, 0, resumed, NameSet(tasks), log);
    TaskLoopFacts(c, i, j, 0, resumed, NameSet(tasks), log);
    next := SetStep(tree, a, b, Verdict(t));
    VisitShows(plan, tree, i, j, Verdict(t));
    if t.err.None? {
      if tasks != [] { OpenVisit(c, i, j, resumed, log); }
      forall x: nat, y: nat | InPlan(plan, x, y) && plan.phases[x].steps[y].tasks != [] && !StepShown(plan, next, x, y)
        ensures Undone(plan, t.log, x, y)
      {
        if x != i || y != j { UndoneElsewhere(plan, log, t.log, x, y); }
      }
    }
  }

  // ----- what repeated names cost, whatever the strategies -----

  ghost predicate OpenBefore(plan: Plan, log: seq<Run>, i: nat, j: nat) {
    exists b: nat :: b < j && Undone(plan, log, i, b)
  }

  ghost predicate AddsIn(log: seq<Run>, more: seq<Run>, i: nat) {
    log <= more && forall n | |log| <= n < |more| :: more[n].phase == i
  }

  /** What is left belongs to steps still to come, unless a step was left undone. */
  ghost predicate LeftAhead(plan: Plan, log: seq<Run>, i: nat, j: nat, left: set<string>)
    requires i < |plan.phases| && j <= |plan.phases[i].steps|
  {
    OpenBefore(plan, log, i, j) || left <= StepNames(plan.phases[i].steps[j..])
  }

  /** What the step loop hands back without an error, having started phase `i` at `tree`. */
  ghost predicate ScanShows(c: Pass, i: nat, tree: PlanStatus, log: seq<Run>, r: StepScan)
    requires i < |c.plan.phases|
  {
    && Aligned(c.plan, r.tree) && DoneIsShown(c.plan, r.tree, r.log) && NotReached(c, r.log, i + 1, 0)
    && AddsIn(log, r.log, i) && r.tree.status == tree.status
    && (forall a: nat :: PhaseComplete(r.tree, a) == PhaseComplete(tree, a))
    && (r.left != {} ==> OpenBefore(c.plan, r.log, i, |c.plan.phases[i].steps|))
  }

  lemma {:induction false} NameAhead(steps: seq<Step>, j: nat)
    requires j < |steps|
    ensures StepNames(steps[j..]) - {steps[j].name} <= StepNames(steps[j + 1..])
  {
    forall x | x in StepNames(steps[j..]) && x != steps[j].name ensures x in StepNames(steps[j + 1..]) {
      var b :| 0 <= b < |steps[j..]| && steps[j..][b].name == x;
      assert steps[j + 1..][b - 1].name == x;
    }
  }

  lemma {:induction false} OpenStays(plan: Plan, log: seq<Run>, more: seq<Run>, i: nat, j: nat)
    requires AddsAt(log, more, i, j)
    ensures OpenBefore(plan, log, i, j) ==> OpenBefore(plan, more, i, j)
  {
    if b: nat :| b < j && Undone(plan, log, i, b) { UndoneElsewhere(plan, log, more, i, b); }
  }

  lemma {:induction false} StepLoopShows(c: Pass, i: nat, j: nat, tree: PlanStatus, left: set<string>, log: seq<Run>)
    requires i < |c.plan.phases| && j <= |c.plan.phases[i].steps|
    requires Aligned(c.plan, tree) && DoneIsShown(c.plan, tree, log) && NotReached(c, log, i, j)
    requires LeftAhead(c.plan, log, i, j, left) && PhaseSlot(c.plan, i) < |tree.phases|
    ensures
      var r := StepLoop(c, i, PhaseSlot(c.plan, i), j, tree, left, log);
      if r.err.Some? then r.tree.status.FatalError? else ScanShows(c, i, tree, log, r)
    decreases |c.plan.phases[i].steps| - j
  {
    var steps := c.plan.phases[i].steps;
    SlotIndex(c.plan, tree, i);
    if j < |steps| && StepSlot(c.plan, i, j) < |tree.phases[PhaseSlot(c.plan, i)].steps| {
      NameAhead(steps, j);
      if StepShown(c.plan, tree, i, j) {
        StepLoopShows(c, i, j + 1, tree, left - {steps[j].name}, log);
      } else {
        StepLoopShowsTurn(c, i, j, tree, left, log);
      }
    }
  }

  /** How the step loop goes on from an open step whose visit comes to `t`. */
  lemma {:induction false} StepLoopGoesOn(c: Pass, i: nat, j: nat, tree: PlanStatus, left: set<string>, log: seq<Run>,
                                          t: TaskScan)
    requires InPlan(c.plan, i, j) && Aligned(c.plan, tree) && !StepShown(c.plan, tree, i, j)
    requires PhaseSlot(c.plan, i) < |tree.phases| && StepSlot(c.plan, i, j) < |tree.phases[PhaseSlot(c.plan, i)].steps|
    requires t == TaskLoop(c, i, j, 0, Resumed(tree.phases[PhaseSlot(c.plan, i)].steps[StepSlot(c.plan, i, j)].status),
                           NameSet(c.plan.phases[i].steps[j].tasks), log)
    ensures
      var a, name := PhaseSlot(c.plan, i), c.plan.phases[i].steps[j].name;
      var next := SetStep(tree, a, StepSlot(c.plan, i, j), Verdict(t));
      var r := StepLoop(c, i, a, j, tree, left, log);
      if t.err.Some? then r.err.Some? && r.tree.status.FatalError?
      else if t.left == {} then r == StepLoop(c, i, a, j + 1, next, left - {name}, t.log)
      else if c.plan.phases[i].strategy.Serial? then r == StepScan(next, left, None, t.log)
      else r == StepLoop(c, i, a, j + 1, next, left, t.log)
  {
    SlotIndex(c.plan, tree, i);
  }

  lemma {:induction false} ScanShowsCompose(c: Pass, i: nat, j: nat, t0: PlanStatus, l0: seq<Run>, t1: PlanStatus,
                                            l1: seq<Run>, r: StepScan)
    requires i < |c.plan.phases| && AddsAt(l0, l1, i, j) && ScanShows(c, i, t1, l1, r)
    requires t1.status == t0.status && forall a: nat :: PhaseComplete(t1, a) == PhaseComplete(t0, a)
    ensures ScanShows(c, i, t0, l0, r)
  {
  }

  lemma {:induction false} StepLoopShowsTurn(c: Pass, i: nat, j: nat, tree: PlanStatus, left: set<string>,
                                             log: seq<Run>)
    requires InPlan(c.plan, i, j)
    requires Aligned(c.plan, tree) && DoneIsShown(c.plan, tree, log) && NotReached(c, log, i, j)
    requires LeftAhead(c.plan, log, i, j, left) && PhaseSlot(c.plan, i) < |tree.phases|
    requires StepSlot(c.plan, i, j) < |tree.phases[PhaseSlot(c.plan, i)].steps| && !StepShown(c.plan, tree, i, j)
    ensures
      var r := StepLoop(c, i, PhaseSlot(c.plan, i), j, tree, left, log);
      if r.err.Some? then r.tree.status.FatalError? else ScanShows(c, i, tree, log, r)
    decreases |c.plan.phases[i].steps| - j, 0
  {
    var steps, a := c.plan.phases[i].steps, PhaseSlot(c.plan, i);
    var t, next := Visit(c, i, j, tree, log);
    StepLoopGoesOn(c, i, j, tree, left, log, t);
    if t.err.None? {
      var left' := if t.left == {} then left - {steps[j].name} else left;
      var r := StepLoop(c, i, a, j, tree, left, log);
      AheadAfter(c.plan, i, j, left, log, t);
      if t.left == {} || !c.plan.phases[i].strategy.Serial? {
        StepLoopShows(c, i, j + 1, next, left', t.log);
        if r.err.None? { ScanShowsCompose(c, i, j, tree, log, next, t.log, r); }
      } else {
        assert OpenBefore(c.plan, t.log, i, |steps|);
      }
    }
  }

  lemma {:induction false} AheadAfter(plan: Plan, i: nat, j: nat, left: set<string>, log: seq<Run>, t: TaskScan)
    requires InPlan(plan, i, j) && LeftAhead(plan, log, i, j, left) && AddsAt(log, t.log, i, j)
    requires t.left != {} ==> Undone(plan, t.log, i, j)
    ensures LeftAhead(plan, t.log, i, j + 1, if t.left == {} then left - {plan.phases[i].steps[j].name} else left)
    ensures t.left != {} ==> OpenBefore(plan, t.log, i, j + 1)
  {
    NameAhead(plan.phases[i].steps, j);
    OpenStays(plan, log, t.log, i, j);
    if b: nat :| b < j && Undone(plan, t.log, i, b) { assert OpenBefore(plan, t.log, i, j + 1); }
  }

  /** Two steps of one phase and one name, of which the second has tasks. */
  ghost predicate SameStep(plan: Plan, i: nat, j0: nat, j: nat) {
    InPlan(plan, i, j) && j0 < j && plan.phases[i].steps[j0].name == plan.phases[i].steps[j].name
      && plan.phases[i].steps[j].tasks != []
  }

  /** One of the two is undone; and once the pass is past the first of them without a COMPLETE
      status, that one is. */
  ghost predicate StepRivals(plan: Plan, tree: PlanStatus, log: seq<Run>, i: nat, j0: nat, j: nat, k: nat)
    requires SameStep(plan, i, j0, j)
  {
    && (Undone(plan, log, i, j0) || Undone(plan, log, i, j))
    && (j0 < k <= j && !StepShown(plan, tree, i, j) ==> Undone(plan, log, i, j0))
  }

  lemma {:induction false} StepLoopRivals(c: Pass, i: nat, k: nat, tree: PlanStatus, left: set<string>, log: seq<Run>,
                                          j0: nat, j: nat)
    requires SameStep(c.plan, i, j0, j) && k <= |c.plan.phases[i].steps| && PhaseSlot(c.plan, i) < |tree.phases|
    requires Aligned(c.plan, tree) && DoneIsShown(c.plan, tree, log) && NotReached(c, log, i, k)
    requires StepRivals(c.plan, tree, log, i, j0, j, k)
    ensures
      var r := StepLoop(c, i, PhaseSlot(c.plan, i), k, tree, left, log);
      r.err.None? ==> Undone(c.plan, r.log, i, j0) || Undone(c.plan, r.log, i, j)
    decreases |c.plan.phases[i].steps| - k
  {
    var steps := c.plan.phases[i].steps;
    SlotIndex(c.plan, tree, i);
    if k < |steps| && StepSlot(c.plan, i, k) < |tree.phases[PhaseSlot(c.plan, i)].steps| {
      if StepShown(c.plan, tree, i, k) {
        StepLoopRivals(c, i, k + 1, tree, left - {steps[k].name}, log, j0, j);
      } else {
        StepLoopRivalsTurn(c, i, k, tree, left, log, j0, j);
      }
    }
  }

  lemma {:induction false} StepLoopRivalsTurn(c: Pass, i: nat, k: nat, tree: PlanStatus, left: set<string>,
                                              log: seq<Run>, j0: nat, j: nat)
    requires SameStep(c.plan, i, j0, j) && InPlan(c.plan, i, k) && PhaseSlot(c.plan, i) < |tree.phases|
    requires Aligned(c.plan, tree) && DoneIsShown(c.plan, tree, log) && NotReached(c, log, i, k)
    requires StepSlot(c.plan, i, k) < |tree.phases[PhaseSlot(c.plan, i)].steps| && !StepShown(c.plan, tree, i, k)
    requires StepRivals(c.plan, tree, log, i, j0, j, k)
    ensures
      var r := StepLoop(c, i, PhaseSlot(c.plan, i), k, tree, left, log);
      r.err.None? ==> Undone(c.plan, r.log, i, j0) || Undone(c.plan, r.log, i, j)
    decreases |c.plan.phases[i].steps| - k, 0
  {
    var t, next := Visit(c, i, k, tree, log);
    StepLoopGoesOn(c, i, k, tree, left, log, t);
    if t.err.None? {
      RivalsAfter(c.plan, i, k, tree, log, t, next, j0, j);
      if t.left == {} || !c.plan.phases[i].strategy.Serial? {
        var left' := if t.left == {} then left - {c.plan.phases[i].steps[k].name} else left;
        StepLoopRivals(c, i, k + 1, next, left', t.log, j0, j);
      }
    }
  }

  lemma {:induction false} RivalsAfter(plan: Plan, i: nat, k: nat, tree: PlanStatus, log: seq<Run>, t: TaskScan,
                                       next: PlanStatus, j0: nat, j: nat)
    requires SameStep(plan, i, j0, j) && InPlan(plan, i, k)
    requires DoneIsShown(plan, tree, log) && StepRivals(plan, tree, log, i, j0, j, k) && !StepShown(plan, tree, i, k)
    requires AddsAt(log, t.log, i, k) && (StepShown(plan, tree, i, j) ==> StepShown(plan, next, i, j))
    requires StepShown(plan, next, i, k) == (t.left == {}) && (t.left != {} ==> Undone(plan, t.log, i, k))
    ensures StepRivals(plan, next, t.log, i, j0, j, k + 1)
  {
    if k != j0 && Undone(plan, log, i, j0) { UndoneElsewhere(plan, log, t.log, i, j0); }
    if k != j && Undone(plan, log, i, j) { UndoneElsewhere(plan, log, t.log, i, j); }
  }

  ghost predicate OpenPhase(plan: Plan, log: seq<Run>, i: nat) {
    i < |plan.phases| && OpenBefore(plan, log, i, |plan.phases[i].steps|)
  }

  /** A step with tasks that has no status of its own, next to what it shares a status with. */
  datatype Rival = Steps(i: nat, j0: nat, j: nat) | Phases(i0: nat, i: nat, j: nat)

  ghost predicate IsRival(plan: Plan, v: Rival) {
    match v
    case Steps(i, j0, j) => SameStep(plan, i, j0, j)
    case Phases(i0, i, j) =>
      InPlan(plan, i, j) && i0 < i && plan.phases[i0].name == plan.phases[i].name && plan.phases[i].steps[j].tasks != []
  }

  /** Of two steps that share a status one is undone. Of two phases that share one, the second is
      open while that status is not COMPLETE, and one of them is open afterwards. */
  ghost predicate Loss(plan: Plan, tree: PlanStatus, log: seq<Run>, v: Rival, k: nat)
    requires IsRival(plan, v)
  {
    match v
    case Steps(i, j0, j) => Undone(plan, log, i, j0) || Undone(plan, log, i, j)
    case Phases(i0, i, j) =>
      && (OpenPhase(plan, log, i) || (PhaseShown(plan, tree, i) && OpenPhase(plan, log, i0)))
      && (i0 < k <= i && !PhaseShown(plan, tree, i) ==> OpenPhase(plan, log, i0))
  }

  lemma {:induction false} OpenPhaseStays(plan: Plan, log: seq<Run>, more: seq<Run>, i: nat, k: nat)
    requires AddsIn(log, more, k) && i != k && OpenPhase(plan, log, i)
    ensures OpenPhase(plan, more, i)
  {
    var b: nat :| b < |plan.phases[i].steps| && Undone(plan, log, i, b);
    UndoneElsewhere(plan, log, more, i, b);
  }

  /** The turn of phase `k` carries the loss of another phase over. */
  lemma {:induction false} PhaseRivalsAfter(plan: Plan, k: nat, tree: PlanStatus, log: seq<Run>, next: PlanStatus,
                                            more: seq<Run>, v: Rival)
    requires IsRival(plan, v) && v.Phases? && k < |plan.phases| && Loss(plan, tree, log, v, k) && AddsIn(log, more, k)
    requires !PhaseShown(plan, tree, k) && (PhaseShown(plan, next, k) || OpenPhase(plan, more, k))
    requires PhaseShown(plan, tree, v.i) ==> PhaseShown(plan, next, v.i)
    ensures Loss(plan, next, more, v, k + 1)
  {
    if k != v.i && OpenPhase(plan, log, v.i) { OpenPhaseStays(plan, log, more, v.i, k); }
    if k != v.i0 && OpenPhase(plan, log, v.i0) { OpenPhaseStays(plan, log, more, v.i0, k); }
  }

  lemma {:induction false} StepRivalsAfter(c: Pass, k: nat, tree: PlanStatus, log: seq<Run>, s: StepScan, v: Rival)
    requires IsRival(c.plan, v) && v.Steps? && k < |c.plan.phases| && PhaseSlot(c.plan, k) < |tree.phases|
    requires Aligned(c.plan, tree) && DoneIsShown(c.plan, tree, log) && NotReached(c, log, k, 0)
        && Loss(c.plan, tree, log, v, k)
    requires s == StepLoop(c, k, PhaseSlot(c.plan, k), 0, tree, StepNames(c.plan.phases[k].steps), log)
    requires s.err.None? && AddsIn(log, s.log, k)
    ensures Loss(c.plan, s.tree, s.log, v, k + 1)
  {
    if k == v.i {
      StepLoopRivals(c, k, 0, tree, StepNames(c.plan.phases[k].steps), log, v.j0, v.j);
    } else {
      if Undone(c.plan, log, v.i, v.j0) { UndoneElsewhere(c.plan, log, s.log, v.i, v.j0); }
      if Undone(c.plan, log, v.i, v.j) { UndoneElsewhere(c.plan, log, s.log, v.i, v.j); }
    }
  }

  lemma {:induction false} PhaseShows(plan: Plan, tree: PlanStatus, log: seq<Run>, a: nat, status: Status)
    requires Aligned(plan, tree) && DoneIsShown(plan, tree, log) && a < |tree.phases|
    ensures
      var next := SetPhase(tree, a, status);
      && Aligned(plan, next) && DoneIsShown(plan, next, log)
      && (forall x: nat :: PhaseComplete(next, x) == if x == a then status.Complete? else PhaseComplete(tree, x))
  {
    var next := SetPhase(tree, a, status);
    assert AlignedPhase(plan.phases[a], tree.phases[a]);
    assert forall x: nat, y: nat :: StepComplete(next, x, y) == StepComplete(tree, x, y);
  }

  /** One turn of the phase loop: `s` is what its steps came to, `next` the tree it leaves. */
  lemma {:induction false} PhaseTurnLoses(c: Pass, k: nat, tree: PlanStatus, log: seq<Run>, v: Rival)
    returns (s: StepScan, next: PlanStatus)
    requires IsRival(c.plan, v) && Losing(c, k, tree, log, v) && k < |c.plan.phases|
    requires PhaseSlot(c.plan, k) < |tree.phases| && !PhaseShown(c.plan, tree, k)
    ensures
      var a := PhaseSlot(c.plan, k);
      && s == StepLoop(c, k, a, 0, SetPhase(tree, a, Resumed(tree.phases[a].status)),
        StepNames(c.plan.phases[k].steps), log)
      && |s.tree.phases| == |tree.phases|
      && next == if s.err.None? && s.left == {} then SetPhase(s.tree, a, Complete) else s.tree
    ensures s.err.Some? ==> next.status.FatalError?
    ensures s.err.None? ==> Losing(c, k + 1, next, s.log, v)
  {
    var a, names := PhaseSlot(c.plan, k), StepNames(c.plan.phases[k].steps);
    var started := SetPhase(tree, a, Resumed(tree.phases[a].status));
    PhaseShows(c.plan, tree, log, a, Resumed(tree.phases[a].status));
    assert c.plan.phases[k].steps[0..] == c.plan.phases[k].steps;
    StepLoopShows(c, k, 0, started, names, log);
    s := StepLoop(c, k, a, 0, started, names, log);
    next := s.tree;
    if s.err.None? {
      if s.left == {} {
        PhaseShows(c.plan, s.tree, s.log, a, Complete);
        next := SetPhase(s.tree, a, Complete);
      }
      if v.Steps? {
        StepRivalsAfter(c, k, started, log, s, v);
      } else {
        PhaseRivalsAfter(c.plan, k, tree, log, next, s.log, v);
      }
    }
  }

  /** How the phase loop goes on from phase `k`. */
  lemma {:induction false} PhaseLoopGoesOn(c: Pass, k: nat, tree: PlanStatus, phasesLeft: int, log: seq<Run>)
    requires k < |c.plan.phases| && Aligned(c.plan, tree)
    ensures PhaseSlot(c.plan, k) < |tree.phases|
    ensures
      var a := PhaseSlot(c.plan, k);
      var r := PhaseLoop(c, k, tree, phasesLeft, log);
      if PhaseShown(c.plan, tree, k) then r == PhaseLoop(c, k + 1, tree, phasesLeft - 1, log) else
      var s := StepLoop(c, k, a, 0, SetPhase(tree, a, Resumed(tree.phases[a].status)),
        StepNames(c.plan.phases[k].steps), log);
      if s.err.Some? then r == Result(s.tree, s.err, s.log)
      else if s.left == {} then r == PhaseLoop(c, k + 1, SetPhase(s.tree, a, Complete), phasesLeft - 1, s.log)
      else if c.plan.strategy.Serial? then r == Finish(s.tree, phasesLeft, s.log)
      else r == PhaseLoop(c, k + 1, s.tree, phasesLeft, s.log)
  {
    SlotIndex(c.plan, tree, k);
  }

  lemma {:induction false} PhaseLoopLoses(c: Pass, k: nat, tree: PlanStatus, phasesLeft: int, log: seq<Run>, v: Rival)
    requires IsRival(c.plan, v) && Losing(c, k, tree, log, v)
    ensures Lost(c, PhaseLoop(c, k, tree, phasesLeft, log), v)
    decreases |c.plan.phases| - k
  {
    if k == |c.plan.phases| {
      LosesAtEnd(c, k, tree, phasesLeft, log, v);
    } else {
      if PhaseShown(c.plan, tree, k) {
        PhaseLoopLosesShown(c, k, tree, phasesLeft, log, v);
      } else {
        PhaseLoopLosesTurn(c, k, tree, phasesLeft, log, v);
      }
    }
  }

  lemma {:induction false} PhaseLoopLosesShown(c: Pass, k: nat, tree: PlanStatus, phasesLeft: int, log: seq<Run>,
                                               v: Rival)
    requires IsRival(c.plan, v) && Losing(c, k, tree, log, v) && k < |c.plan.phases| && PhaseShown(c.plan, tree, k)
    ensures Lost(c, PhaseLoop(c, k, tree, phasesLeft, log), v)
    decreases |c.plan.phases| - k, 0
  {
    PhaseLoopGoesOn(c, k, tree, phasesLeft, log);
    SkippedLoses(c, k, tree, log, v);
    PhaseLoopLoses(c, k + 1, tree, phasesLeft - 1, log, v);
  }

  lemma {:induction false} SkippedLoses(c: Pass, k: nat, tree: PlanStatus, log: seq<Run>, v: Rival)
    requires IsRival(c.plan, v) && Losing(c, k, tree, log, v) && k < |c.plan.phases| && PhaseShown(c.plan, tree, k)
    ensures Losing(c, k + 1, tree, log, v)
  {
  }

  /** In the middle of a pass, before phase `k`. */
  ghost predicate Losing(c: Pass, k: nat, tree: PlanStatus, log: seq<Run>, v: Rival)
    requires IsRival(c.plan, v)
  {
    && k <= |c.plan.phases| && Aligned(c.plan, tree) && DoneIsShown(c.plan, tree, log)
    && NotReached(c, log, k, 0) && Loss(c.plan, tree, log, v, k)
  }

  lemma {:induction false} PhaseLoopLosesTurn(c: Pass, k: nat, tree: PlanStatus, phasesLeft: int, log: seq<Run>,
                                              v: Rival)
    requires IsRival(c.plan, v) && Losing(c, k, tree, log, v) && k < |c.plan.phases| && !PhaseShown(c.plan, tree, k)
    ensures Lost(c, PhaseLoop(c, k, tree, phasesLeft, log), v)
    decreases |c.plan.phases| - k, 0
  {
    PhaseLoopGoesOn(c, k, tree, phasesLeft, log);
    var s, next := PhaseTurnLoses(c, k, tree, log, v);
    if s.err.None? {
      if s.left != {} && c.plan.strategy.Serial? {
        LosesAtEnd(c, k + 1, next, phasesLeft, s.log, v);
      } else {
        PhaseLoopLoses(c, k + 1, next, if s.left == {} then phasesLeft - 1 else phasesLeft, s.log, v);
      }
    }
  }

  ghost predicate Lost(c: Pass, r: Result, v: Rival)
    requires IsRival(c.plan, v)
  {
    r.tree.status.FatalError? || Loses(c, r.tree, r.log, v)
  }

  /** Between passes. */
  ghost predicate Loses(c: Pass, tree: PlanStatus, log: seq<Run>, v: Rival)
    requires IsRival(c.plan, v)
  {
    && Aligned(c.plan, tree) && DoneIsShown(c.plan, tree, log) && Loss(c.plan, tree, log, v, 0)
    && forall n | 0 <= n < |log| :: log[n].pass <= c.number
  }

  lemma {:induction false} LosesAtEnd(c: Pass, k: nat, tree: PlanStatus, phasesLeft: int, log: seq<Run>, v: Rival)
    requires IsRival(c.plan, v) && Losing(c, k, tree, log, v)
    ensures Lost(c, Finish(tree, phasesLeft, log), v)
  {
    OtherPlanStatus(c.plan, tree, log, v, k, Complete);
  }

  lemma {:induction false} OtherPlanStatus(plan: Plan, tree: PlanStatus, log: seq<Run>, v: Rival, k: nat,
                                           status: Status)
    requires IsRival(plan, v) && Aligned(plan, tree) && DoneIsShown(plan, tree, log) && Loss(plan, tree, log, v, k)
    ensures
      var next := tree.(status := status);
      Aligned(plan, next) && DoneIsShown(plan, next, log) && Loss(plan, next, log, v, 0)
  {
    var next := tree.(status := status);
    assert forall x: nat, y: nat :: StepComplete(next, x, y) == StepComplete(tree, x, y);
    assert forall x: nat :: PhaseComplete(next, x) == PhaseComplete(tree, x);
  }

  lemma {:induction false} RunLoses(plan: Plan, tasks: seq<Task>, tree: PlanStatus, asks: seq<Oracle>, v: Rival)
    requires IsReset(plan, tree) && IsRival(plan, v)
    ensures
      var r := RunAll(plan, tasks, tree, asks);
      r.tree.status.FatalError?
      || (Aligned(plan, r.tree) && DoneIsShown(plan, r.tree, r.log) && Loss(plan, r.tree, r.log, v, 0)
          && forall n | 0 <= n < |r.log| :: r.log[n].pass < |asks|)
    decreases |asks|
  {
    if asks == [] {
      NothingDoneYet(plan);
    } else {
      var n := |asks| - 1;
      RunLoses(plan, tasks, tree, asks[..n], v);
      var r, c := RunAll(plan, tasks, tree, asks[..n]), Pass(plan, tasks, asks[n], n);
      if !r.tree.status.IsTerminal() {
        OtherPlanStatus(plan, r.tree, r.log, v, 0, InProgress);
        PhaseLoopLoses(c, 0, r.tree.(status := InProgress), |plan.phases|, r.log, v);
      }
    }
  }

  lemma {:induction false} NothingDoneYet(plan: Plan)
    ensures forall i: nat, j: nat | InPlan(plan, i, j) && plan.phases[i].steps[j].tasks != [] :: Undone(plan, [], i, j)
    ensures forall i: nat, j: nat | InPlan(plan, i, j) && plan.phases[i].steps[j].tasks != [] :: OpenPhase(plan, [], i)
  {
    forall i: nat, j: nat | InPlan(plan, i, j) && plan.phases[i].steps[j].tasks != []
      ensures Undone(plan, [], i, j) && OpenPhase(plan, [], i)
    {
      forall pass: nat ensures !StepDone(plan, [], pass, i, j) {
        assert !TaskDone(plan, [], pass, i, j, plan.phases[i].steps[j].tasks[0]);
      }
    }
  }

  /** Whatever the strategies and the answers: as soon as a step with tasks is not the first of
      its name, in a phase that is the first of its name, no run from a reset status ever gets all
      steps done, unless it fails. In particular it loses work when it ends in COMPLETE. */
  lemma {:induction false} SharedStatusLosesWork(plan: Plan, tasks: seq<Task>, tree: PlanStatus, asks: seq<Oracle>,
                                                 i: nat, j: nat)
    requires IsReset(plan, tree) && InPlan(plan, i, j) && plan.phases[i].steps[j].tasks != [] && !OwnsStatus(plan, i, j)
    requires !RunAll(plan, tasks, tree, asks).tree.status.FatalError?
    ensures exists x: nat, y: nat :: Undone(plan, RunAll(plan, tasks, tree, asks).log, x, y)
  {
    var v := if PhaseSlot(plan, i) < i then Phases(PhaseSlot(plan, i), i, j) else Steps(i, StepSlot(plan, i, j), j);
    RunLoses(plan, tasks, tree, asks, v);
    var r := RunAll(plan, tasks, tree, asks);
    if v.Phases? {
      var u := if OpenPhase(plan, r.log, i) then i else v.i0;
      var b: nat :| b < |plan.phases[u].steps| && Undone(plan, r.log, u, b);
    }
  }

  // ----- serial plans: exactly the steps with a status of their own are run -----

  /** Only steps with a status of their own were run, and those that are COMPLETE were done. */
  ghost predicate SerialGood(plan: Plan, tree: PlanStatus, log: seq<Run>) {
    && Aligned(plan, tree)
    && (forall n | 0 <= n < |log| :: OwnsStatus(plan, log[n].phase, log[n].step))
    && (forall i: nat, j: nat | OwnsStatus(plan, i, j) && StepComplete(tree, i, j) :: EverDone({}, plan, log, i, j))
    && (forall i: nat, j: nat | OwnsStatus(plan, i, j) && PhaseComplete(tree, i) :: StepComplete(tree, i, j))
  }

  ghost predicate StepsShown(plan: Plan, tree: PlanStatus, i: nat, k: nat)
    requires i < |plan.phases| && k <= |plan.phases[i].steps|
  {
    forall j: nat | j < k :: StepShown(plan, tree, i, j)
  }

  ghost predicate PhasesShown(plan: Plan, tree: PlanStatus, k: nat)
    requires k <= |plan.phases|
  {
    forall i: nat | i < k :: PhaseShown(plan, tree, i)
  }

  /** The names of the steps still to come that have a status of their own are left. */
  ghost predicate OwnLeft(plan: Plan, i: nat, k: nat, left: set<string>) {
    forall j: nat | k <= j && OwnsStatus(plan, i, j) :: plan.phases[i].steps[j].name in left
  }

  lemma {:induction false} OwnStep(plan: Plan, tree: PlanStatus, i: nat, j: nat)
    requires InPlan(plan, i, j) && PhaseSlot(plan, i) == i && StepsShown(plan, tree, i, j)
        && !StepShown(plan, tree, i, j)
    ensures OwnsStatus(plan, i, j)
  {
    var b := StepSlot(plan, i, j);
    assert b <= j && StepSlot(plan, i, b) == b;
    assert b < j ==> StepShown(plan, tree, i, b);
  }

  lemma {:induction false} OwnPhase(plan: Plan, tree: PlanStatus, i: nat)
    requires i < |plan.phases| && PhasesShown(plan, tree, i) && !PhaseShown(plan, tree, i)
    ensures PhaseSlot(plan, i) == i
  {
    var a := PhaseSlot(plan, i);
    assert PhaseSlot(plan, a) == a;
    assert a < i ==> PhaseShown(plan, tree, a);
  }

  /** A visit of a step with a status of its own. */
  lemma {:induction false} SerialVisit(c: Pass, i: nat, j: nat, tree: PlanStatus, log: seq<Run>)
    returns (t: TaskScan, next: PlanStatus)
    requires OwnsStatus(c.plan, i, j) && SerialGood(c.plan, tree, log) && !StepComplete(tree, i, j)
        && !PhaseComplete(tree, i)
    requires i < |tree.phases| && j < |tree.phases[i].steps|
    ensures t == TaskLoop(c, i, j, 0, Resumed(tree.phases[i].steps[j].status),
        NameSet(c.plan.phases[i].steps[j].tasks), log)
    ensures next == SetStep(tree, i, j, Verdict(t)) && forall a: nat :: PhaseComplete(next, a) == PhaseComplete(tree, a)
    ensures SerialGood(c.plan, next, t.log)
    ensures t.err.None? && t.left == {} ==> StepShown(c.plan, next, i, j)
    ensures forall k: nat | k <= |c.plan.phases[i].steps| && StepsShown(c.plan, tree, i, k) ::
        StepsShown(c.plan, next, i, k)
  {
    var resumed := Resumed(tree.phases[i].steps[j].status);
    var names := NameSet(c.plan.phases[i].steps[j].tasks);
    t := TaskLoop(c, i, j, 0, resumed, names, log);
    TaskLoopFacts(c, i, j, 0, resumed, names, log);
    next := SetStep(tree, i, j, Verdict(t));
    VisitShows(c.plan, tree, i, j, Verdict(t));
    assert forall x: nat, y: nat | x != i || y != j :: StepComplete(next, x, y) == StepComplete(tree, x, y);
    assert t.err.None? && t.left == {} ==> StepDone(c.plan, t.log, c.number, i, j);
    forall x: nat, y: nat | OwnsStatus(c.plan, x, y) && StepComplete(next, x, y)
      ensures EverDone({}, c.plan, t.log, x, y) {
      LongerLog({}, c.plan, log, t.log, x, y);
    }
    forall n | 0 <= n < |t.log| ensures OwnsStatus(c.plan, t.log[n].phase, t.log[n].step) {
      if n < |log| { assert t.log[n] == log[n]; }
    }
  }

  ghost predicate SerialScan(plan: Plan, i: nat, tree: PlanStatus, r: StepScan)
    requires i < |plan.phases|
  {
    if r.err.Some? then r.tree.status.FatalError? else
    && SerialGood(plan, r.tree, r.log) && r.tree.status == tree.status
    && (forall a: nat :: PhaseComplete(r.tree, a) == PhaseComplete(tree, a))
    && (r.left == {} ==> StepsShown(plan, r.tree, i, |plan.phases[i].steps|))
  }

  lemma {:induction false} SerialSteps(c: Pass, i: nat, j: nat, tree: PlanStatus, left: set<string>, log: seq<Run>)
    requires FullySerial(c.plan) && i < |c.plan.phases| && j <= |c.plan.phases[i].steps| && i < |tree.phases|
    requires PhaseSlot(c.plan, i) == i && SerialGood(c.plan, tree, log) && !PhaseComplete(tree, i)
    requires StepsShown(c.plan, tree, i, j) && OwnLeft(c.plan, i, j, left)
    ensures SerialScan(c.plan, i, tree, StepLoop(c, i, i, j, tree, left, log))
    decreases |c.plan.phases[i].steps| - j
  {
    var steps := c.plan.phases[i].steps;
    SlotIndex(c.plan, tree, i);
    if j < |steps| {
      if StepShown(c.plan, tree, i, j) {
        SerialStepsSkip(c, i, j, tree, left, log);
      } else {
        SerialStepsTurn(c, i, j, tree, left, log);
      }
    }
  }

  lemma {:induction false} SerialStepsSkip(c: Pass, i: nat, j: nat, tree: PlanStatus, left: set<string>, log: seq<Run>)
    requires FullySerial(c.plan) && InPlan(c.plan, i, j) && i < |tree.phases|
    requires PhaseSlot(c.plan, i) == i && SerialGood(c.plan, tree, log) && !PhaseComplete(tree, i)
    requires StepsShown(c.plan, tree, i, j) && OwnLeft(c.plan, i, j, left) && StepShown(c.plan, tree, i, j)
    ensures SerialScan(c.plan, i, tree, StepLoop(c, i, i, j, tree, left, log))
    decreases |c.plan.phases[i].steps| - j, 0
  {
    SlotIndex(c.plan, tree, i);
    LeftWithout(c.plan, i, j, left);
    SerialSteps(c, i, j + 1, tree, left - {c.plan.phases[i].steps[j].name}, log);
  }

  lemma {:induction false} LeftWithout(plan: Plan, i: nat, j: nat, left: set<string>)
    requires InPlan(plan, i, j) && OwnLeft(plan, i, j, left)
    ensures OwnLeft(plan, i, j + 1, left - {plan.phases[i].steps[j].name})
  {
  }

  lemma {:induction false} SerialStepsTurn(c: Pass, i: nat, j: nat, tree: PlanStatus, left: set<string>, log: seq<Run>)
    requires FullySerial(c.plan) && InPlan(c.plan, i, j) && i < |tree.phases|
    requires PhaseSlot(c.plan, i) == i && SerialGood(c.plan, tree, log) && !PhaseComplete(tree, i)
    requires StepsShown(c.plan, tree, i, j) && OwnLeft(c.plan, i, j, left) && !StepShown(c.plan, tree, i, j)
    ensures SerialScan(c.plan, i, tree, StepLoop(c, i, i, j, tree, left, log))
    decreases |c.plan.phases[i].steps| - j, 0
  {
    var name := c.plan.phases[i].steps[j].name;
    SlotIndex(c.plan, tree, i);
    OwnStep(c.plan, tree, i, j);
    var t, next := SerialVisit(c, i, j, tree, log);
    StepLoopGoesOn(c, i, j, tree, left, log, t);
    if t.err.None? && t.left == {} {
      LeftWithout(c.plan, i, j, left);
      SerialSteps(c, i, j + 1, next, left - {name}, t.log);
    } else {
      assert name in left;
    }
  }

  lemma {:induction false} SerialPhaseStatus(plan: Plan, tree: PlanStatus, log: seq<Run>, i: nat, status: Status)
    requires SerialGood(plan, tree, log) && i < |tree.phases| && i < |plan.phases| && PhaseSlot(plan, i) == i
        && !PhaseComplete(tree, i)
    requires status.Complete? ==> StepsShown(plan, tree, i, |plan.phases[i].steps|)
    ensures
      var next := SetPhase(tree, i, status);
      && SerialGood(plan, next, log)
        && (forall a: nat :: PhaseComplete(next, a) == if a == i then status.Complete? else PhaseComplete(tree, a))
  {
    var next := SetPhase(tree, i, status);
    assert AlignedPhase(plan.phases[i], tree.phases[i]);
    assert forall x: nat, y: nat :: StepComplete(next, x, y) == StepComplete(tree, x, y);
    forall j: nat | OwnsStatus(plan, i, j) && status.Complete? ensures StepComplete(tree, i, j) {
      assert StepShown(plan, tree, i, j);
    }
  }

  lemma {:induction false} ShownStays(plan: Plan, t0: PlanStatus, t1: PlanStatus, k: nat)
    requires k <= |plan.phases| && PhasesShown(plan, t0, k)
    requires forall a: nat | PhaseComplete(t0, a) :: PhaseComplete(t1, a)
    ensures PhasesShown(plan, t1, k)
  {
    forall i: nat | i < k ensures PhaseShown(plan, t1, i) { assert PhaseShown(plan, t0, i); }
  }

  /** In the middle of a pass of a serial plan, before phase `k`. */
  ghost predicate SerialBefore(plan: Plan, k: nat, tree: PlanStatus, phasesLeft: int, log: seq<Run>) {
    && k <= |plan.phases| && SerialGood(plan, tree, log) && PhasesShown(plan, tree, k)
    && phasesLeft == |plan.phases| - k && tree.status.InProgress?
  }

  ghost predicate SerialEnd(plan: Plan, tree: PlanStatus, log: seq<Run>) {
    tree.status.FatalError?
      || (SerialGood(plan, tree, log) && (tree.status.Complete? ==> PhasesShown(plan, tree, |plan.phases|)))
  }

  lemma {:induction false} SerialPhases(c: Pass, k: nat, tree: PlanStatus, phasesLeft: int, log: seq<Run>)
    requires FullySerial(c.plan) && SerialBefore(c.plan, k, tree, phasesLeft, log)
    ensures
      var r := PhaseLoop(c, k, tree, phasesLeft, log);
      SerialEnd(c.plan, r.tree, r.log)
    decreases |c.plan.phases| - k
  {
    if k == |c.plan.phases| {
      SerialPlanStatus(c.plan, tree, log, Complete);
      ShownStays(c.plan, tree, tree.(status := Complete), k);
    } else {
      PhaseLoopGoesOn(c, k, tree, phasesLeft, log);
      if PhaseShown(c.plan, tree, k) {
        SerialPhases(c, k + 1, tree, phasesLeft - 1, log);
      } else {
        var s, next := SerialPhaseTurn(c, k, tree, phasesLeft, log);
        if s.err.None? && s.left == {} { SerialPhases(c, k + 1, next, phasesLeft - 1, s.log); }
      }
    }
  }

  lemma {:induction false} SerialPhaseTurn(c: Pass, k: nat, tree: PlanStatus, phasesLeft: int, log: seq<Run>)
    returns (s: StepScan, next: PlanStatus)
    requires FullySerial(c.plan) && k < |c.plan.phases| && SerialBefore(c.plan, k, tree, phasesLeft, log)
    requires PhaseSlot(c.plan, k) < |tree.phases| && !PhaseShown(c.plan, tree, k)
    ensures
      var a := PhaseSlot(c.plan, k);
      && s == StepLoop(c, k, a, 0, SetPhase(tree, a, Resumed(tree.phases[a].status)),
        StepNames(c.plan.phases[k].steps), log)
      && |s.tree.phases| == |tree.phases|
      && next == if s.err.None? && s.left == {} then SetPhase(s.tree, a, Complete) else s.tree
    ensures
      if s.err.Some? then next.status.FatalError?
      else if s.left == {} then SerialBefore(c.plan, k + 1, next, phasesLeft - 1, s.log)
      else next.status.InProgress? && SerialGood(c.plan, next, s.log)
  {
    OwnPhase(c.plan, tree, k);
    var names := StepNames(c.plan.phases[k].steps);
    var started := SetPhase(tree, k, Resumed(tree.phases[k].status));
    SerialPhaseStatus(c.plan, tree, log, k, Resumed(tree.phases[k].status));
    SerialSteps(c, k, 0, started, names, log);
    s := StepLoop(c, k, k, 0, started, names, log);
    next := s.tree;
    if s.err.None? && s.left == {} {
      SerialPhaseStatus(c.plan, s.tree, s.log, k, Complete);
      next := SetPhase(s.tree, k, Complete);
      ShownStays(c.plan, tree, next, k);
    }
  }

  lemma {:induction false} SerialPlanStatus(plan: Plan, tree: PlanStatus, log: seq<Run>, status: Status)
    requires SerialGood(plan, tree, log)
    ensures SerialGood(plan, tree.(status := status), log)
    ensures forall a: nat :: PhaseComplete(tree.(status := status), a) == PhaseComplete(tree, a)
  {
    var next := tree.(status := status);
    assert forall x: nat, y: nat :: StepComplete(next, x, y) == StepComplete(tree, x, y);
    assert forall x: nat :: PhaseComplete(next, x) == PhaseComplete(tree, x);
  }

  lemma {:induction false} SerialRuns(plan: Plan, tasks: seq<Task>, tree: PlanStatus, asks: seq<Oracle>)
    requires FullySerial(plan) && IsReset(plan, tree)
    ensures
      var r := RunAll(plan, tasks, tree, asks);
      SerialEnd(plan, r.tree, r.log)
    decreases |asks|
  {
    if asks == [] {
      ResetIsConsistent(plan, tree);
      assert forall i: nat, j: nat | InPlan(plan, i, j) && StepComplete(tree, i, j) ::
        (i, j) in CompleteSteps(plan, tree);
    } else {
      var n := |asks| - 1;
      SerialRuns(plan, tasks, tree, asks[..n]);
      var r := RunAll(plan, tasks, tree, asks[..n]);
      if !r.tree.status.IsTerminal() {
        SerialPlanStatus(plan, r.tree, r.log, InProgress);
        SerialPhases(Pass(plan, tasks, asks[n], n), 0, r.tree.(status := InProgress), |plan.phases|, r.log);
      }
    }
  }

  /** A run of a serial plan with serial phases, from a reset status to COMPLETE, got every step
      done exactly if every step with tasks is the first of its name, in a phase that is the first
      of its name. */
  lemma {:induction false} NothingLostExactly(plan: Plan, tasks: seq<Task>, tree: PlanStatus, asks: seq<Oracle>)
    requires FullySerial(plan) && IsReset(plan, tree) && RunAll(plan, tasks, tree, asks).tree.status.Complete?
    ensures
      (forall i: nat, j: nat | InPlan(plan, i, j) :: !Undone(plan, RunAll(plan, tasks, tree, asks).log, i, j))
      <==> (forall i: nat, j: nat | InPlan(plan, i, j) && plan.phases[i].steps[j].tasks != [] :: OwnsStatus(plan, i, j))
  {
    var r := RunAll(plan, tasks, tree, asks);
    SerialRuns(plan, tasks, tree, asks);
    if i: nat, j: nat :| InPlan(plan, i, j) && plan.phases[i].steps[j].tasks != [] && !OwnsStatus(plan, i, j) {
      SharedStatusLosesWork(plan, tasks, tree, asks, i, j);
    } else {
      forall i: nat, j: nat | InPlan(plan, i, j) ensures !Undone(plan, r.log, i, j) {
        if plan.phases[i].steps[j].tasks == [] {
          assert StepDone(plan, r.log, 0, i, j);
        } else {
          assert OwnsStatus(plan, i, j) && PhaseShown(plan, r.tree, i);
          assert StepComplete(r.tree, i, j) && EverDone({}, plan, r.log, i, j);
        }
      }
    }
  }
}
