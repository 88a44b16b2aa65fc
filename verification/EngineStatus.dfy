/** How the status tree evolves: COMPLETE is kept, no status is missing, FATAL_ERROR is unique. */
module EngineStatus {
  import opened Plans
  import opened Engine
  import opened EngineRuns
  import opened EngineTheorems

  // ----- COMPLETE is never left, whatever the tree and the names -----

  ghost predicate KeepsComplete(earlier: PlanStatus, later: PlanStatus) {
    && (forall a: nat, b: nat | StepComplete(earlier, a, b) :: StepComplete(later, a, b))
    && (forall a: nat | PhaseComplete(earlier, a) :: PhaseComplete(later, a))
  }

  lemma {:induction false} StepLoopKeepsComplete(c: Pass, i: nat, a: nat, j: nat, tree: PlanStatus, left: set<string>,
                                                 log: seq<Run>)
    requires i < |c.plan.phases| && j <= |c.plan.phases[i].steps| && a < |tree.phases| && !PhaseComplete(tree, a)
    ensures KeepsComplete(tree, StepLoop(c, i, a, j, tree, left, log).tree)
    decreases |c.plan.phases[i].steps| - j
  {
    var ph := c.plan.phases[i];
    if j < |ph.steps| {
      var name := ph.steps[j].name;
      var b := StepIndex(tree.phases[a].steps, name);
      if b < |tree.phases[a].steps| {
        var status := tree.phases[a].steps[b].status;
        if status.IsFinished() {
          StepLoopKeepsComplete(c, i, a, j + 1, tree, left - {name}, log);
        } else {
          var t := TaskLoop(c, i, j, 0, Resumed(status), NameSet(ph.steps[j].tasks), log);
          if t.err.None? && t.left == {} {
            StepLoopKeepsComplete(c, i, a, j + 1, SetStep(tree, a, b, Complete), left - {name}, t.log);
          } else if t.err.None? && !ph.strategy.Serial? {
            StepLoopKeepsComplete(c, i, a, j + 1, SetStep(tree, a, b, t.status), left, t.log);
          }
        }
      }
    }
  }

  lemma {:induction false} PhaseTurnKeepsComplete(c: Pass, i: nat, a: nat, tree: PlanStatus, log: seq<Run>)
    requires i < |c.plan.phases| && a < |tree.phases| && !PhaseComplete(tree, a)
    ensures
      var started := SetPhase(tree, a, Resumed(tree.phases[a].status));
      var s := StepLoop(c, i, a, 0, started, StepNames(c.plan.phases[i].steps), log);
      && KeepsComplete(tree, s.tree) && KeepsComplete(tree, s.tree.(status := Complete))
      && KeepsComplete(tree, SetPhase(s.tree, a, Complete))
  {
    var started := SetPhase(tree, a, Resumed(tree.phases[a].status));
    StepLoopKeepsComplete(c, i, a, 0, started, StepNames(c.plan.phases[i].steps), log);
    assert KeepsComplete(tree, started);
  }

  lemma {:induction false} PhaseLoopKeepsComplete(c: Pass, i: nat, tree: PlanStatus, phasesLeft: int, log: seq<Run>)
    requires i <= |c.plan.phases|
    ensures KeepsComplete(tree, PhaseLoop(c, i, tree, phasesLeft, log).tree)
    decreases |c.plan.phases| - i
  {
    if i < |c.plan.phases| {
      var ph := c.plan.phases[i];
      var a := PhaseIndex(tree.phases, ph.name);
      if a < |tree.phases| {
        if PhaseComplete(tree, a) {
          PhaseLoopKeepsComplete(c, i + 1, tree, phasesLeft - 1, log);
        } else {
          var started := SetPhase(tree, a, Resumed(tree.phases[a].status));
          PhaseTurnKeepsComplete(c, i, a, tree, log);
          var s := StepLoop(c, i, a, 0, started, StepNames(ph.steps), log);
          if s.err.None? && s.left == {} {
            PhaseLoopKeepsComplete(c, i + 1, SetPhase(s.tree, a, Complete), phasesLeft - 1, s.log);
          } else if s.err.None? && !c.plan.strategy.Serial? {
            PhaseLoopKeepsComplete(c, i + 1, s.tree, phasesLeft, s.log);
          }
        }
      }
    }
  }

  /** No pass takes COMPLETE back, at any level of any status tree. */
  lemma {:induction false} CompleteIsNeverLeft(c: Pass, tree: PlanStatus, log: seq<Run>)
    ensures KeepsComplete(tree, ExecutePass(c, tree, log).tree)
    ensures tree.status.Complete? ==> ExecutePass(c, tree, log).tree.status.Complete?
  {
    if !tree.status.IsTerminal() {
      PhaseLoopKeepsComplete(c, 0, tree.(status := InProgress), |c.plan.phases|, log);
    }
  }

  lemma {:induction false} StepLoopKeepsIdentity(c: Pass, i: nat, a: nat, j: nat, tree: PlanStatus, left: set<string>,
                                                 log: seq<Run>)
    requires i < |c.plan.phases| && j <= |c.plan.phases[i].steps| && a < |tree.phases|
    ensures
      var end := StepLoop(c, i, a, j, tree, left, log).tree;
      end.name == tree.name && end.uid == tree.uid
    decreases |c.plan.phases[i].steps| - j
  {
    var ph := c.plan.phases[i];
    if j < |ph.steps| {
      var name := ph.steps[j].name;
      var b := StepIndex(tree.phases[a].steps, name);
      if b < |tree.phases[a].steps| {
        var status := tree.phases[a].steps[b].status;
        if status.IsFinished() {
          StepLoopKeepsIdentity(c, i, a, j + 1, tree, left - {name}, log);
        } else {
          var t := TaskLoop(c, i, j, 0, Resumed(status), NameSet(ph.steps[j].tasks), log);
          if t.err.None? && t.left == {} {
            StepLoopKeepsIdentity(c, i, a, j + 1, SetStep(tree, a, b, Complete), left - {name}, t.log);
          } else if t.err.None? && !ph.strategy.Serial? {
            StepLoopKeepsIdentity(c, i, a, j + 1, SetStep(tree, a, b, t.status), left, t.log);
          }
        }
      }
    }
  }

  lemma {:induction false} PhaseLoopKeepsIdentity(c: Pass, i: nat, tree: PlanStatus, phasesLeft: int, log: seq<Run>)
    requires i <= |c.plan.phases|
    ensures
      var end := PhaseLoop(c, i, tree, phasesLeft, log).tree;
      end.name == tree.name && end.uid == tree.uid
    decreases |c.plan.phases| - i
  {
    if i < |c.plan.phases| {
      var ph := c.plan.phases[i];
      var a := PhaseIndex(tree.phases, ph.name);
      if a < |tree.phases| {
        if PhaseComplete(tree, a) {
          PhaseLoopKeepsIdentity(c, i + 1, tree, phasesLeft - 1, log);
        } else {
          var started := SetPhase(tree, a, Resumed(tree.phases[a].status));
          StepLoopKeepsIdentity(c, i, a, 0, started, StepNames(ph.steps), log);
          var s := StepLoop(c, i, a, 0, started, StepNames(ph.steps), log);
          if s.err.None? && s.left == {} {
            PhaseLoopKeepsIdentity(c, i + 1, SetPhase(s.tree, a, Complete), phasesLeft - 1, s.log);
          } else if s.err.None? && !c.plan.strategy.Serial? {
            PhaseLoopKeepsIdentity(c, i + 1, s.tree, phasesLeft, s.log);
          }
        }
      }
    }
  }

  /** A pass keeps the name and the UID of the plan status. */
  lemma {:induction false} PassKeepsIdentity(c: Pass, tree: PlanStatus, log: seq<Run>)
    ensures
      var end := ExecutePass(c, tree, log).tree;
      end.name == tree.name && end.uid == tree.uid
  {
    if !tree.status.IsTerminal() {
      PhaseLoopKeepsIdentity(c, 0, tree.(status := InProgress), |c.plan.phases|, log);
    }
  }

  // ----- no status is missing -----

  predicate Missing(err: Option<ExecError>) {
    err.Some? && (err.value.MissingPhase? || err.value.MissingStep?)
  }

  lemma {:induction false} StepLoopFindsAll(c: Pass, i: nat, j: nat, tree: PlanStatus, left: set<string>, log: seq<Run>)
    requires UniqueNames(c.plan) && Aligned(c.plan, tree) && i < |c.plan.phases| && j <= |c.plan.phases[i].steps|
    ensures
      var r := StepLoop(c, i, i, j, tree, left, log);
      Aligned(c.plan, r.tree) && !Missing(r.err)
    decreases |c.plan.phases[i].steps| - j
  {
    AlignedIndex(c.plan, tree, i);
    if j < |c.plan.phases[i].steps| {
      var name := c.plan.phases[i].steps[j].name;
      if StepComplete(tree, i, j) {
        StepLoopFindsAll(c, i, j + 1, tree, left - {name}, log);
      } else {
        var resumed := Resumed(tree.phases[i].steps[j].status);
        var t := TaskLoop(c, i, j, 0, resumed, NameSet(c.plan.phases[i].steps[j].tasks), log);
        TaskLoopFacts(c, i, j, 0, resumed, NameSet(c.plan.phases[i].steps[j].tasks), log);
        if t.err.None? && t.left == {} {
          StepLoopFindsAll(c, i, j + 1, SetStep(tree, i, j, Complete), left - {name}, t.log);
        } else if t.err.None? && !c.plan.phases[i].strategy.Serial? {
          StepLoopFindsAll(c, i, j + 1, SetStep(tree, i, j, t.status), left, t.log);
        }
      }
    }
  }

  lemma {:induction false} PhaseTurnFindsAll(c: Pass, i: nat, tree: PlanStatus, log: seq<Run>)
    returns (s: StepScan, next: PlanStatus)
    requires UniqueNames(c.plan) && Aligned(c.plan, tree) && i < |c.plan.phases|
    ensures s == StepLoop(c, i, i, 0, SetPhase(tree, i, Resumed(tree.phases[i].status)),
        StepNames(c.plan.phases[i].steps), log)
    ensures i < |s.tree.phases|
    ensures next == if s.err.None? && s.left == {} then SetPhase(s.tree, i, Complete) else s.tree
    ensures Aligned(c.plan, next) && !Missing(s.err)
  {
    var started, names := SetPhase(tree, i, Resumed(tree.phases[i].status)), StepNames(c.plan.phases[i].steps);
    StepLoopFindsAll(c, i, 0, started, names, log);
    s := StepLoop(c, i, i, 0, started, names, log);
    next := if s.err.None? && s.left == {} then SetPhase(s.tree, i, Complete) else s.tree;
  }

  lemma {:induction false} PhaseLoopFindsAll(c: Pass, i: nat, tree: PlanStatus, phasesLeft: int, log: seq<Run>)
    requires UniqueNames(c.plan) && Aligned(c.plan, tree) && i <= |c.plan.phases|
    ensures
      var r := PhaseLoop(c, i, tree, phasesLeft, log);
      Aligned(c.plan, r.tree) && !Missing(r.err)
    decreases |c.plan.phases| - i
  {
    if i < |c.plan.phases| {
      AlignedIndex(c.plan, tree, i);
      if PhaseComplete(tree, i) {
        PhaseLoopFindsAll(c, i + 1, tree, phasesLeft - 1, log);
      } else {
        var s, next := PhaseTurnFindsAll(c, i, tree, log);
        if s.err.None? && (s.left == {} || !c.plan.strategy.Serial?) {
          PhaseLoopFindsAll(c, i + 1, next, if s.left == {} then phasesLeft - 1 else phasesLeft, s.log);
        }
      }
    }
  }

  /** A pass over a tree that lists the phases and steps of the plan, whatever their statuses,
      finds every status it looks for, and leaves such a tree behind. */
  lemma {:induction false} PassFindsAll(c: Pass, tree: PlanStatus, log: seq<Run>)
    requires UniqueNames(c.plan) && Aligned(c.plan, tree)
    ensures
      var r := ExecutePass(c, tree, log);
      Aligned(c.plan, r.tree) && !Missing(r.err)
  {
    if !tree.status.IsTerminal() { PhaseLoopFindsAll(c, 0, tree.(status := InProgress), |c.plan.phases|, log); }
  }

  // ----- FATAL_ERROR is unique -----

  ghost predicate PhaseFatal(tree: PlanStatus, i: nat) {
    i < |tree.phases| && tree.phases[i].status.FatalError?
  }

  ghost predicate StepFatal(tree: PlanStatus, i: nat, j: nat) {
    i < |tree.phases| && j < |tree.phases[i].steps| && tree.phases[i].steps[j].status.FatalError?
  }

  ghost predicate NothingFatal(tree: PlanStatus) {
    (forall i: nat :: !PhaseFatal(tree, i)) && (forall i: nat, j: nat :: !StepFatal(tree, i, j))
  }

  /** Exactly phase `i` and, in it, step `j` are FATAL_ERROR, under a FATAL_ERROR plan. */
  ghost predicate FatalExactlyAt(tree: PlanStatus, i: nat, j: nat) {
    && tree.status.FatalError?
    && (forall a: nat :: PhaseFatal(tree, a) <==> a == i)
    && (forall a: nat, b: nat :: StepFatal(tree, a, b) <==> a == i && b == j)
  }

  /** Either nothing is FATAL_ERROR or, under an error, exactly one step, its phase and the plan are. */
  ghost predicate FatalMatches(tree: PlanStatus, err: Option<ExecError>) {
    && (err.None? ==> NothingFatal(tree))
    && (err.Some? ==> exists i: nat, j: nat :: FatalExactlyAt(tree, i, j))
  }

  lemma {:induction false} StepFrame(tree: PlanStatus, i: nat, j: nat, status: Status)
    requires i < |tree.phases| && j < |tree.phases[i].steps|
    ensures
      var next := SetStep(tree, i, j, status);
      && (forall a: nat :: PhaseFatal(next, a) == PhaseFatal(tree, a))
      && (forall a: nat, b: nat ::
            StepFatal(next, a, b) == if a == i && b == j then status.FatalError? else StepFatal(tree, a, b))
  {
  }

  lemma {:induction false} PhaseFrame(tree: PlanStatus, i: nat, status: Status, planStatus: Status)
    requires i < |tree.phases|
    ensures
      var next := SetPhase(tree, i, status).(status := planStatus);
      && (forall a: nat :: PhaseFatal(next, a) == if a == i then status.FatalError? else PhaseFatal(tree, a))
      && (forall a: nat, b: nat :: StepFatal(next, a, b) == StepFatal(tree, a, b))
  {
  }

  lemma {:induction false} PlanFrame(tree: PlanStatus, planStatus: Status)
    requires NothingFatal(tree)
    ensures NothingFatal(tree.(status := planStatus))
  {
    var next := tree.(status := planStatus);
    assert forall a: nat :: PhaseFatal(next, a) == PhaseFatal(tree, a);
    assert forall a: nat, b: nat :: StepFatal(next, a, b) == StepFatal(tree, a, b);
  }

  /** One visit of the open step (i, j): `t` is what its tasks came to, `next` the tree it leaves. */
  lemma {:induction false} StepVisitFatal(c: Pass, i: nat, j: nat, tree: PlanStatus, log: seq<Run>)
    returns (t: TaskScan, next: PlanStatus)
    requires Aligned(c.plan, tree) && InPlan(c.plan, i, j) && NothingFatal(tree) && j < |tree.phases[i].steps|
    ensures t == TaskLoop(c, i, j, 0, Resumed(tree.phases[i].steps[j].status),
        NameSet(c.plan.phases[i].steps[j].tasks), log)
    ensures
      var moved := SetStep(tree, i, j, Verdict(t));
      next == if t.err.Some? then Abort(moved, i) else moved
    ensures Aligned(c.plan, next) && FatalMatches(next, t.err)
  {
    assert !StepFatal(tree, i, j);
    var resumed := Resumed(tree.phases[i].steps[j].status);
    var names := NameSet(c.plan.phases[i].steps[j].tasks);
    t := TaskLoop(c, i, j, 0, resumed, names, log);
    TaskLoopFacts(c, i, j, 0, resumed, names, log);
    next := SetStep(tree, i, j, Verdict(t));
    StepFrame(tree, i, j, Verdict(t));
    if t.err.Some? {
      PhaseFrame(next, i, FatalError, FatalError);
      next := Abort(next, i);
      assert FatalExactlyAt(next, i, j);
    }
  }

  lemma {:induction false} StepLoopFatal(c: Pass, i: nat, j: nat, tree: PlanStatus, left: set<string>, log: seq<Run>)
    requires UniqueNames(c.plan) && Aligned(c.plan, tree) && NothingFatal(tree)
    requires i < |c.plan.phases| && j <= |c.plan.phases[i].steps|
    ensures
      var r := StepLoop(c, i, i, j, tree, left, log);
      Aligned(c.plan, r.tree) && FatalMatches(r.tree, r.err)
    decreases |c.plan.phases[i].steps| - j
  {
    AlignedIndex(c.plan, tree, i);
    if j < |c.plan.phases[i].steps| {
      var name := c.plan.phases[i].steps[j].name;
      if StepComplete(tree, i, j) {
        StepLoopFatal(c, i, j + 1, tree, left - {name}, log);
      } else {
        var t, next := StepVisitFatal(c, i, j, tree, log);
        if t.err.None? && t.left == {} {
          StepLoopFatal(c, i, j + 1, next, left - {name}, t.log);
        } else if t.err.None? && !c.plan.phases[i].strategy.Serial? {
          StepLoopFatal(c, i, j + 1, next, left, t.log);
        }
      }
    }
  }

  /** One turn of the phase loop: `s` is what its steps came to, `next` the tree it leaves. */
  lemma {:induction false} PhaseTurnFatal(c: Pass, i: nat, tree: PlanStatus, log: seq<Run>)
    returns (s: StepScan, next: PlanStatus)
    requires UniqueNames(c.plan) && Aligned(c.plan, tree) && NothingFatal(tree) && i < |c.plan.phases|
    ensures s == StepLoop(c, i, i, 0, SetPhase(tree, i, Resumed(tree.phases[i].status)),
        StepNames(c.plan.phases[i].steps), log)
    ensures i < |s.tree.phases|
    ensures next == if s.err.None? && s.left == {} then SetPhase(s.tree, i, Complete) else s.tree
    ensures Aligned(c.plan, next) && FatalMatches(next, s.err)
  {
    assert !PhaseFatal(tree, i);
    var started := SetPhase(tree, i, Resumed(tree.phases[i].status));
    PhaseFrame(tree, i, Resumed(tree.phases[i].status), tree.status);
    var names := StepNames(c.plan.phases[i].steps);
    StepLoopFatal(c, i, 0, started, names, log);
    s := StepLoop(c, i, i, 0, started, names, log);
    next := s.tree;
    if s.err.None? && s.left == {} {
      PhaseFrame(s.tree, i, Complete, s.tree.status);
      next := SetPhase(s.tree, i, Complete);
    }
  }

  lemma {:induction false} PhaseLoopFatal(c: Pass, i: nat, tree: PlanStatus, phasesLeft: int, log: seq<Run>)
    requires UniqueNames(c.plan) && Aligned(c.plan, tree) && NothingFatal(tree) && i <= |c.plan.phases|
    ensures
      var r := PhaseLoop(c, i, tree, phasesLeft, log);
      FatalMatches(r.tree, r.err)
    decreases |c.plan.phases| - i
  {
    if i == |c.plan.phases| {
      PlanFrame(tree, Complete);
      return;
    }
    AlignedIndex(c.plan, tree, i);
    if PhaseComplete(tree, i) {
      PhaseLoopFatal(c, i + 1, tree, phasesLeft - 1, log);
      return;
    }
    var s, next := PhaseTurnFatal(c, i, tree, log);
    if s.err.None? {
      if s.left != {} && c.plan.strategy.Serial? {
        PlanFrame(next, Complete);
      } else {
        PhaseLoopFatal(c, i + 1, next, if s.left == {} then phasesLeft - 1 else phasesLeft, s.log);
      }
    }
  }

  /** Over any run from a reset status: the levels agree, and either nothing is FATAL_ERROR or
      exactly one step, its phase and the plan are. */
  lemma {:induction false} StatusConsistency(plan: Plan, tasks: seq<Task>, tree: PlanStatus, asks: seq<Oracle>)
    requires UniqueNames(plan) && IsReset(plan, tree)
    ensures
      var end := RunAll(plan, tasks, tree, asks).tree;
      && Consistent(plan, end)
      && (!end.status.FatalError? ==> NothingFatal(end))
      && (end.status.FatalError? ==> exists i: nat, j: nat :: FatalExactlyAt(end, i, j))
    decreases |asks|
  {
    ResetIsConsistent(plan, tree);
    RunInvariant(plan, tasks, tree, asks);
    if asks == [] {
      forall i: nat, j: nat ensures !StepFatal(tree, i, j) {
        if i < |plan.phases| { assert AlignedPhase(plan.phases[i], tree.phases[i]); }
        if InPlan(plan, i, j) { assert StepPending(tree, i, j); }
      }
    } else {
      var n := |asks| - 1;
      StatusConsistency(plan, tasks, tree, asks[..n]);
      var before := RunAll(plan, tasks, tree, asks[..n]);
      if !before.tree.status.IsTerminal() {
        var started := before.tree.(status := InProgress);
        PlanFrame(before.tree, InProgress);
        var c := Pass(plan, tasks, asks[n], n);
        PhaseLoopFatal(c, 0, started, |plan.phases|, before.log);
        RunInvariant(plan, tasks, tree, asks[..n]);
        OnePass(CompleteSteps(plan, tree), c, before.tree, before.log);
      }
    }
  }
}
