/** The entities shared by the plan executor, the admission webhook, the instance
    controller and the dependency resolver: plans, their status trees, tasks,
    parameters and operator versions. */
module Plans {

  datatype Option<+T> = None | Some(value: T)

  /** Execution UIDs. The empty UID of the source is `""`. */
  type UID = string

  /** `ExecutionStatus`; `Unset` is the empty string. */
  datatype Status = Unset | NeverRun | Pending | InProgress | Error | Complete | FatalError {
    predicate IsTerminal() { Complete? || FatalError? }
    predicate IsFinished() { Complete? }
    predicate IsRunning() { InProgress? || Pending? || Error? }
  }

  /** The code only ever tests for `Serial`: every other strategy acts as `Parallel`. */
  datatype Ordering = Serial | Parallel

  datatype Step = Step(name: string, tasks: seq<string>)
  datatype Phase = Phase(name: string, strategy: Ordering, steps: seq<Step>)
  datatype Plan = Plan(strategy: Ordering, phases: seq<Phase>)

  datatype StepStatus = StepStatus(name: string, status: Status)
  datatype PhaseStatus = PhaseStatus(name: string, status: Status, steps: seq<StepStatus>)

  /** Stands for what an update of a plan status leaves behind besides the statuses: its time, to
      the second, and the messages. */
  type Mark = nat

  /** `updated` marks the last update, if there was any. */
  datatype PlanStatus = PlanStatus(name: string, status: Status, phases: seq<PhaseStatus>, uid: UID,
                                   updated: Option<Mark>)

  /** `builds` is the verdict of `task.Build`; the last three fields are the part of a
      KudoOperator task that names the operator it installs. */
  datatype Task = Task(name: string, kind: string, builds: bool,
                       package: string, appVersion: string, operatorVersion: string)

  datatype Parameter = Parameter(name: string, required: bool, default: Option<string>, trigger: string,
                                 valueType: string, immutable: bool, enum: Option<seq<string>>)

  datatype OperatorVersion = OperatorVersion(operatorName: string, version: string, appVersion: string,
                                             tasks: seq<Task>, parameters: seq<Parameter>,
                                             plans: map<string, Plan>)

  const DEPLOY := "deploy"
  const UPGRADE := "upgrade"
  const UPDATE := "update"
  const CLEANUP := "cleanup"

  /** The position of the first phase status called `name`, or `|phases|` when there is none. */
  function PhaseIndex(phases: seq<PhaseStatus>, name: string): (i: nat)
    ensures i <= |phases|
    ensures i < |phases| ==> phases[i].name == name
    ensures forall k | 0 <= k < i :: phases[k].name != name
  {
    if phases == [] || phases[0].name == name then 0 else 1 + PhaseIndex(phases[1..], name)
  }

  /** The position of the first step status called `name`, or `|steps|` when there is none. */
  function StepIndex(steps: seq<StepStatus>, name: string): (i: nat)
    ensures i <= |steps|
    ensures i < |steps| ==> steps[i].name == name
    ensures forall k | 0 <= k < i :: steps[k].name != name
  {
    if steps == [] || steps[0].name == name then 0 else 1 + StepIndex(steps[1..], name)
  }

  /** The position of the first task called `name`, or `|tasks|` when there is none. */
  function TaskIndex(tasks: seq<Task>, name: string): (i: nat)
    ensures i <= |tasks|
    ensures i < |tasks| ==> tasks[i].name == name
    ensures forall k | 0 <= k < i :: tasks[k].name != name
  {
    if tasks == [] || tasks[0].name == name then 0 else 1 + TaskIndex(tasks[1..], name)
  }

  /** Phase names are pairwise distinct, and so are the step names of each phase. */
  predicate UniqueNames(plan: Plan) {
    && (forall a, b | 0 <= a < b < |plan.phases| :: plan.phases[a].name != plan.phases[b].name)
    && (forall a | 0 <= a < |plan.phases| :: UniqueSteps(plan.phases[a].steps))
  }

  predicate UniqueSteps(steps: seq<Step>) {
    forall a, b | 0 <= a < b < |steps| :: steps[a].name != steps[b].name
  }

  /** The status tree lists exactly the plan's phases and steps, in order. */
  predicate Aligned(plan: Plan, tree: PlanStatus) {
    && |tree.phases| == |plan.phases|
    && (forall a | 0 <= a < |plan.phases| :: AlignedPhase(plan.phases[a], tree.phases[a]))
  }

  predicate AlignedPhase(phase: Phase, status: PhaseStatus) {
    && status.name == phase.name
    && |status.steps| == |phase.steps|
    && (forall b | 0 <= b < |phase.steps| :: status.steps[b].name == phase.steps[b].name)
  }
}
