# A verified model of KUDO

KUDO runs the plans of an operator (plan, phases, steps, tasks) on Kubernetes. A reconcile loop
executes the plan scheduled on an Instance one pass at a time and keeps its progress in a status
tree; an admission webhook decides which writes to an Instance are let through and which plan
they schedule; a resolver finds the operators an operator depends on. This project models these
programs in Dafny and proves what they guarantee over whole runs.

Check everything with `dafny verify dfyconfig.toml`.

| files | what they hold |
|---|---|
| `Plans` | plans, status trees, tasks, parameters, operator versions |
| `Engine` | `workflow.Execute`: three nested loops as methods, and the function each one computes |
| `EngineVisits`, `EngineLogs`, `EngineRuns`, `EngineTheorems`, `EngineStatus`, `EngineProgress` | what a visit of a step, one pass, and any number of passes guarantee |
| `EnginePasses` | what one pass makes of each phase and step, told by the tree and the answers alone |
| `EngineNames`, `EngineAlone` | what repeated phase and step names cost |
| `Parameters`, `Instances`, `Admission` | parameter rules, the Instance class, the webhook |
| `AdmissionLaws` | which updates and creations are stored, and as what, told without the functions that compute it |
| `Controller` | status initialisation, scheduling, one reconciliation |
| `ControllerLaws` | what one reconciliation hands over, told by what it reads |
| `Protocol` | users, API server, webhook and controller as one state machine |
| `ProtocolLaws` | what the API server and the two writes of the controller leave behind, field by field |
| `ProtocolSafety`, `ProtocolTheorems`, `ProtocolHistory` | what holds in every reachable state and over the life of an instance |
| `ProtocolOrder`, `ProtocolWork`, `ProtocolUids` | order and completeness of task runs across reconciliations, crashes and lost writes, and when one UID stands for one plan |
| `EngineLimits`, `ProtocolLimits`, `ProtocolReuse`, `ResolveLimits` | inputs and runs that show why the promises carry their conditions |
| `Graph`, `Resolve` | dependency resolution |
| `Order`, `DependencyHash`, `Versions` | canonical orders, the cached dependency hash, the newest version |
| `DependencyLaws` | the dependency hash told by the objects: who depends on what, what is hashed, where it is written |

How to read it:

- Code that changes things is a method or a class, proved equal to a function of the old state;
  the theorems are lemmas about those functions. `Engine.Execute`, for instance, is proved to
  compute `ExecutePass`, and `EngineTheorems.RunAll` chains passes.
- A task run is an answer (done, not done, transient, fatal) given by an arbitrary function of
  its position; each pass has its own. Runs are kept in a ghost log with the number of the pass.
- The protocol is a function `Next` on states. An action is a user's create, update or delete, a
  reconciliation, the controller's first or second write, both writes together, or a crash. The
  API server is one register with a version number; a stale write fails. `After(w, acts)` is the
  state after a sequence of actions, so that a lemma about it is about every reachable state.
- Specification functions follow the code. So that they are not the only word on it, the modules
  called `…Laws`, `EnginePasses` and parts of `Versions` say in other terms, without these
  functions, exactly what they compute.
- Loops over Go maps pick the next key arbitrarily, and their contracts are functions of the map
  alone. This is how a verdict is shown not to depend on the order of enumeration.
- Every lemma carries `{:induction false}`: all inductions are written out.

Where the code and what is said about it differ, the model follows the code:

- `default: break` in `Execute` leaves only the `switch`: a NEVER_RUN or FATAL_ERROR phase or step
  of a plan that is not terminal is executed (`Engine.Resumed`).
- Two steps of one name share one status, and the second is then skipped
  (`EngineLimits.DuplicateStepLosesWork`). `EngineNames.NothingLostExactly` says exactly which
  serial plans lose nothing, `EngineAlone.ParallelLosesNothingExactly` which plans with parallel
  phases, and `EngineNames.SharedStatusLosesWork` that under any strategies a step with tasks and
  without a status of its own always costs some step its work.
- Likewise only the first task of a name is rewritten; the others keep looking up what their
  package says (`ResolveLimits.SecondTaskStaysAsWritten`, exactly when: `Resolve.ClosedExactly`).
- Operator versions are told apart by name, but names can coincide: `kafka` with operator version
  `1-2` and `kafka` with app version `1` and operator version `2` are both `kafka-1-2`
  (`Resolve.NamesCanCoincide`, exactly when: `Resolve.NamesakesExactly`).
- A comment says the finalizer is removed when the instance is being deleted and cleanup is
  completed. It is also removed when there is no cleanup status at all, which happens to a healthy
  instance when the very first status write is lost (`ProtocolLimits.FinalizerLost`, exactly when:
  `ProtocolHistory.FinalizerGoesWithoutCleanup`).
- Creation overwrites the plan name and the UID but keeps an execution status that the user sent.
  If the plan then ends in that very status in its first reconciliation, the spec is not written,
  the webhook never gets to clear the plan, and it stays scheduled
  (`ProtocolLimits.EndedPlanNotCleared`). `ProtocolSafety.EndedPlanStays` gives the exact condition,
  and `ProtocolHistory.TerminalOnlyFromCreation` shows that no other history leads there.
- `admitUpdate` refuses `cleanup` only as the requested plan. A parameter whose trigger is
  `cleanup` schedules it, and then the controller's own progress writes are refused
  (`ProtocolLimits.CleanupTriggerBlocks`); `ProtocolSafety.ProgressRefusedOnlyForCleanup` shows
  that this is the only way outside deletion. During deletion they are refused exactly when another
  plan is scheduled and no cleanup is left to run (`ProtocolSafety.DeletionWriteRefused`).
- Only the controller is meant to schedule `cleanup`, but during deletion a user can request it
  under any UID, also one that has finished, and tasks are then run under that UID
  (`ProtocolReuse.FinishedUidRunAgain`); `ProtocolTheorems.FinishedUidComesBack` shows that this is
  the only way. The runs of two plans then stand under one UID (exactly when:
  `ProtocolUids.UpdateBreaksAgreement`), but the runs of each plan are in order all the same.

## Model

| member | source | states |
|---|---|---|
| `Engine.Execute` | pkg/engine/workflow/engine.go:67-236 | computes `ExecutePass`; a pass from a non-terminal status ends in exactly one of IN_PROGRESS without error, COMPLETE without error, FATAL_ERROR with error |
| `Engine.RunSteps` | pkg/engine/workflow/engine.go:103-213 | the step loop computes `StepLoop` and turns the plan to FATAL_ERROR exactly under an error |
| `Engine.RunTasks` | pkg/engine/workflow/engine.go:129-199 | the task loop computes `TaskLoop`; an error is propagated to step, phase and plan |
| `EngineVisits.TaskLoopVisits` | pkg/engine/workflow/engine.go:129-199 | a visit runs the tasks of a step in order, each once, up to the first that is missing, does not build or fails fatally, which the error tells; a name is left exactly when no task so called reported done; the step turns to ERROR exactly when a task failed transiently |
| `EnginePasses.VisitMoves` | pkg/engine/workflow/engine.go:118-213 | told by the answers alone: a visit fails exactly if some task of the step is unknown, does not build or fails fatally; else every task name is done exactly if one so called answered done; the step shows ERROR exactly if a task failed transiently in this very visit, and otherwise IN_PROGRESS if it read PENDING, IN_PROGRESS or ERROR |
| `EnginePasses.StepsMove` | pkg/engine/workflow/engine.go:103-213 | what the step loop makes of the statuses of a phase: which steps it reaches, what each of them turns to, which stay, and when nothing is left |
| `EnginePasses.PassMoves` | pkg/engine/workflow/engine.go:67-236 | what a pass makes of any tree that lists the plan, phase by phase and step by step: a phase that is reached turns FATAL_ERROR at a failure, COMPLETE when all its steps are, else IN_PROGRESS if it was PENDING, IN_PROGRESS or ERROR; what is not reached stays; a serial plan stops at its first phase that does not become COMPLETE; an ended plan is left alone |
| `EnginePasses.MissingPhaseFails` | pkg/engine/workflow/engine.go:81-90 | a pass over any tree that comes past COMPLETE phases to one without a status changes nothing but the plan, which turns FATAL_ERROR |
| `EnginePasses.MissingStepFails` | pkg/engine/workflow/engine.go:106-116 | a pass over any tree that comes past COMPLETE phases and steps to a step without a status changes nothing but its phase and the plan, which turn FATAL_ERROR |
| `Plans.PhaseIndex` | pkg/apis/kudo/v1beta1/instance_types_helpers.go:287-294 | the first phase status of that name, or none exactly when there is none |
| `Plans.StepIndex` | pkg/apis/kudo/v1beta1/instance_types_helpers.go:277-284 | the first step status of that name, or none exactly when there is none |
| `Plans.TaskIndex` | pkg/engine/workflow/engine.go:38-45 | the first task of that name, or none exactly when there is none |
| `EngineRuns.StepLoopFacts` | pkg/engine/workflow/engine.go:103-213 | the step loop keeps the invariant that COMPLETE items are backed by done runs and runs are in order; its remaining set is empty exactly when all steps are COMPLETE |
| `EngineRuns.PhaseLoopFacts` | pkg/engine/workflow/engine.go:78-235 | the same for a pass; the plan becomes COMPLETE exactly when all phases are, and missing-status errors cannot occur |
| `EngineTheorems.RunInvariant` | pkg/engine/workflow/engine.go:78-235 | after any number of passes from a consistent tree the invariant holds |
| `EngineTheorems.TasksRunInOrder` | pkg/engine/workflow/engine.go:80-227 | under any mix of strategies, a task runs only after every task of every step it has to wait for has reported done |
| `EngineTheorems.SerialOrder` | pkg/engine/workflow/engine.go:80-227 | in a serial plan with serial phases, run from a reset status, nothing of a later step runs before every task of all earlier steps has reported done |
| `EngineTheorems.CompletedInOnePass` | pkg/engine/workflow/engine.go:129-213 | a step becomes COMPLETE in a pass that saw all its tasks report done |
| `EngineTheorems.NoLostWork` | pkg/engine/workflow/engine.go:129-233 | when a run takes a reset plan to COMPLETE, every task of every step was done, all in the one pass that completed the step |
| `EngineTheorems.CompleteStepsAreNotRerun` | pkg/engine/workflow/engine.go:118-128 | no run in the log belongs to a step that was COMPLETE when its pass began |
| `EngineStatus.CompleteIsNeverLeft` | pkg/engine/workflow/engine.go:68-116 | no pass takes COMPLETE back at any level, for arbitrary trees and names |
| `EngineStatus.PassKeepsIdentity` | pkg/engine/workflow/engine.go:67-236 | a pass keeps the name and the UID of the plan status |
| `EngineStatus.PassFindsAll` | pkg/engine/workflow/engine.go:81-116 | with unique names a pass over a tree that lists the phases and steps of the plan, whatever their statuses, meets no missing status and leaves such a tree |
| `EngineStatus.StatusConsistency` | pkg/engine/workflow/engine.go:186-235 | over any run from a reset status the levels agree, and either nothing is FATAL_ERROR or exactly one step, its phase and the plan are |
| `EngineProgress.SerialFrontier` | pkg/engine/workflow/engine.go:80-227 | the statuses of a serial plan always read COMPLETE, one frontier item, PENDING |
| `EngineProgress.OpenStepsNeverRise` | pkg/engine/workflow/engine.go:78-235 | the set of incomplete steps never grows |
| `EngineProgress.PassProgress` | pkg/engine/workflow/engine.go:78-235 | if the first incomplete step succeeds and nothing fails, a pass completes at least that step, and completes the plan exactly when no step is left |
| `EngineProgress.ProgressBound` | pkg/engine/workflow/engine.go:78-235 | from n incomplete steps such passes complete the plan after at most max(1, n) of them |
| `EngineLimits.DuplicateStepLosesWork` | pkg/engine/workflow/engine.go:103-128 | with two steps of one name a plan becomes COMPLETE although the task of the second never ran |
| `EngineLogs.PassLog` | pkg/engine/workflow/engine.go:67-236 | what a pass does apart from adding runs does not depend on the runs made before |
| `EngineLogs.PassRuns` | pkg/engine/workflow/engine.go:129-199 | every run of a pass bears its number and the answer of its task |
| `EngineNames.SharedStatusLosesWork` | pkg/engine/workflow/engine.go:80-128 | under any strategies and answers, if a step with tasks is not the first of its name in a phase that is the first of its name, no run from a reset status ever gets all steps done, unless it fails |
| `EngineNames.NothingLostExactly` | pkg/engine/workflow/engine.go:80-233 | a run of a serial plan with serial phases, from a reset status to COMPLETE, got every step done if and only if every step with tasks is the first of its name in a phase that is the first of its name |
| `EngineAlone.AloneLosesNothing` | pkg/engine/workflow/engine.go:80-233 | under any strategies and answers, a run from a reset status to COMPLETE got every step done if no step with tasks shares its status with another step |
| `EngineAlone.SharedCanLose` | pkg/engine/workflow/engine.go:103-213 | if a step with tasks shares its name with another step of its parallel phase, some run to COMPLETE, a single pass without a failure, loses work |
| `EngineAlone.ParallelLosesNothingExactly` | pkg/engine/workflow/engine.go:80-233 | for parallel phases of different names: every run from a reset status to COMPLETE is lossless if and only if no step with tasks shares its name with another step of its phase |
| `Parameters.RichParameterDiff` | pkg/apis/kudo/v1beta1/parameter_types_helpers.go:237-254 | changed or added keys with their new values and removed keys with their old ones, whatever the enumeration order |
| `Parameters.GetParamDefinitions` | pkg/apis/kudo/v1beta1/instance_types_helpers.go:243-258 | one definition per parameter, or an error exactly when one is undefined |
| `Parameters.ChangedParameters` | pkg/webhook/instance_admission.go:371-393 | the counted changed and removed definitions as sets; an error exactly when a changed parameter is undefined |
| `AdmissionLaws.CountedExactly` | pkg/webhook/instance_admission.go:371-393 | told by the two maps: a parameter counts when its value changed and both operator versions define it, or was removed and every removed parameter is defined |
| `Parameters.SelectPlan` | pkg/apis/kudo/v1beta1/instance_types_helpers.go:267-275 | a candidate that exists, or none exactly when no candidate exists |
| `Parameters.TriggeredByParameterUpdate` | pkg/webhook/instance_admission.go:334-365 | the triggered plan is a function of the set of definitions alone |
| `Parameters.TriggeredPlanIsNamed` | pkg/webhook/instance_admission.go:334-365 | a triggered plan exists, every explicit trigger names it, and without one it is update, or deploy if there is no update |
| `AdmissionLaws.TriggeredExactly` | pkg/webhook/instance_admission.go:334-365 | nothing is triggered exactly if nothing counts; a plan exactly if it exists and all triggers name it, or none does and it is update, or deploy without update; rejected exactly if a trigger names no plan, two differ, or none is named and neither fallback exists |
| `Parameters.ValidateParameters` | pkg/webhook/instance_admission.go:459-470 | accepts exactly when every definition accepts its value (the rules of pkg/apis/kudo/v1beta1/parameter_types_helpers.go lines 47 to 65) |
| `AdmissionLaws.ValuesExactly` | pkg/apis/kudo/v1beta1/parameter_types_helpers.go:47-65 | parameters are valid exactly if each required one without a default has a value, and every value that is not empty parses and lies in the enum, if there is one |
| `Parameters.SetImmutableParameterDefaults` | pkg/webhook/instance_admission.go:473-484 | computes `WithImmutableDefaults` |
| `Parameters.ImmutableDefaultsAreStored` | pkg/webhook/instance_admission.go:473-484 | every immutable parameter with a default has a stored value, set values are kept, and nothing but such defaults is added |
| `AdmissionLaws.DefaultsAddedExactly` | pkg/webhook/instance_admission.go:473-484 | what is added to what was sent is, for each name, the default of the first immutable definition that has one |
| `Parameters.GetAddedParameters` | pkg/apis/kudo/v1beta1/parameter_types_helpers.go:204-222 | exactly the new definitions whose name the old ones lack; with the arguments swapped, the removed ones |
| `Parameters.GetChangedParamDefs` | pkg/apis/kudo/v1beta1/parameter_types_helpers.go:187-201 | exactly the new definitions whose immutability differs from one of the same name |
| `Parameters.ValidateOVUpgrade` | pkg/webhook/instance_admission.go:422-456 | accepts exactly when every parameter that became immutable has a value and every added immutable one still has one after the pruning; dropped parameters are removed, the others kept |
| `Instances.Instance.PlanStatus` | pkg/apis/kudo/v1beta1/instance_types_helpers.go:125-133 | one of the statuses that carry the name, none exactly if no status does; the one stored under the name if all are stored under their names |
| `Instances.Instance.UpdateInstanceStatus` | pkg/apis/kudo/v1beta1/instance_types_helpers.go:75-89 | replaces a known plan status, marked with the time of the update, and copies its value to the spec; an unknown plan changes nothing |
| `Instances.Instance.ResetPlanStatus` | pkg/apis/kudo/v1beta1/instance_types_helpers.go:93-106 | sets the UID and turns plan, phases and steps to PENDING, keeping names and order, and stamps the stored status |
| `Instances.Instance.TryAddFinalizer` | pkg/apis/kudo/v1beta1/instance_types_helpers.go:142-154 | adds the finalizer exactly when it is missing and the cleanup status that was looked up is missing or NEVER_RUN |
| `Instances.Instance.TryRemoveFinalizer` | pkg/apis/kudo/v1beta1/instance_types_helpers.go:159-179 | removes the finalizer exactly when it is there and cleanup is COMPLETE or has no status |
| `Admission.CheckImmutableParameters` | pkg/webhook/instance_admission.go:395-406 | outside upgrades accepts exactly when no changed definition is immutable; in upgrades prunes in place |
| `Admission.NormalLifeRules` | pkg/webhook/instance_admission.go:271-330 | exactly when an update outside deletion is refused, and what it schedules otherwise |
| `Admission.DeletionRules` | pkg/webhook/instance_admission.go:254-269 | exactly which updates pass during deletion, none of which schedules a plan |
| `Admission.AdmitUpdate` | pkg/webhook/instance_admission.go:196-331 | verdict, triggered plan and stored parameters are functions of the two instances and operator versions, not of any enumeration order |
| `AdmissionLaws.UpdateExactly` | pkg/webhook/instance_admission.go:106-331 | told by the two instances and operator versions: an update is stored exactly if its plan exists, changed parameters are defined, immutable ones respected, the stored values valid, the trigger not rejected, and nothing is in its way; then the stored parameters are the sent ones, less those an upgrade drops, and the execution is the one of the upgrade, the trigger, the request, the terminal status or the new UID, in this order |
| `AdmissionLaws.RefusedWhy` | pkg/webhook/instance_admission.go:213-236 | the first of these rules that is broken names the reason |
| `AdmissionLaws.StoredIsJudged` | pkg/webhook/instance_admission.go:119-143 | without the operator versions an update is refused, unless spec and status are as before: then it is stored unseen |
| `AdmissionLaws.TouchedParameterSchedules` | pkg/webhook/instance_admission.go:232-236 | an admitted change or removal of a parameter with a trigger, outside deletion and upgrades, runs that plan under the UID of the webhook |
| `Admission.UnchangedIsNoUpgrade` | pkg/webhook/instance_admission.go:196-331 | an admitted update without a plan never changes the operator version, so nothing pruned is lost |
| `Admission.HandleUpdate` | pkg/webhook/instance_admission.go:106-167 | a scheduled plan gets a UID of the webhook's own and NEVER_RUN; other admitted updates are stored as sent |
| `Admission.HandleCreate` | pkg/webhook/instance_admission.go:61-104 | for whatever the user sends: refuses exactly without operator version or deploy plan or with invalid parameters; else schedules deploy, stores defaults and, if there is a cleanup plan, adds the finalizer unless a sent cleanup status forbids it |
| `AdmissionLaws.CreateExactly` | pkg/webhook/instance_admission.go:61-104 | an instance is created exactly if operator version and deploy plan exist and its parameters, completed by immutable defaults, are valid; stored are these parameters, deploy under the UID of the webhook, and the finalizer if cleanup is still to run |
| `Controller.InitPlanStatus` | pkg/controller/instance/instance_controller.go:529-577 | the inner loops compute `InitPhases` |
| `Controller.EnsurePlanStatusInitialized` | pkg/controller/instance/instance_controller.go:529-577 | computes `InitStatus` for every plan, whatever the enumeration order |
| `Controller.StatusMatchesPlan` | pkg/controller/instance/instance_controller.go:529-577 | afterwards a status lists exactly the phases and steps of its plan in order; surviving items keep their status, new ones are NEVER_RUN |
| `Controller.InitStatusIdempotent` | pkg/controller/instance/instance_controller.go:529-577 | a second initialisation changes nothing; plans outside the operator version are untouched |
| `Controller.NothingIsMissing` | pkg/controller/instance/instance_controller.go:529-577 | hence no pass over an initialised tree, reset or not and whatever was recorded before, meets a missing phase or step |
| `Controller.ReconcileMissesNothing` | pkg/controller/instance/instance_controller.go:195-245 | hence no reconciliation does, be its plan new or resumed |
| `ControllerLaws.InitRecalls` | pkg/controller/instance/instance_controller.go:529-577 | an initialised status lists the plan, each phase and step as the first of its name was known, NEVER_RUN if none was, and keeps status, UID and time of the plan |
| `Controller.ScheduledPlan` | pkg/controller/instance/instance_controller.go:581-604 | schedules cleanup with a new UID exactly on a deletion whose cleanup exists, has never run and is not scheduled |
| `ControllerLaws.SchedulesExactly` | pkg/controller/instance/instance_controller.go:581-604 | an instance that is handed over has cleanup scheduled under the new UID exactly if it is being deleted, the plan exists and is not scheduled, and its status is missing or says NEVER_RUN; in all other cases plan and UID are kept, and operator version, parameters, finalizers and deletion always are |
| `Controller.ResetPlanStatusIfPlanIsNew` | pkg/controller/instance/instance_controller.go:510-524 | resets exactly when the UID is new; no result exactly when the plan is unknown |
| `Controller.Reconcile` | pkg/controller/instance/instance_controller.go:169-265 | computes `Reconciled`: the instance handed to `updateInstance` and the task runs made |
| `ControllerLaws.WritesExactly` | pkg/controller/instance/instance_controller.go:169-245 | something is handed over exactly if the operator version exists and there is a plan with a status or a definition, or no plan and a new readiness |
| `ControllerLaws.WorksExactly` | pkg/controller/instance/instance_controller.go:195-265 | the scheduled plan goes on from what was known under its UID and starts over, all PENDING, under another; it fails if dependencies do not resolve, stays if it cannot be prepared, and else makes one pass, whose tree, status and runs are handed over; all other plans are recalled |
| `Protocol.ApiServer.Update` | pkg/controller/instance/instance_controller.go:346-360 | version check, admission, store; nothing changes on refusal |
| `Protocol.ApiServer.UpdateStatus` | pkg/controller/instance/instance_controller.go:362-374 | version check and store of the status alone |
| `Protocol.UpdateInstance` | pkg/controller/instance/instance_controller.go:339-376 | finalizer, then spec if it changed, then status; when it stops, what is stored, and exactly when it succeeds |
| `ProtocolLaws.TwoWritesExactly` | pkg/controller/instance/instance_controller.go:339-376 | with nobody writing in between: when a write is made and refused nothing is stored; else spec and finalizers are those of the admitted instance, the status that of the reconciliation, and the instance is gone exactly if it is being deleted and has no finalizer left |
| `ProtocolLaws.FinalizerExactly` | pkg/apis/kudo/v1beta1/instance_types_helpers.go:159-179 | of what is handed over, only the cleanup finalizer can go, and it stays exactly if the cleanup plan has a status other than COMPLETE |
| `ProtocolSafety.NextFacts` | pkg/controller/instance/instance_controller.go:195-265 | a reconciliation changes only the execution status and the status of the scheduled plan, loses no entry, and leaves the finalizers to `updateInstance` |
| `ProtocolSafety.AlwaysBasic` | pkg/controller/instance/instance_controller.go:169-265 | in every reachable state a reconciliation in flight whose version is current was computed from exactly what is stored |
| `ProtocolSafety.AlwaysSound` | pkg/webhook/instance_admission.go:196-331 | outside deletion the stored plan exists and is not cleanup, and the stored parameters are valid |
| `ProtocolSafety.ProgressVerdict` | pkg/webhook/instance_admission.go:196-331 | the answer to a write that changes only the execution status, case by case |
| `ProtocolSafety.MetadataOnlyExactly` | pkg/webhook/instance_admission.go:119-122 | exactly when a reconciliation leaves spec and status as they are stored, times of update included, so that its write passes unchecked |
| `ProtocolSafety.LaterUpdateStirs` | pkg/apis/kudo/v1beta1/instance_types_helpers.go:75-81 | never if the status of the plan is updated at another time than it was last, or with other messages |
| `ProtocolSafety.ControllerNeverBlocksItself` | pkg/controller/instance/instance_controller.go:339-360 | without a cleanup trigger and outside deletion the first write of a current reconciliation, if one is made, is admitted; a plan that has ended is cleared if more than metadata is written, otherwise the plan stays with its new status |
| `ProtocolSafety.EndedPlanStays` | pkg/controller/instance/instance_controller.go:349-350 | a plan that has ended stays scheduled exactly if the stored status already was the one it ended in and the finalizers stay, or else nothing but the finalizers changes, not even the time of the update |
| `ProtocolSafety.EndedPlanIsLeftAlone` | pkg/controller/instance/instance_controller.go:510-524 | a plan that has ended under the stored status and UID is neither run nor cleared by a reconciliation that resolves its dependencies |
| `ProtocolSafety.AlwaysSoundButCleanup` | pkg/webhook/instance_admission.go:196-331 | whatever the triggers, and also during deletion, the stored plan exists and the stored parameters are valid |
| `ProtocolSafety.ProgressRefusedOnlyForCleanup` | pkg/webhook/instance_admission.go:292-295 | whatever the triggers, outside deletion a current first write is refused exactly when the stored plan is cleanup and the write changes more than metadata |
| `ProtocolSafety.DeletionWriteRefused` | pkg/webhook/instance_admission.go:254-269 | during deletion it is refused exactly when it changes more than metadata, times of update included, another plan than cleanup is scheduled, and no cleanup is left to put in its place |
| `ProtocolTheorems.OnePlanAtATime` | pkg/webhook/instance_admission.go:274-330 | if users leave the execution status alone and the two writes happen together, every running plan outside deletion is the one in the spec, so at most one runs |
| `ProtocolTheorems.FirstWriteAlone` | pkg/controller/instance/instance_controller.go:339-376 | after the first write alone that holds exactly unless the plan has ended, its stored status is still running, and it exists, is not cleanup and runs on valid parameters |
| `ProtocolTheorems.StoppingBetweenTheWrites` | pkg/controller/instance/instance_controller.go:339-376 | what a crash between the writes leaves stored |
| `ProtocolTheorems.StoredUid` | pkg/webhook/instance_admission.go:149-163 | a plan is stored under a UID of the webhook's own, or unchanged with a status that is not terminal |
| `ProtocolTheorems.NeverScheduledAgain` | pkg/webhook/instance_admission.go:297-330 | in every reachable state no plan is scheduled under a finished UID, provided no user sends one during deletion |
| `ProtocolTheorems.FinishedUidComesBack` | pkg/webhook/instance_admission.go:254-269 | an update schedules a plan under a finished UID exactly when a user sends that UID with a plan during deletion and the update is admitted |
| `ProtocolTheorems.StoredAsSent` | pkg/webhook/instance_admission.go:254-269 | during deletion whatever is admitted is stored as sent |
| `ProtocolTheorems.FinishedIsNeverRunAgain` | pkg/controller/instance/instance_controller.go:339-376 | once a terminal status for a UID was admitted outside deletion, no later reconciliation runs a task under it, across crashes and lost writes, under the same proviso |
| `ProtocolHistory.StatusEntriesStay` | pkg/controller/instance/instance_controller.go:529-577 | a plan status never disappears while the instance exists |
| `ProtocolHistory.CleanupStatusMissing` | pkg/controller/instance/instance_controller.go:195-222 | a reconciliation ends without a cleanup status exactly if none is stored and either the operator has no cleanup plan or nothing is scheduled outside deletion |
| `ProtocolHistory.WriteSpecDropsFinalizer` | pkg/apis/kudo/v1beta1/instance_types_helpers.go:159-179 | the first write drops the finalizer exactly when it is admitted and cleanup ended COMPLETE or, by the stored instance, can have no status |
| `ProtocolHistory.FinalizerGoesWithoutCleanup` | pkg/apis/kudo/v1beta1/instance_types_helpers.go:170-176 | in every reachable state, exactly when the finalizer goes without a COMPLETE cleanup, told by the stored instance and operator version; only for a plan scheduled during deletion by what the reconciliation is given as well |
| `ProtocolHistory.TerminalOnlyFromCreation` | pkg/webhook/instance_admission.go:84-85 | outside deletion a terminal status in the stored spec was sent with the creation of the instance, and the execution has not changed since |
| `ProtocolHistory.FinalizerSafety` | pkg/controller/instance/instance_controller.go:339-346 | once there is a cleanup entry, the controller drops the finalizer only in a write made when it is COMPLETE |
| `ProtocolHistory.CleanupStays` | pkg/webhook/instance_admission.go:254-269 | during deletion nothing moves the plan off cleanup |
| `ProtocolHistory.AdmittedParams` | pkg/webhook/instance_admission.go:371-406 | what one admitted update may do to unknown and to immutable parameters |
| `ProtocolHistory.UpgradeRules` | pkg/webhook/instance_admission.go:277-304 | an upgrade is admitted only from an idle instance with no plan requested; then every parameter that became or was added as immutable has a stored value, and a new plan is scheduled |
| `ProtocolHistory.UnknownKeysShrink` | pkg/webhook/instance_admission.go:371-393 | over all updates and upgrades the stored keys unknown to the operator version only become fewer, with their values unchanged |
| `ProtocolHistory.ImmutableHistory` | pkg/webhook/instance_admission.go:395-406 | between upgrades an immutable value is constant until dropped, and once absent never set again |
| `ProtocolOrder.AlwaysInOrder` | pkg/controller/instance/instance_controller.go:169-265 | in every state of a legal run, whatever users send, the runs of each plan under each UID are in order and back every tree that can still be resumed |
| `ProtocolUids.UpdateBreaksAgreement` | pkg/webhook/instance_admission.go:254-269 | an update makes the scheduled UID one of another plan exactly if it is admitted, during deletion, with a plan and a UID under which another plan or operator version has been run |
| `ProtocolUids.OneUidOnePlan` | pkg/webhook/instance_admission.go:149-163 | without such an update all runs under one UID belong to one plan of one operator version |
| `ProtocolOrder.TasksRunInOrderUnderUid` | pkg/engine/workflow/engine.go:80-227 | in every legal run a task runs only after every task of every step it has to wait for has reported done under the same UID in the same plan and operator version, across crashes, lost status writes, repeated initialisation and any UID that users send |
| `ProtocolWork.NoWorkLostUnderUid` | pkg/engine/workflow/engine.go:129-233 | if the tree of the scheduled execution is COMPLETE, as stored or as handed over by a reconciliation, each of its steps had all tasks report done under its UID, all in one reconciliation |
| `ProtocolLimits.FinalizerLost` | pkg/apis/kudo/v1beta1/instance_types_helpers.go:159-179 | a legal run that leaves a healthy instance without the finalizer, its cleanup never run |
| `ProtocolLimits.StaleRunningStatus` | pkg/controller/instance/instance_controller.go:339-376 | a legal run with a crash between the writes after which a plan has a running status and the spec names none |
| `ProtocolLimits.EndedPlanNotCleared` | pkg/controller/instance/instance_controller.go:349-350 | a legal run without cleanup trigger, crash or deletion after which a COMPLETE plan stays scheduled, whatever reconciliations with resolved dependencies follow |
| `ProtocolReuse.FinishedUidRunAgain` | pkg/webhook/instance_admission.go:254-269 | a legal run in which deploy runs and finishes under a UID, a user requests cleanup under it, and a task of cleanup is run under it |
| `ProtocolLimits.CleanupTriggerBlocks` | pkg/webhook/instance_admission.go:292-295 | a legal run in which a parameter trigger schedules cleanup and the controller's write is refused |
| `Graph.IsAcyclic` | pkg/kudoctl/resources/dependencies/resolve.go:148-152 | answers true exactly when the graph has no cycle |
| `Graph.StuckHasCycle` | pkg/kudoctl/resources/dependencies/resolve.go:148-152 | if every vertex of a set has a successor in it, there is a cycle |
| `Resolve.IndexOf` | pkg/kudoctl/resources/dependencies/resolve.go:182-189 | the first entry of that fully qualified name, or none exactly when there is none |
| `Resolve.NamesTellApart` | pkg/apis/kudo/v1beta1/operatorversion_types_helpers.go:17-26 | names of operator versions that differ in one of operator, app version and operator version differ |
| `Resolve.NamesCanCoincide` | pkg/apis/kudo/v1beta1/operatorversion_types_helpers.go:17-22 | two different operator versions of one operator with one name |
| `Resolve.NamesakesExactly` | pkg/apis/kudo/v1beta1/operatorversion_types_helpers.go:17-26 | another version of the same operator can have the same name exactly if there is an app version, or a dash after the first character of the operator version |
| `Resolve.Walk.constructor` | pkg/kudoctl/resources/dependencies/resolve.go:55-67 | the list holds the root and the graph one vertex |
| `Resolve.Walk.UpdateTask` | pkg/kudoctl/resources/dependencies/resolve.go:167-177 | rewrites the first task of that name, and fails exactly when there is none |
| `Resolve.Walk.Link` | pkg/kudoctl/resources/dependencies/resolve.go:119-146 | no package is listed twice, and an edge leads to it; the invariant of list, graph and rewritten tasks is kept |
| `Resolve.Walk.DependencyWalk` | pkg/kudoctl/resources/dependencies/resolve.go:77-162 | ends (the resolvable names not yet listed become fewer); on success the graph is acyclic and all new tasks are dealt with; the cyclic error comes only with a cycle, the other only with an unresolvable task |
| `Resolve.ResolveAll` | pkg/kudoctl/resources/dependencies/resolve.go:55-75 | succeeds exactly when the final graph is acyclic and every task of every listed package was dealt with |
| `Resolve.EdgesAreReferences` | pkg/kudoctl/resources/dependencies/resolve.go:77-162 | on success the edges are exactly the references between listed packages, every reference is listed, everything listed is reachable from the root (and, by `Sound`, was handed out by a resolver) |
| `Resolve.CyclesAreReal` | pkg/kudoctl/resources/dependencies/resolve.go:148-152 | a cycle of the graph is a cycle of references between packages |
| `Resolve.ReferenceIsListed` | pkg/kudoctl/resources/dependencies/resolve.go:100-126 | the name that the first task of its name looks up at run time is that of a listed dependency other than the root |
| `Resolve.ClosedExactly` | pkg/engine/task/task_kudo_operator.go:41-44 | after a successful resolution every KudoOperator task of the root and of every dependency looks up a listed dependency if and only if those that are not the first of their name do so as written |
| `Resolve.ClosedUnderReferences` | pkg/engine/task/task_kudo_operator.go:41-44 | hence it does if task names are unique in every package |
| `Resolve.LaterNamesakesAreNotRewritten` | pkg/kudoctl/resources/dependencies/resolve.go:167-177 | a task that is not the first of its name keeps its package reference |
| `ResolveLimits.SecondTaskStaysAsWritten` | pkg/kudoctl/resources/dependencies/resolve.go:167-177 | a resolution that succeeds and leaves the second of two tasks of one name looking up an operator version that is not listed |
| `Order.Sort` | pkg/util/kudo/versions.go:23-25 | a sorted permutation, for any strict weak order |
| `Order.SortedIsUnique` | pkg/engine/renderer/dependencies.go:116-131 | under a strict total order the sorted sequence depends only on the elements |
| `DependencyHash.LessIsStrictTotalOrder` | pkg/engine/renderer/dependencies.go:68-82 | `Less` is a strict total order on all five fields |
| `DependencyLaws.LessExactly` | pkg/engine/renderer/dependencies.go:68-82 | `Less` holds exactly if at the first of group, kind, version, namespace and name that differs the left one is smaller |
| `DependencyHash.AddFromTemplate` | pkg/engine/renderer/dependencies.go:86-113 | appends pull secrets, then the config map and secret of each volume; an error exactly for a malformed template |
| `DependencyHash.CalculateResourceDependencies` | pkg/engine/renderer/dependencies.go:247-260 | the dependencies of both templates, or an error exactly when one is malformed |
| `DependencyLaws.DependenciesExactly` | pkg/engine/renderer/dependencies.go:86-113 | each dependency comes exactly as often as pull secrets and volume secrets name a Secret, or volumes a ConfigMap, in the namespace of the object; nothing else comes |
| `DependencyHash.SetTemplateHash` | pkg/engine/renderer/dependencies.go:263-278 | writes the annotation at the matching paths up to the first that fails, leaving out invalid ones; succeeds exactly when none fails |
| `DependencyLaws.TakesHashExactly` | pkg/engine/renderer/consts.go:56-65 | which kinds of which groups take the annotation at which of the two paths |
| `DependencyLaws.HashIsWritten` | pkg/engine/renderer/dependencies.go:263-278 | the hash can be written exactly if no path that takes it is unwritable; it is then held at every such path that is valid, and every other path holds what it held |
| `DependencyHash.AnnotationSparesDependencies` | pkg/engine/renderer/consts.go:56-65 | the annotation changes nothing else, and never a Secret or ConfigMap |
| `DependencyHash.HashIgnoresOrder` | pkg/engine/renderer/dependencies.go:116-131 | permuted dependencies have the same hash, and only one |
| `DependencyHash.PodOrderIsIrrelevant` | pkg/engine/renderer/dependencies.go:86-113 | the order of volumes and pull secrets only permutes the dependencies |
| `DependencyHash.Calculator.ResourceOf` | pkg/engine/renderer/dependencies.go:202-244 | the object as the task deploys it, or else as the cluster has it |
| `DependencyHash.Calculator.GetHashForDependency` | pkg/engine/renderer/dependencies.go:133-162 | the cached hash is the one computed without a cache |
| `DependencyLaws.HashExactly` | pkg/engine/renderer/dependencies.go:133-162 | the hash of a dependency is the MD5 of the first object of the task so called, or else of the one in the cluster; empty if it is not found or opts out; none if it cannot be fetched or serialised |
| `DependencyHash.Calculator.CalculateAndSetHash` | pkg/engine/renderer/dependencies.go:116-131 | the annotation is the cache-free hash over the sorted dependencies; fails exactly when a dependency cannot be hashed or the annotation cannot be written |
| `DependencyHash.Calculator.AddDependenciesHashes` | pkg/engine/renderer/enhancer.go:85-100 | in any processing order, every object gets the hash a cache-free calculator finds on the objects as they were; fails exactly when some object cannot be read, hashed or annotated |
| `DependencyLaws.HashDigests` | pkg/engine/renderer/dependencies.go:116-131 | the hash of an object digests the hashes of its dependencies in ascending order |
| `DependencyLaws.HashedExactly` | pkg/engine/renderer/enhancer.go:85-100 | an object with dependencies ends up with that digest at every path that takes it and is valid, and is otherwise as it was; one without is untouched |
| `Versions.VersionsAreOrdered` | pkg/util/kudo/versions.go:76-100 | `compareVersion` induces a strict weak order on all strings, parsable or not |
| `Versions.CompareExactly` | pkg/util/kudo/versions.go:76-100 | newer is what has the higher precedence, or is a semantic version where the other is not, or, if neither is, comes later as text |
| `Versions.ListIsOrdered` | pkg/util/kudo/versions.go:23-65 | the reversed `Less` is a strict weak order, so that sorting is well defined |
| `Versions.BeforeExactly` | pkg/util/kudo/versions.go:47-65 | the list goes by name as text, then from newer to older app versions, then from newer to older operator versions |
| `Versions.FilterByName` | pkg/util/kudo/versions.go:18-21 | exactly the entries of that name |
| `Versions.FindFirstMatch` | pkg/util/kudo/versions.go:28-38 | the first match, or none exactly when nothing matches |
| `Versions.NewestMatch` | pkg/util/kudo/versions.go:18-100 | filter, sort and first match give an entry of the name and versions asked for, such that no other has an app version of higher precedence or, at the same precedence, an operator version of higher precedence; strings that are no semantic versions come below and go by their text; none exactly when there is no such entry |

## Left out

- Task bodies, readiness and health checks: Kubernetes I/O; a task is its answer, readiness an input of a reconciliation, and whether a task builds a field of it.
- Events, logs and back-off; all conditions together are one opaque value.
- The clock and the texts of status messages: each reconciliation is given a mark that stands for the time, to the second, and the messages of its last update of a status. Statuses are compared with their marks; the time stamps that the executor sets before are overwritten by that update.
- Parsing of parameter values, YAML, MD5, UUIDs and semantic versions: arbitrary functions; `Versions` assumes that precedence is a total preorder (section 11 of Semantic Versioning 2.0.0), `Protocol.Enabled` that generated UUIDs are new, and so are the numbers by which reconciliations are told apart.
- Changing operator versions: the content behind a reference is fixed during a run, and name and namespace are one string.
- Concurrent controllers: there is one, and reading and executing are one step of the protocol; its two writes are separate steps.
- The API server: status writes bypass admission, creation drops the status, an instance being deleted disappears with its last finalizer, a user's write on a stale version does nothing. Decoding of responses is not modelled: the controller keeps the instance it computed.
- Plan statuses stored under a name other than their own: only creation may meet them, as the API server drops what a user sends; everything after it works on statuses that the controller has written (`ProtocolSafety.AlwaysBasic`).
- Writing an annotation into a document: whether a path can be written, is invalid or fails is given with the object.
- Strategy values other than serial: all act as parallel, as in the code. Nil and empty maps are not told apart.
- Aliasing between packages handed out by a resolver: packages are values, and a resolver is a deterministic function whose answers have finitely many names; the root has an empty operator name.
- `sort.Sort`: an insertion sort on a sequence stands for it, since only a sorted permutation is used.
- Pointers into the status tree: `Engine` passes the tree through its three loops as a value, so update in place is an assignment of the whole tree.
- `GetLastExecutedPlanStatus` and `wasRunAfter`: they compare timestamps.
- Command line, template rendering, generated clients, repository index sorting, the in-cluster resolver and template parameter collection: plumbing, or nothing hard to promise.
