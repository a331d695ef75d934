// Rows of the durable work queue: prospecting runs, their tasks, and the results a stage returns.

module Wrappers {

  datatype Option<+T> = None | Some(value: T) {
    function GetOr(default: T): T {
      match this
      case Some(v) => v
      case None => default
    }
  }

}

module RunTables {
  import opened Wrappers

  // Row keys are text in the database; only their equality and their order are ever used.
  type RunId = nat
  type TaskId = nat
  type BusinessId = nat
  type Owner = nat
  // Milliseconds.
  type Instant = int

  datatype Stage =
    | RunPlanning
    | SeedReassessment
    | DiscoverBusinesses
    | CorroborateBusiness
    | InspectWebsite
    | ConfirmAbsentWebsite
    | AssessWebsiteOpportunity
    | ScoreCandidate

  datatype TaskStatus = Pending | Leased | Completed | FailedPermanent | Blocked | Cancelled

  datatype Classification = Transient | Permanent | RuntimeBlocked | Withdrawn | Infrastructure

  // The part of a task's stored input that steers the stage graph: whether an absent website
  // was already confirmed once.
  datatype TaskInput = TaskInput(absenceConfirmed: bool)

  datatype Task = Task(
    runId: RunId,
    business: Option<BusinessId>,
    stage: Stage,
    input: TaskInput,
    status: TaskStatus,
    attempts: nat,
    maxAttempts: nat,
    owner: Option<Owner>,
    leaseExpiresAt: Option<Instant>,
    availableAt: Instant,
    failure: Option<Classification>,
    createdAt: Instant)

  datatype RunState = NotStarted | Running | Pausing | Paused | Cancelling | Finished | CancelledRun

  datatype Control = NoControl | PauseControl | CancelControl

  datatype Completion =
    | ReassessmentComplete
    | TargetReached
    | SearchExhausted
    | CancelledWithPartialResults
    | PausedOnRequest
    | RuntimeUnavailable
    | CompletedWithWarnings
    | InfrastructureFailed

  // One prospecting run with the two numbers its metrics row contributes to settlement.
  datatype Run = Run(
    state: RunState,
    completion: Option<Completion>,
    stage: Option<Stage>,
    control: Control,
    targetCount: int,
    reassessment: bool,
    qualified: int,
    targetRemaining: int)

  datatype Tables = Tables(runs: map<RunId, Run>, tasks: map<TaskId, Task>)

  // What a worker keeps of a task after claiming it; the row may move on without it.
  datatype RunTask = RunTask(
    id: TaskId, runId: RunId, stage: Stage, business: Option<BusinessId>, input: TaskInput,
    attempts: nat, maxAttempts: nat)

  datatype NewTask = NewTask(stage: Stage, business: Option<BusinessId>, input: TaskInput)

  // What a stage hands back: the tasks to insert, and whether the stage declares the search exhausted.
  datatype Checkpoint = Checkpoint(next: seq<NewTask>, searchExhausted: bool)

  const MAX_ATTEMPTS: nat := 3
  const RETRY_DELAY: int := 250

  predicate Terminal(status: TaskStatus) {
    status == Completed || status == FailedPermanent || status == Cancelled
  }

  predicate Settled(state: RunState) {
    state == Finished || state == CancelledRun
  }

  // Foreign keys and check constraints of the schema.
  predicate WellFormed(db: Tables) {
    forall t :: t in db.tasks ==> db.tasks[t].runId in db.runs
  }

  function SnapshotOf(id: TaskId, t: Task): RunTask {
    RunTask(id, t.runId, t.stage, t.business, t.input, t.attempts, t.maxAttempts)
  }

  // The columns of a claimed task that no transaction ever rewrites still agree with its row.
  predicate SnapshotAgrees(db: Tables, task: RunTask) {
    && task.id in db.tasks
    && var t := db.tasks[task.id];
       && t.runId == task.runId
       && t.stage == task.stage
       && t.business == task.business
       && t.input == task.input
       && t.maxAttempts == task.maxAttempts
       && task.attempts <= t.attempts
  }
}
