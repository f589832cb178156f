/** The task and execution tables, and a database session over them. */
module Tables {
  import opened Prelude

  type TaskId = nat
  type ExecutionId = nat
  /** Seconds since some fixed instant. */
  type Time = real

  // ----- tasks -----

  datatype TaskType = Planning | Execution | Analysis | Requirement | Other(name: string)

  datatype TaskStatus = Backlog | Queued | Prepared | Failed

  /** The keys of a task's details that the queue reads. */
  datatype Details = Details(
    requiresWriteAccess: Option<bool>,
    parallelizationMode: Option<string>,
    branchName: Option<string>)

  datatype Task = Task(
    number: nat,
    kind: TaskType,
    details: Details,
    executionOrder: Option<int>,
    createdAt: Time,
    status: TaskStatus,
    queuedAt: Option<Time>,
    lockedBy: Option<string>,
    batchId: Option<string>,
    attempts: nat,
    lastError: Option<string>,
    branch: Option<string>,
    worktree: Option<string>,
    commitBefore: Option<string>,
    contextVersion: Option<string>)

  /** The unique constraint on task_number. */
  ghost predicate UniqueNumbers(tasks: map<TaskId, Task>) {
    forall s, t :: s in tasks && t in tasks && s != t ==> tasks[s].number != tasks[t].number
  }

  // ----- executions -----

  datatype ExecutionStatus =
    | Prepared | Queued | Dispatching | InProgress | ResultInspection | AdoptingCommit | Review | Done | Failed

  datatype RunnerPhase = ClaimPhase | SessionPhase | DispatchPhase | StreamPhase | ResultPhase | AdoptionPhase

  datatype EventType =
    | ExecutionClaimed | ExecutionDispatched | ErrorEvent | RetryScheduled | RetryExhausted
    | ExecutionFailed | CommitAdoptionConflict | StatusUpdate

  datatype Event = Event(sequence: nat, kind: EventType)

  datatype TaskExecution = TaskExecution(
    taskId: TaskId,
    runnerId: string,
    status: ExecutionStatus,
    createdAt: Time,
    updatedAt: Time,
    startedAt: Option<Time>,
    dispatchedAt: Option<Time>,
    finishedAt: Option<Time>,
    heartbeatAt: Option<Time>,
    attempt: nat,
    maxAttempts: nat,
    nextRetryAt: Option<Time>,
    phase: Option<string>,
    sessionId: Option<string>,
    messageId: Option<string>,
    errorType: Option<string>,
    events: seq<Event>)

  predicate IsFinal(status: ExecutionStatus) {
    status.Done? || status.Failed? || status.Review?
  }

  predicate IsActive(e: TaskExecution) {
    !IsFinal(e.status)
  }

  predicate HasActive(executions: map<ExecutionId, TaskExecution>, task: TaskId) {
    exists e :: e in executions && executions[e].taskId == task && IsActive(executions[e])
  }

  /** The partial unique index ix_task_executions_unique_active. */
  ghost predicate OneActivePerTask(executions: map<ExecutionId, TaskExecution>) {
    forall e, f ::
      (e in executions && f in executions && executions[e].taskId == executions[f].taskId
       && IsActive(executions[e]) && IsActive(executions[f])) ==> e == f
  }

  // ----- the session -----

  datatype Tables = Tables(tasks: map<TaskId, Task>, executions: map<ExecutionId, TaskExecution>)

  /** A session sees the committed tables plus its own uncommitted writes. */
  class Session {
    var committed: Tables
    var current: Tables

    constructor (tables: Tables)
      ensures committed == current == tables
    {
      committed, current := tables, tables;
    }

    method Commit()
      modifies this
      ensures committed == current == old(current)
    {
      committed := current;
    }

    method Rollback()
      modifies this
      ensures committed == current == old(committed)
    {
      current := committed;
    }
  }
}
