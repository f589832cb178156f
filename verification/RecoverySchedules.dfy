/** What recovery leaves on an execution's row: the next attempt and its time, the event, the error text, the status;
    and that a sweep does not overlook any execution that could need it. */
module RecoverySchedules {
  import opened Prelude
  import opened Tables
  import opened Retry
  import opened Backoff
  import opened Stale
  import opened ExecutionRecovery
  import opened RecoveryTheorems
  import Claim
  import Dispatch

  // ----- the time of the next attempt -----

  /** The default numbers of a phase: the first delay and the longest one, in seconds. */
  function BaseOf(phase: RunnerPhase): real {
    match phase
    case ClaimPhase => 1.0
    case SessionPhase => 2.0
    case DispatchPhase => 5.0
    case StreamPhase => 10.0
    case ResultPhase => 5.0
    case AdoptionPhase => 10.0
  }

  function CapOf(phase: RunnerPhase): real {
    match phase
    case ClaimPhase => 30.0
    case SessionPhase => 60.0
    case DispatchPhase => 120.0
    case StreamPhase => 300.0
    case ResultPhase => 120.0
    case AdoptionPhase => 300.0
  }

  function BudgetOf(phase: RunnerPhase): nat {
    if phase in {StreamPhase, ResultPhase, AdoptionPhase} then 2 else 3
  }

  lemma DefaultNumbers(phase: RunnerPhase)
    ensures GetPolicy(DEFAULT_MATRIX, phase) == PhasePolicy(BudgetOf(phase), BaseOf(phase), CapOf(phase), 2.0, 0.1)
  {
  }

  /** The text in the phase column that stands for a phase; an empty or missing one stands for the stream. */
  lemma PhaseTexts()
    ensures PhaseOf(None) == PhaseOf(Some("")) == Some(StreamPhase)
    ensures PhaseOf(Some("claim")) == Some(ClaimPhase) && PhaseOf(Some("session")) == Some(SessionPhase)
    ensures PhaseOf(Some("dispatch")) == Some(DispatchPhase) && PhaseOf(Some("stream")) == Some(StreamPhase)
    ensures PhaseOf(Some("result")) == Some(ResultPhase) && PhaseOf(Some("adoption")) == Some(AdoptionPhase)
    ensures PhaseOf(Some("adopting_commit")) == None
  {
  }

  /** The next attempt is due within a tenth of min(base * 2^(attempt - 1), cap) seconds from now. */
  ghost predicate DueAfter(due: Option<Time>, base: real, cap: real, attempt: nat, now: Time)
    requires attempt >= 1
  {
    var m := Min(base * Power(2.0, attempt - 1), cap);
    due.Some? && now + 0.9 * m <= due.value < now + 1.1 * m
  }

  lemma DelayIsDue(p: PhasePolicy, attempt: nat, draw: real, now: Time)
    requires IsDoubling(p) && attempt >= 1 && IsDraw(draw)
    ensures DueAfter(Some(now + Delay(p, attempt, draw)), p.baseDelay, p.maxDelay, attempt, now)
  {
    DelayWithinTenth(p, attempt, draw);
  }

  /** The last event of a row that got one more. */
  ghost predicate Logged(after: TaskExecution, row: TaskExecution, kind: EventType) {
    && |after.events| == |row.events| + 1
    && after.events[..|row.events|] == row.events
    && after.events[|row.events|].kind == kind
  }

  ghost predicate SameDispatch(after: TaskExecution, row: TaskExecution) {
    && after.taskId == row.taskId && after.startedAt == row.startedAt && after.dispatchedAt == row.dispatchedAt
    && after.sessionId == row.sessionId && after.messageId == row.messageId && after.maxAttempts == row.maxAttempts
  }

  /** Retried: the attempt is one more and due after the backoff; status and finish time stay. */
  ghost predicate RetriedRow(after: TaskExecution, row: TaskExecution, base: real, cap: real, now: Time)
    requires row.attempt >= 1
  {
    && after.attempt == row.attempt + 1
    && DueAfter(after.nextRetryAt, base, cap, row.attempt, now)
    && after.status == row.status && after.finishedAt == row.finishedAt
    && after.updatedAt == now && SameDispatch(after, row) && Logged(after, row, RetryScheduled)
  }

  /** Ended: the new status with its finish time; attempt and due time stay. */
  ghost predicate EndedRow(after: TaskExecution, row: TaskExecution, status: ExecutionStatus, now: Time) {
    && after.attempt == row.attempt && after.nextRetryAt == row.nextRetryAt
    && after.status == status && after.finishedAt == Some(now)
    && after.updatedAt == now && SameDispatch(after, row) && Logged(after, row, ExecutionFailed)
  }

  /** A stale pick, on the row's fields: retried with the default backoff of its phase, or failed when the budget is
      spent; a row whose phase cannot be read stays as it is. */
  lemma StalePickByFields(row: TaskExecution, draw: real, now: Time)
    requires 1 <= row.attempt && row.maxAttempts >= 1 && IsDraw(draw)
    ensures var after := AfterStalePick(row, draw, now);
            match PhaseOf(row.phase)
            case None => after == row
            case Some(phase) =>
              && after.errorType == row.errorType
              && (row.attempt < row.maxAttempts ==> RetriedRow(after, row, BaseOf(phase), CapOf(phase), now))
              && (row.attempt >= row.maxAttempts ==> EndedRow(after, row, ExecutionStatus.Failed, now))
  {
    match PhaseOf(row.phase)
    case None =>
    case Some(p) =>
      DefaultNumbers(p);
      DelayIsDue(GetPolicy(DEFAULT_MATRIX, p), row.attempt, draw, now);
  }

  /** An error, on the row's fields: a transient error or a timeout within the budget is retried with the backoff of its
      phase; a conflict goes to review; everything else fails. The error's class is stored as its text. */
  lemma ErrorByFields(row: TaskExecution, kind: ErrorType, phase: RunnerPhase, matrix: RetryMatrix, draw: real,
                      now: Time)
    requires 1 <= row.attempt && row.maxAttempts >= 1 && IsDraw(draw) && IsDoubling(GetPolicy(matrix, phase))
    ensures var after := AfterError(row, kind, phase, matrix, draw, now);
            var p := GetPolicy(matrix, phase);
            && ((kind == Transient || kind == Timeout) && row.attempt < row.maxAttempts ==>
                  RetriedRow(after, row, p.baseDelay, p.maxDelay, now))
            && ((kind == Transient || kind == Timeout) && row.attempt >= row.maxAttempts ==>
                  EndedRow(after, row, ExecutionStatus.Failed, now))
            && (kind == ConflictError ==> EndedRow(after, row, Review, now))
            && (kind == Permanent || kind == ContractViolation || kind == ValidationFailed ==>
                  EndedRow(after, row, ExecutionStatus.Failed, now))
  {
    DelayIsDue(GetPolicy(matrix, phase), row.attempt, draw, now);
  }

  lemma ErrorTexts(row: TaskExecution, phase: RunnerPhase, matrix: RetryMatrix, draw: real, now: Time)
    ensures AfterError(row, Transient, phase, matrix, draw, now).errorType == Some("transient")
    ensures AfterError(row, Permanent, phase, matrix, draw, now).errorType == Some("permanent")
    ensures AfterError(row, ConflictError, phase, matrix, draw, now).errorType == Some("conflict")
    ensures AfterError(row, Timeout, phase, matrix, draw, now).errorType == Some("timeout")
    ensures AfterError(row, ContractViolation, phase, matrix, draw, now).errorType == Some("contract_violation")
    ensures AfterError(row, ValidationFailed, phase, matrix, draw, now).errorType == Some("validation_failed")
  {
  }

  /** Each phase has its own policy in a matrix. */
  lemma PolicyOfPhase(m: RetryMatrix)
    ensures GetPolicy(m, ClaimPhase) == m.claim && GetPolicy(m, SessionPhase) == m.session
    ensures GetPolicy(m, DispatchPhase) == m.dispatch && GetPolicy(m, StreamPhase) == m.stream
    ensures GetPolicy(m, ResultPhase) == m.result && GetPolicy(m, AdoptionPhase) == m.adoption
  {
  }

  /** A recovery event changes nothing but the log. */
  lemma RecoveryEventByFields(row: TaskExecution, action: RecoveryAction)
    ensures var after := RecoveryEventRow(row, action);
            && after == row.(events := after.events)
            && (action == RetryLater ==> Logged(after, row, RetryScheduled))
            && (action == GiveUp ==> Logged(after, row, RetryExhausted))
            && (action != RetryLater && action != GiveUp ==> Logged(after, row, StatusUpdate))
  {
  }

  /** A dispatch, on the row's fields. */
  lemma DispatchByFields(row: TaskExecution, x: Dispatch.Delivery, now: Time)
    ensures var after := Dispatch.DispatchedRow(row, x, now);
            && after.taskId == row.taskId && after.attempt == row.attempt && after.maxAttempts == row.maxAttempts
            && after.nextRetryAt == row.nextRetryAt && after.finishedAt == row.finishedAt
            && after.startedAt == Some(now) && after.updatedAt == now && after.heartbeatAt == row.heartbeatAt
            && (x.Sent? ==>
                  && after.status == InProgress && after.dispatchedAt == Some(now) && after.errorType == row.errorType
                  && after.sessionId == Some(x.sessionId) && after.messageId == Some(x.messageId)
                  && Logged(after, row, ExecutionDispatched))
            && (x.Refused? ==>
                  && after.status == Dispatching && after.dispatchedAt == row.dispatchedAt
                  && after.errorType == Some(x.errorType)
                  && after.sessionId == row.sessionId && after.messageId == row.messageId
                  && Logged(after, row, ErrorEvent))
  {
  }

  // ----- no execution is overlooked -----

  /** Not yet done, failed or in review, and past its preparation. */
  ghost predicate Unfinished(status: ExecutionStatus) {
    !status.Done? && !status.Failed? && !status.Review? && !status.Prepared?
  }

  ghost predicate PastLimit(row: TaskExecution, th: Thresholds, now: Time) {
    || now >= row.updatedAt + th.updateTimeout
    || (exists t :: row.startedAt == Some(t) && now >= t + th.maxDuration)
    || (exists t :: row.heartbeatAt == Some(t) && now >= t + th.heartbeatTimeout)
  }

  /** The stale query returns exactly the unfinished rows past one of the three limits. */
  lemma SelectedIff(row: TaskExecution, th: Thresholds, now: Time)
    ensures IsSelected(row, th, now) <==> Unfinished(row.status) && PastLimit(row, th, now)
  {
    if row.startedAt.Some? && now - row.startedAt.value >= th.maxDuration {
      assert row.startedAt == Some(row.startedAt.value) && now >= row.startedAt.value + th.maxDuration;
    }
    if row.heartbeatAt.Some? && now - row.heartbeatAt.value >= th.heartbeatTimeout {
      assert row.heartbeatAt == Some(row.heartbeatAt.value) && now >= row.heartbeatAt.value + th.heartbeatTimeout;
    }
  }

  /** The default limits: five minutes without a heartbeat, ten without an update, an hour since the start. */
  lemma DefaultLimits()
    ensures DEFAULT_THRESHOLDS == Thresholds(300.0, 600.0, 3600.0, map[])
  {
  }

  /** Sweeps that leave the execution time to become stale again. */
  ghost predicate Spaced(sweeps: seq<Sweep>, th: Thresholds, since: Time) {
    sweeps != [] ==>
      var n := |sweeps| - 1;
      && Spaced(sweeps[..n], th, since)
      && sweeps[n].th == th
      && sweeps[n].now >= (if n == 0 then since else sweeps[n - 1].now) + th.updateTimeout
  }

  lemma SweptOnce(executions: map<ExecutionId, TaskExecution>, s: Sweep, e: ExecutionId)
    requires e in executions && Unfinished(executions[e].status) && PhaseOf(executions[e].phase).Some?
    requires s.now >= executions[e].updatedAt + s.th.updateTimeout && InBudget(executions[e])
    ensures e in AfterSweep(executions, s)
    ensures var row, after := executions[e], AfterSweep(executions, s)[e];
            && after.phase == row.phase && after.maxAttempts == row.maxAttempts && after.updatedAt == s.now
            && (row.attempt < row.maxAttempts ==> after.status == row.status && after.attempt == row.attempt + 1)
            && (row.attempt >= row.maxAttempts ==> after.status == ExecutionStatus.Failed)
  {
    SelectedIff(executions[e], s.th, s.now);
    assert e in Selected(executions, s.th, s.now);
  }

  lemma FinishedIsLeftAlone(executions: map<ExecutionId, TaskExecution>, s: Sweep, e: ExecutionId)
    requires e in executions && executions[e].status == ExecutionStatus.Failed
    ensures e in AfterSweep(executions, s) && AfterSweep(executions, s)[e] == executions[e]
  {
    SelectedIff(executions[e], s.th, s.now);
  }

  /** Swept again and again, never sooner than the update limit after the last sweep, an unfinished execution that
      nobody else touches uses up its budget, and the next sweep fails it. */
  lemma {:induction false} SweptUntilFailed(executions: map<ExecutionId, TaskExecution>, sweeps: seq<Sweep>,
                                            th: Thresholds, e: ExecutionId)
    requires e in executions && Unfinished(executions[e].status) && PhaseOf(executions[e].phase).Some?
    requires InBudget(executions[e]) && Spaced(sweeps, th, executions[e].updatedAt)
    ensures e in AfterSweeps(executions, sweeps)
    ensures var row, after := executions[e], AfterSweeps(executions, sweeps)[e];
            && after.phase == row.phase && after.maxAttempts == row.maxAttempts
            && (|sweeps| <= row.maxAttempts - row.attempt ==>
                  && after.status == row.status && after.attempt == row.attempt + |sweeps|
                  && after.updatedAt == if sweeps == [] then row.updatedAt else sweeps[|sweeps| - 1].now)
            && (|sweeps| > row.maxAttempts - row.attempt ==> after.status == ExecutionStatus.Failed)
  {
    if sweeps != [] {
      var n := |sweeps| - 1;
      SweptUntilFailed(executions, sweeps[..n], th, e);
      var before := AfterSweeps(executions, sweeps[..n]);
      if n <= executions[e].maxAttempts - executions[e].attempt {
        SweptOnce(before, sweeps[n], e);
      } else {
        FinishedIsLeftAlone(before, sweeps[n], e);
      }
    }
  }

  /** So an execution whose delivery was refused does not block its task: three such sweeps fail it. */
  lemma RefusedDispatchIsFailed(executions: map<ExecutionId, TaskExecution>, sweeps: seq<Sweep>, th: Thresholds,
                                e: ExecutionId, t: TaskId, runner: string, errorType: string, claimed: Time, now: Time)
    requires e in executions && |sweeps| >= 3 && Spaced(sweeps, th, now)
    requires executions[e]
          == Dispatch.DispatchedRow(Claim.NewExecution(t, runner, claimed), Dispatch.Refused(errorType), now)
    ensures e in AfterSweeps(executions, sweeps)
    ensures AfterSweeps(executions, sweeps)[e].status == ExecutionStatus.Failed
  {
    SweptUntilFailed(executions, sweeps, th, e);
  }
}
