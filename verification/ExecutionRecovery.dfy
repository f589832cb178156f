/** execqueue/runner/recovery.py: errors of executions, and the sweep over stale ones. */
module ExecutionRecovery {
  import opened Prelude
  import opened Tables
  import opened Retry
  import opened Stale
  import Dispatch

  datatype RecoveryAction = Observe | RetryLater | SendToReview | GiveUp | RevalidateAdoption

  datatype RecoveryDecision = RecoveryDecision(
    action: RecoveryAction,
    newStatus: Option<ExecutionStatus>,
    nextRetryAt: Option<Time>)

  // ----- deciding -----

  /** The branches of handle_error, for any retry decision. */
  function DecisionForError(kind: ErrorType, retry: RetryDecision): RecoveryDecision {
    if retry.exhausted then
      if kind == ConflictError then RecoveryDecision(SendToReview, Some(Review), None)
      else RecoveryDecision(GiveUp, Some(ExecutionStatus.Failed), None)
    else if retry.shouldRetry then RecoveryDecision(RetryLater, None, retry.nextRetryAt)
    else RecoveryDecision(Observe, None, None)
  }

  function DecisionForStale(retry: RetryDecision): RecoveryDecision {
    if retry.shouldRetry then RecoveryDecision(RetryLater, None, retry.nextRetryAt)
    else RecoveryDecision(GiveUp, Some(ExecutionStatus.Failed), None)
  }

  function ErrorName(kind: ErrorType): string {
    match kind
    case Transient => "transient"
    case Permanent => "permanent"
    case ConflictError => "conflict"
    case Timeout => "timeout"
    case ContractViolation => "contract_violation"
    case ValidationFailed => "validation_failed"
  }

  function Rescheduled(row: TaskExecution, retry: RetryDecision): TaskExecution {
    if retry.shouldRetry then row.(attempt := retry.nextAttempt, nextRetryAt := retry.nextRetryAt) else row
  }

  /** The call handle_error: it notes the error on the row and, for a retry, the next attempt. */
  method HandleError(s: Session, e: ExecutionId, kind: ErrorType, phase: RunnerPhase, matrix: RetryMatrix, draw: real,
                     now: Time)
    returns (d: RecoveryDecision)
    requires e in s.current.executions
    modifies s`current
    ensures (var row := old(s.current.executions)[e];
             var retry := CalculateRetry(row, kind, phase, matrix, draw, now);
             && d == DecisionForError(kind, retry)
             && s.current == old(s.current).(
                  executions := old(s.current.executions)[
                    e := Rescheduled(row.(errorType := Some(ErrorName(kind))), retry)]))
    ensures d.action != Observe
    ensures d.action == SendToReview <==> kind == ConflictError
    ensures d.newStatus.Some? ==> IsFinal(d.newStatus.value)
  {
    var row := s.current.executions[e];
    row := row.(errorType := Some(ErrorName(kind)));
    var retry := CalculateRetry(row, kind, phase, matrix, draw, now);
    if !retry.exhausted && retry.shouldRetry {
      row := row.(attempt := retry.nextAttempt);
      row := row.(nextRetryAt := retry.nextRetryAt);
    }
    Dispatch.StoreExecution(s, e, row);
    d := DecisionForError(kind, retry);
  }

  /** A stale execution is treated as a transient error under the default matrix. */
  function RetryForStale(row: TaskExecution, phase: RunnerPhase, draw: real, now: Time): RetryDecision {
    CalculateRetry(row, Transient, phase, DEFAULT_MATRIX, draw, now)
  }

  /** handle_stale_execution; an unreadable phase raises before anything is written. */
  method HandleStaleExecution(s: Session, e: ExecutionId, draw: real, now: Time) returns (d: Option<RecoveryDecision>)
    requires e in s.current.executions
    modifies s`current
    ensures d.None? <==> PhaseOf(old(s.current.executions)[e].phase).None?
    ensures d.None? ==> s.current == old(s.current)
    ensures d.Some? ==>
              (var row := old(s.current.executions)[e];
               var retry := RetryForStale(row, PhaseOf(row.phase).value, draw, now);
               && d.value == DecisionForStale(retry)
               && s.current == old(s.current).(
                    executions := old(s.current.executions)[e := Rescheduled(row, retry)]))
  {
    var row := s.current.executions[e];
    var phase := PhaseOf(row.phase);
    if phase.None? {
      return None;
    }
    var retry := CalculateRetry(row, Transient, phase.value, DEFAULT_MATRIX, draw, now);
    if retry.shouldRetry {
      row := row.(attempt := retry.nextAttempt);
      row := row.(nextRetryAt := retry.nextRetryAt);
      Dispatch.StoreExecution(s, e, row);
      return Some(RecoveryDecision(RetryLater, None, retry.nextRetryAt));
    } else {
      Dispatch.StoreExecution(s, e, row);
      return Some(RecoveryDecision(GiveUp, Some(ExecutionStatus.Failed), None));
    }
  }

  // ----- applying -----

  function EventFor(action: RecoveryAction): EventType {
    match action
    case RetryLater => RetryScheduled
    case GiveUp => ExecutionFailed
    case SendToReview => ExecutionFailed
    case RevalidateAdoption => CommitAdoptionConflict
    case Observe => StatusUpdate
  }

  /** The number after the last event's, or one. */
  function SequenceAfterLast(events: seq<Event>): nat {
    if events == [] then 1 else events[|events| - 1].sequence + 1
  }

  /** The row after a decision: a new status that ends the execution also sets its finish time. */
  function AppliedRow(row: TaskExecution, d: RecoveryDecision, now: Time): TaskExecution {
    var ends := d.newStatus == Some(ExecutionStatus.Failed) || d.newStatus == Some(Review);
    row.(events := row.events + [Event(SequenceAfterLast(row.events), EventFor(d.action))],
         updatedAt := now,
         status := if d.newStatus.Some? then d.newStatus.value else row.status,
         finishedAt := if ends then Some(now) else row.finishedAt,
         nextRetryAt := if d.nextRetryAt.Some? then d.nextRetryAt else row.nextRetryAt)
  }

  method ApplyRecoveryDecision(s: Session, e: ExecutionId, d: RecoveryDecision, now: Time)
    requires e in s.current.executions
    modifies s
    ensures s.committed == s.current
    ensures s.current == old(s.current).(
              executions := old(s.current.executions)[e := AppliedRow(old(s.current.executions)[e], d, now)])
  {
    var row := s.current.executions[e];
    var sequence := if row.events != [] then row.events[|row.events| - 1].sequence + 1 else 1;
    row := row.(events := row.events + [Event(sequence, EventFor(d.action))]);
    if d.newStatus.Some? {
      row := row.(status := d.newStatus.value);
      if d.newStatus.value == ExecutionStatus.Failed {
        row := row.(finishedAt := Some(now));
      } else if d.newStatus.value == Review {
        row := row.(finishedAt := Some(now));
      }
    }
    if d.nextRetryAt.Some? {
      row := row.(nextRetryAt := d.nextRetryAt);
    }
    row := row.(updatedAt := now);
    Dispatch.StoreExecution(s, e, row);
    s.Commit();
  }

  /** create_recovery_event: the helper that only appends to the log. */
  function RecoveryEventRow(row: TaskExecution, action: RecoveryAction): TaskExecution {
    Dispatch.AppendNext(
      row,
      match action
      case RetryLater => RetryScheduled
      case GiveUp => RetryExhausted
      case _ => StatusUpdate)
  }

  /** An error that is handled and whose decision is applied. */
  function AfterError(row: TaskExecution, kind: ErrorType, phase: RunnerPhase, matrix: RetryMatrix, draw: real,
                      now: Time): TaskExecution
  {
    var retry := CalculateRetry(row, kind, phase, matrix, draw, now);
    AppliedRow(Rescheduled(row.(errorType := Some(ErrorName(kind))), retry), DecisionForError(kind, retry), now)
  }

  /** One stale pick; without a readable phase nothing happens. */
  function AfterStalePick(row: TaskExecution, draw: real, now: Time): TaskExecution {
    match PhaseOf(row.phase)
    case None => row
    case Some(phase) =>
      var retry := RetryForStale(row, phase, draw, now);
      AppliedRow(Rescheduled(row, retry), DecisionForStale(retry), now)
  }

  function PickAll(executions: map<ExecutionId, TaskExecution>, ids: set<ExecutionId>, draws: ExecutionId -> real,
                   now: Time): map<ExecutionId, TaskExecution>
  {
    map e | e in executions ::
      if e in ids then AfterStalePick(executions[e], draws(e), now) else executions[e]
  }

  function Readable(executions: map<ExecutionId, TaskExecution>, ids: set<ExecutionId>): set<ExecutionId> {
    set e | e in ids && e in executions && PhaseOf(executions[e].phase).Some?
  }

  lemma PickNext(executions: map<ExecutionId, TaskExecution>, ids: seq<ExecutionId>, i: nat,
                 draws: ExecutionId -> real, now: Time)
    requires i < |ids| && NoDuplicates(ids) && ids[i] in executions
    ensures PickAll(executions, ToSet(ids[..i]), draws, now)[ids[i]] == executions[ids[i]]
    ensures PickAll(executions, ToSet(ids[..i + 1]), draws, now)
         == PickAll(executions, ToSet(ids[..i]), draws, now)[
              ids[i] := AfterStalePick(executions[ids[i]], draws(ids[i]), now)]
    ensures Readable(executions, ToSet(ids[..i + 1]))
         == Readable(executions, ToSet(ids[..i]))
          + if PhaseOf(executions[ids[i]].phase).Some? then {ids[i]} else {}
    ensures ids[i] !in Readable(executions, ToSet(ids[..i]))
  {
  }

  /** One execution of the sweep: decide, then apply and commit. */
  method PickOne(s: Session, e: ExecutionId, draw: real, now: Time) returns (handled: bool)
    requires e in s.current.executions && s.committed == s.current
    modifies s
    ensures s.committed == s.current
    ensures handled <==> PhaseOf(old(s.current.executions)[e].phase).Some?
    ensures s.current == old(s.current).(
              executions := old(s.current.executions)[e := AfterStalePick(old(s.current.executions)[e], draw, now)])
  {
    var d := HandleStaleExecution(s, e, draw, now);
    handled := d.Some?;
    if d.Some? {
      ApplyRecoveryDecision(s, e, d.value, now);
    }
  }

  /** The sweep handles every selected execution once, one transaction each, and counts those it could handle. */
  method ProcessStaleExecutions(s: Session, th: Thresholds, draws: ExecutionId -> real, now: Time)
    returns (processed: nat)
    requires s.committed == s.current
    modifies s
    ensures s.committed == s.current
    ensures s.current == old(s.current).(
              executions := PickAll(old(s.current.executions), Selected(old(s.current.executions), th, now), draws,
                                    now))
    ensures processed == |Readable(old(s.current.executions), Selected(old(s.current.executions), th, now))|
  {
    ghost var executions := s.current.executions;
    var stale := FindStaleExecutions(s, th, now);
    assert forall i :: 0 <= i < |stale| ==> stale[i] in ToSet(stale);
    processed := 0;
    for i := 0 to |stale|
      invariant s.committed == s.current
      invariant s.current == old(s.current).(executions := PickAll(executions, ToSet(stale[..i]), draws, now))
      invariant processed == |Readable(executions, ToSet(stale[..i]))|
    {
      PickNext(executions, stale, i, draws, now);
      var handled := PickOne(s, stale[i], draws(stale[i]), now);
      if handled {
        processed := processed + 1;
      }
    }
    assert stale[..|stale|] == stale;
  }
}
