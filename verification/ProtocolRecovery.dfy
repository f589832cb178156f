/** Recovery in every run: no active execution escapes the stale query, and every retry waits for its backoff. */
module ProtocolRecovery {
  import opened Prelude
  import opened Tables
  import opened Protocol
  import opened ProtocolTasks
  import opened ProtocolExecutions
  import opened RecoverySchedules
  import Preparation
  import Stale
  import Retry
  import Backoff
  import ExecutionRecovery

  /** In every reachable state, whatever thresholds and time, each execution that is not done, failed or in review is
      returned by the stale query once it has gone without an update, or has lasted, for too long. */
  lemma NoActiveExecutionEscapes(ls: seq<Label>, site: Preparation.Config, e: ExecutionId, th: Stale.Thresholds,
                                 now: Time)
    requires e in Run(INITIAL, ls, site).db.executions
    ensures var row := Run(INITIAL, ls, site).db.executions[e];
            && row.startedAt.Some?
            && (!row.status.Done? && !row.status.Failed? && !row.status.Review?
                && (now >= row.updatedAt + th.updateTimeout || now >= row.startedAt.value + th.maxDuration)
                ==> Stale.IsSelected(row, th, now))
            && (row.status.Done? || row.status.Failed? || row.status.Review? ==> !Stale.IsSelected(row, th, now))
  {
    ExecutionsStayGood(ls, site, e);
    var row := Run(INITIAL, ls, site).db.executions[e];
    assert row.startedAt == Some(row.startedAt.value);
    SelectedIff(row, th, now);
  }

  /** Step k of a run schedules a retry of this execution, under policies of the default shape. */
  ghost predicate RetriesAtStep(ls: seq<Label>, site: Preparation.Config, e: ExecutionId, k: nat)
    requires k < |ls|
  {
    && e in StateAt(INITIAL, ls, k, site).db.executions
    && SchedulesRetry(StateAt(INITIAL, ls, k, site), ls[k], e)
    && match ls[k]
       case StalePick(_, draw, _) => Backoff.IsDraw(draw)
       case HandleError(_, _, phase, matrix, draw, _) =>
         Backoff.IsDraw(draw) && Backoff.IsDoubling(Retry.GetPolicy(matrix, phase))
       case _ => true
  }

  function PolicyOfStep(l: Label): Retry.PhasePolicy {
    match l
    case HandleError(_, _, phase, matrix, _, _) => Retry.GetPolicy(matrix, phase)
    case _ => Retry.GetPolicy(Retry.DEFAULT_MATRIX, StreamPhase)
  }

  function StepTime(l: Label): Time {
    match l
    case HandleError(_, _, _, _, _, now) => now
    case StalePick(_, _, now) => now
    case _ => 0.0
  }

  /** In every run, a step that schedules a retry counts the attempt and stores a time that lies the backoff of that
      attempt ahead, to within a tenth. */
  lemma RetriesWait(ls: seq<Label>, site: Preparation.Config, e: ExecutionId, k: nat)
    requires k < |ls| && RetriesAtStep(ls, site, e, k)
    ensures e in StateAt(INITIAL, ls, k + 1, site).db.executions
    ensures var row, after := StateAt(INITIAL, ls, k, site).db.executions[e],
                              StateAt(INITIAL, ls, k + 1, site).db.executions[e];
            && row.attempt >= 1
            && RetriedRow(after, row, PolicyOfStep(ls[k]).baseDelay, PolicyOfStep(ls[k]).maxDelay, StepTime(ls[k]))
  {
    var s := StateAt(INITIAL, ls, k, site);
    var row := s.db.executions[e];
    ExecutionsStayGood(ls[..k], site, e);
    NextState(INITIAL, ls, k, site);
    ExecutionRowAfter(s, ls[k], site, e);
    match ls[k]
    case StalePick(_, draw, now) =>
      StalePickByFields(row, draw, now);
      DefaultNumbers(StreamPhase);
    case HandleError(_, kind, phase, matrix, draw, now) => ErrorByFields(row, kind, phase, matrix, draw, now);
    case _ =>
  }
}
