/** execqueue/runner/error_classification.py: which executions count as stale. */
module Stale {
  import opened Prelude
  import opened Tables

  datatype Thresholds = Thresholds(
    heartbeatTimeout: Time,
    updateTimeout: Time,
    maxDuration: Time,
    phaseTimeouts: map<RunnerPhase, Time>)

  const DEFAULT_THRESHOLDS: Thresholds := Thresholds(300.0, 600.0, 3600.0, map[])

  /** RunnerPhase(execution.phase), or STREAM without a phase. Any other text raises: "adopting_commit", for one,
      is the name of a status and not of a phase. */
  function PhaseOf(column: Option<string>): Option<RunnerPhase> {
    if column.None? || column.value == "" then Some(StreamPhase)
    else match column.value
      case "claim" => Some(ClaimPhase)
      case "session" => Some(SessionPhase)
      case "dispatch" => Some(DispatchPhase)
      case "stream" => Some(StreamPhase)
      case "result" => Some(ResultPhase)
      case "adoption" => Some(AdoptionPhase)
      case _ => None
  }

  function PhaseTimeout(th: Thresholds, phase: RunnerPhase, default: Time): Time {
    if phase in th.phaseTimeouts then th.phaseTimeouts[phase] else default
  }

  /** is_execution_stale; None when the phase text makes it raise. */
  function IsExecutionStale(row: TaskExecution, th: Thresholds, now: Time): Option<bool> {
    if row.startedAt.None? then Some(now - row.createdAt > th.updateTimeout)
    else
      match PhaseOf(row.phase)
      case None =>
        if row.heartbeatAt.Some? then None
        else if now - row.updatedAt > th.updateTimeout then Some(true)
        else None
      case Some(phase) =>
        if row.heartbeatAt.Some?
           && now - row.heartbeatAt.value > PhaseTimeout(th, phase, th.heartbeatTimeout) then Some(true)
        else if now - row.updatedAt > th.updateTimeout then Some(true)
        else Some(now - row.startedAt.value > PhaseTimeout(th, phase, th.maxDuration))
  }

  predicate IsSweepStatus(status: ExecutionStatus) {
    status in {ExecutionStatus.Queued, Dispatching, InProgress, ResultInspection, AdoptingCommit}
  }

  datatype Condition = HeartbeatBefore(cutoff: Time) | UpdatedBefore(cutoff: Time) | StartedBefore(cutoff: Time)

  predicate Holds(c: Condition, row: TaskExecution) {
    && IsSweepStatus(row.status)
    && match c
       case HeartbeatBefore(cutoff) => row.heartbeatAt.Some? && row.heartbeatAt.value <= cutoff
       case UpdatedBefore(cutoff) => row.updatedAt <= cutoff
       case StartedBefore(cutoff) => row.startedAt.Some? && row.startedAt.value <= cutoff
  }

  /** The row that the stale query returns, by ages. */
  predicate IsSelected(row: TaskExecution, th: Thresholds, now: Time) {
    && IsSweepStatus(row.status)
    && (|| (row.heartbeatAt.Some? && now - row.heartbeatAt.value >= th.heartbeatTimeout)
        || now - row.updatedAt >= th.updateTimeout
        || (row.startedAt.Some? && now - row.startedAt.value >= th.maxDuration))
  }

  function Selected(executions: map<ExecutionId, TaskExecution>, th: Thresholds, now: Time): set<ExecutionId> {
    set e | e in executions && IsSelected(executions[e], th, now)
  }

  /** find_stale_executions: a list of conditions built step by step, then one disjunctive query. */
  method FindStaleExecutions(s: Session, th: Thresholds, now: Time) returns (ids: seq<ExecutionId>)
    ensures NoDuplicates(ids) && ToSet(ids) == Selected(s.current.executions, th, now)
  {
    var conditions: seq<Condition> := [];
    conditions := conditions + [HeartbeatBefore(now - th.heartbeatTimeout)];
    conditions := conditions + [UpdatedBefore(now - th.updateTimeout)];
    conditions := conditions + [StartedBefore(now - th.maxDuration)];
    var executions := s.current.executions;
    var hits := set e | e in executions && exists i :: 0 <= i < |conditions| && Holds(conditions[i], executions[e]);
    forall e | e in executions ensures e in hits <==> IsSelected(executions[e], th, now) {
      var row := executions[e];
      assert Holds(conditions[0], row) || Holds(conditions[1], row) || Holds(conditions[2], row)
        <==> IsSelected(row, th, now);
    }
    assert hits == Selected(executions, th, now);
    ids := SomeOrder(hits);
  }

  // ----- the predicate against the query -----

  /** One of the ages that both look at is exactly at its limit. */
  predicate SomeAgeAtLimit(row: TaskExecution, th: Thresholds, now: Time) {
    || (row.heartbeatAt.Some? && now - row.heartbeatAt.value == th.heartbeatTimeout)
    || now - row.updatedAt == th.updateTimeout
    || (row.startedAt.Some? && now - row.startedAt.value == th.maxDuration)
  }

  /** Without phase overrides, what the predicate calls stale the query selects; only ages at a limit differ. */
  lemma PredicateVersusQuery(row: TaskExecution, th: Thresholds, now: Time)
    requires row.startedAt.Some? && IsSweepStatus(row.status) && PhaseOf(row.phase).Some? && th.phaseTimeouts == map[]
    ensures IsSelected(row, th, now)
            <==> IsExecutionStale(row, th, now) == Some(true) || SomeAgeAtLimit(row, th, now)
  {
  }

  /** Every override is at least as long as both limits that it replaces. */
  predicate OverridesAreSafe(th: Thresholds) {
    forall p :: p in th.phaseTimeouts ==>
      th.phaseTimeouts[p] >= th.heartbeatTimeout && th.phaseTimeouts[p] >= th.maxDuration
  }

  /** What the predicate calls stale the query selects. */
  ghost predicate QueryKeepsUp(row: TaskExecution, th: Thresholds, now: Time) {
    IsExecutionStale(row, th, now) == Some(true) ==> IsSelected(row, th, now)
  }

  /** A started row that a sweep may look at, with no time in the future. */
  ghost predicate IsRunning(row: TaskExecution, now: Time) {
    && IsSweepStatus(row.status)
    && row.startedAt.Some? && row.startedAt.value <= now
    && row.updatedAt <= now
    && (row.heartbeatAt.Some? ==> row.heartbeatAt.value <= now)
  }

  function PhaseName(p: RunnerPhase): string {
    match p
    case ClaimPhase => "claim"
    case SessionPhase => "session"
    case DispatchPhase => "dispatch"
    case StreamPhase => "stream"
    case ResultPhase => "result"
    case AdoptionPhase => "adoption"
  }

  /** An execution in progress, last written now. */
  function RunningRow(p: RunnerPhase, started: Time, beat: Option<Time>, now: Time): TaskExecution {
    TaskExecution(
      0, "", ExecutionStatus.InProgress, started, now, Some(started), None, None, beat, 1, 3, None, Some(PhaseName(p)),
      None, None, None, [])
  }

  /** A row in this phase that the predicate calls stale and the query does not see. */
  lemma MissedRow(th: Thresholds, now: Time, p: RunnerPhase) returns (missed: TaskExecution)
    requires th.heartbeatTimeout > 0.0 && th.updateTimeout > 0.0 && th.maxDuration > 0.0
    requires p in th.phaseTimeouts
    requires th.phaseTimeouts[p] < th.heartbeatTimeout || th.phaseTimeouts[p] < th.maxDuration
    ensures IsRunning(missed, now) && !QueryKeepsUp(missed, th, now)
  {
    var beats := th.phaseTimeouts[p] < th.heartbeatTimeout;
    var limit := if beats then th.heartbeatTimeout else th.maxDuration;
    var lower := if th.phaseTimeouts[p] < 0.0 then 0.0 else th.phaseTimeouts[p];
    var age := (lower + limit) / 2.0;
    missed := if beats then RunningRow(p, now, Some(now - age), now) else RunningRow(p, now - age, None, now);
    assert PhaseOf(missed.phase) == Some(p);
  }

  /** The query sees every stale started row, at any time, exactly when all overrides are safe. */
  lemma QueryKeepsUpIff(th: Thresholds)
    ensures OverridesAreSafe(th) ==>
              forall row: TaskExecution, now: Time :: IsSweepStatus(row.status) && row.startedAt.Some? ==>
                QueryKeepsUp(row, th, now)
    ensures th.heartbeatTimeout > 0.0 && th.updateTimeout > 0.0 && th.maxDuration > 0.0 ==>
              ((forall row: TaskExecution, now: Time :: IsRunning(row, now) ==> QueryKeepsUp(row, th, now))
               <==> OverridesAreSafe(th))
  {
    if th.heartbeatTimeout > 0.0 && th.updateTimeout > 0.0 && th.maxDuration > 0.0 && !OverridesAreSafe(th) {
      var p :| p in th.phaseTimeouts
               && (th.phaseTimeouts[p] < th.heartbeatTimeout || th.phaseTimeouts[p] < th.maxDuration);
      var missed := MissedRow(th, 0.0, p);
    }
  }

  /** A row that was never started is selected in time exactly when it was not written after its creation, or its
      heartbeat runs out before the limit for starting. */
  lemma UnstartedRows(row: TaskExecution, th: Thresholds)
    requires IsSweepStatus(row.status) && row.startedAt.None?
    ensures (forall now: Time :: QueryKeepsUp(row, th, now))
            <==> row.updatedAt <= row.createdAt
                 || (row.heartbeatAt.Some?
                     && row.heartbeatAt.value + th.heartbeatTimeout <= row.createdAt + th.updateTimeout)
  {
    var limit := row.createdAt + th.updateTimeout;
    var written := row.updatedAt + th.updateTimeout;
    var next := if row.heartbeatAt.Some? && row.heartbeatAt.value + th.heartbeatTimeout < written
                then row.heartbeatAt.value + th.heartbeatTimeout else written;
    if limit < next {
      assert !QueryKeepsUp(row, th, (limit + next) / 2.0);
    }
  }

  /** A row that nobody writes to stays stale, for the predicate and for the query. */
  lemma StalenessPersists(row: TaskExecution, th: Thresholds, now: Time, later: Time)
    requires now <= later
    ensures IsExecutionStale(row, th, now) == Some(true) ==> IsExecutionStale(row, th, later) == Some(true)
    ensures IsSelected(row, th, now) ==> IsSelected(row, th, later)
  {
  }

  /** Heartbeats and updates postpone selection only until the maximal duration has passed since the start. */
  lemma NoEndlessExecution(row: TaskExecution, th: Thresholds, now: Time)
    requires IsSweepStatus(row.status) && row.startedAt.Some? && now >= row.startedAt.value + th.maxDuration
    ensures forall beat: Option<Time>, touched: Time ::
              IsSelected(row.(heartbeatAt := beat, updatedAt := touched), th, now)
  {
  }

  /** The predicate on a row's own fields: an override of the row's phase replaces the heartbeat limit and the maximal
      duration, but not the update limit. */
  lemma StaleByFields(row: TaskExecution, th: Thresholds, now: Time)
    requires row.startedAt.Some? && PhaseOf(row.phase).Some?
    ensures var p := PhaseOf(row.phase).value;
            var beat := if p in th.phaseTimeouts then th.phaseTimeouts[p] else th.heartbeatTimeout;
            var whole := if p in th.phaseTimeouts then th.phaseTimeouts[p] else th.maxDuration;
            IsExecutionStale(row, th, now)
            == Some((row.heartbeatAt.Some? && now - row.heartbeatAt.value > beat)
                    || now - row.updatedAt > th.updateTimeout
                    || now - row.startedAt.value > whole)
  {
  }
}
