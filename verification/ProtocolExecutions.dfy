/** What every run keeps about executions: the index, the status order, the log, the retry budget. */
module ProtocolExecutions {
  import opened Prelude
  import opened Tables
  import opened Protocol
  import opened Dispatch
  import Preparation
  import Claim
  import Retry
  import ExecutionRecovery
  import RecoveryTheorems

  // ----- one active execution per task -----

  /** No step turns a final execution into an active one, or moves an execution to another task. */
  lemma NoStepReactivates(s: State, l: Label, site: Preparation.Config, e: ExecutionId)
    requires e in s.db.executions
    ensures var after := Apply(s, l, site).db.executions;
            && e in after
            && after[e].taskId == s.db.executions[e].taskId
            && (IsFinal(s.db.executions[e].status) ==> IsFinal(after[e].status))
  {
    ExecutionRowAfter(s, l, site, e);
  }

  lemma StepKeepsOneActive(s: State, l: Label, site: Preparation.Config)
    requires OneActivePerTask(s.db.executions)
    ensures OneActivePerTask(Apply(s, l, site).db.executions)
  {
    var before, after := s.db.executions, Apply(s, l, site).db.executions;
    if Enabled(s, l) && l.ClaimWins? {
      Claim.ClaimKeepsIndex(s.db, l.task, l.runner, l.execution, l.now);
    } else {
      forall e | e in after
        ensures e in before && after[e].taskId == before[e].taskId && (IsActive(after[e]) ==> IsActive(before[e]))
      {
        ExecutionRowAfter(s, l, site, e);
        NoStepReactivates(s, l, site, e);
      }
    }
  }

  /** In every reachable state each task has at most one active execution. */
  lemma {:induction false} OneActiveAlways(ls: seq<Label>, site: Preparation.Config)
    ensures OneActivePerTask(Run(INITIAL, ls, site).db.executions)
  {
    if ls != [] {
      OneActiveAlways(ls[..|ls| - 1], site);
      StepKeepsOneActive(Run(INITIAL, ls[..|ls| - 1], site), ls[|ls| - 1], site);
    }
  }

  // ----- the life of one execution -----

  function Rank(status: ExecutionStatus): nat {
    match status
    case Prepared => 0
    case Queued => 1
    case Dispatching => 2
    case InProgress => 3
    case ResultInspection => 4
    case AdoptingCommit => 5
    case Review => 6
    case Done => 6
    case Failed => 6
  }

  function CountKind(events: seq<Event>, kind: EventType): nat {
    if events == [] then 0 else
      CountKind(events[..|events| - 1], kind) + if events[|events| - 1].kind == kind then 1 else 0
  }

  /** Numbered 1..n, with the claim first and a given number of dispatched events. */
  ghost predicate GoodLog(events: seq<Event>, dispatches: nat) {
    && events != [] && Numbered(events) && events[0].kind == ExecutionClaimed
    && CountKind(events, ExecutionDispatched) == dispatches
  }

  /** What holds of every execution row in every reachable state. */
  ghost predicate ExecutionInvariant(row: TaskExecution) {
    && GoodLog(row.events, if row.dispatchedAt.Some? then 1 else 0)
    && RecoveryTheorems.InBudget(row) && row.maxAttempts == Claim.CLAIM_MAX_ATTEMPTS
    && row.startedAt.Some? && row.phase == None
    && (row.finishedAt.Some? <==> IsFinal(row.status))
    && (row.nextRetryAt.Some? <==> row.attempt > 1)
    && !row.status.Prepared? && !row.status.ResultInspection? && !row.status.AdoptingCommit? && !row.status.Done?
    && (row.status.Queued? || row.status.Dispatching? ==> row.dispatchedAt.None?)
    && (row.status == InProgress ==> row.dispatchedAt.Some?)
    && (row.dispatchedAt.Some? <==> row.sessionId.Some?)
    && (row.dispatchedAt.Some? <==> row.messageId.Some?)
  }

  /** Appending the next number to a good log, however that number is found. */
  lemma AppendKeepsLog(events: seq<Event>, dispatches: nat, kind: EventType)
    requires GoodLog(events, dispatches)
    ensures MaxSequence(events) + 1 == |events| + 1 == ExecutionRecovery.SequenceAfterLast(events)
    ensures GoodLog(events + [Event(|events| + 1, kind)], dispatches + if kind == ExecutionDispatched then 1 else 0)
  {
    AllocatorsAgree(events, kind);
    assert (events + [Event(|events| + 1, kind)])[..|events|] == events;
  }

  lemma DispatchKeeps(row: TaskExecution, delivery: Delivery, now: Time)
    requires ExecutionInvariant(row) && row.status == ExecutionStatus.Queued
    ensures ExecutionInvariant(DispatchedRow(row, delivery, now))
    ensures Rank(DispatchedRow(row, delivery, now).status) > Rank(row.status)
  {
    AppendKeepsLog(row.events, 0, if delivery.Sent? then ExecutionDispatched else ErrorEvent);
  }

  lemma AppliedKeeps(row: TaskExecution, d: ExecutionRecovery.RecoveryDecision, now: Time)
    requires ExecutionInvariant(row)
    requires d.newStatus.Some? ==> d.newStatus.value.Failed? || d.newStatus.value.Review?
    requires d.nextRetryAt.Some? ==> row.attempt > 1
    ensures ExecutionInvariant(ExecutionRecovery.AppliedRow(row, d, now))
    ensures Rank(ExecutionRecovery.AppliedRow(row, d, now).status) >= Rank(row.status)
  {
  }

  lemma StalePickKeeps(row: TaskExecution, draw: real, now: Time)
    requires ExecutionInvariant(row)
    ensures ExecutionInvariant(ExecutionRecovery.AfterStalePick(row, draw, now))
    ensures Rank(ExecutionRecovery.AfterStalePick(row, draw, now).status) >= Rank(row.status)
  {
    var retry := ExecutionRecovery.RetryForStale(row, StreamPhase, draw, now);
    AppliedKeeps(ExecutionRecovery.Rescheduled(row, retry), ExecutionRecovery.DecisionForStale(retry), now);
  }

  lemma ErrorKeeps(row: TaskExecution, kind: Retry.ErrorType, phase: RunnerPhase, matrix: Retry.RetryMatrix, draw: real,
                   now: Time)
    requires ExecutionInvariant(row)
    ensures ExecutionInvariant(ExecutionRecovery.AfterError(row, kind, phase, matrix, draw, now))
    ensures Rank(ExecutionRecovery.AfterError(row, kind, phase, matrix, draw, now).status) >= Rank(row.status)
  {
    var retry := Retry.CalculateRetry(row, kind, phase, matrix, draw, now);
    var noted := row.(errorType := Some(ExecutionRecovery.ErrorName(kind)));
    AppliedKeeps(ExecutionRecovery.Rescheduled(noted, retry), ExecutionRecovery.DecisionForError(kind, retry), now);
  }

  lemma RecoveryEventKeeps(row: TaskExecution, action: ExecutionRecovery.RecoveryAction)
    requires ExecutionInvariant(row)
    ensures ExecutionInvariant(ExecutionRecovery.RecoveryEventRow(row, action))
    ensures ExecutionRecovery.RecoveryEventRow(row, action).status == row.status
  {
    var kind := match action case RetryLater => RetryScheduled case GiveUp => RetryExhausted case _ => StatusUpdate;
    AppendKeepsLog(row.events, if row.dispatchedAt.Some? then 1 else 0, kind);
  }

  lemma StepKeepsExecution(s: State, l: Label, site: Preparation.Config, e: ExecutionId)
    requires e in Apply(s, l, site).db.executions
    requires e in s.db.executions ==> ExecutionInvariant(s.db.executions[e])
    ensures var after := Apply(s, l, site).db.executions;
            && ExecutionInvariant(after[e])
            && (e in s.db.executions ==> Rank(after[e].status) >= Rank(s.db.executions[e].status))
            && (Enabled(s, l) && l.DispatchPrompt? && l.execution == e ==>
                  Rank(s.db.executions[e].status) == 1 && Rank(after[e].status) > 1)
            && (e !in s.db.executions ==> Rank(after[e].status) == 1)
  {
    ExecutionRowAfter(s, l, site, e);
    if e !in s.db.executions {
      NewExecutionIsGood(l.task, l.runner, l.now);
    } else if Enabled(s, l) && TouchesExecution(l, e) {
      var row := s.db.executions[e];
      match l {
        case DispatchPrompt(_, delivery, now) => DispatchKeeps(row, delivery, now);
        case StalePick(_, draw, now) => StalePickKeeps(row, draw, now);
        case HandleError(_, kind, phase, matrix, draw, now) => ErrorKeeps(row, kind, phase, matrix, draw, now);
        case LogRecovery(_, action) => RecoveryEventKeeps(row, action);
        case _ =>
      }
    }
  }

  lemma NewExecutionIsGood(t: TaskId, runner: string, now: Time)
    ensures ExecutionInvariant(Claim.NewExecution(t, runner, now))
  {
  }

  /** In every reachable state every execution is well-formed; its log is exactly 1..n. */
  lemma {:induction false} ExecutionsStayGood(ls: seq<Label>, site: Preparation.Config, e: ExecutionId)
    requires e in Run(INITIAL, ls, site).db.executions
    ensures ExecutionInvariant(Run(INITIAL, ls, site).db.executions[e])
  {
    if ls != [] {
      var before := Run(INITIAL, ls[..|ls| - 1], site);
      if e in before.db.executions {
        ExecutionsStayGood(ls[..|ls| - 1], site, e);
      }
      StepKeepsExecution(before, ls[|ls| - 1], site, e);
    }
  }

  /** IN_PROGRESS means delivered: stored session and message ids and exactly one dispatched event. */
  lemma InProgressMeansDelivered(ls: seq<Label>, site: Preparation.Config, e: ExecutionId)
    requires e in Run(INITIAL, ls, site).db.executions
    requires Run(INITIAL, ls, site).db.executions[e].status == InProgress
    ensures var row := Run(INITIAL, ls, site).db.executions[e];
            && row.sessionId.Some? && row.messageId.Some? && row.dispatchedAt.Some?
            && CountKind(row.events, ExecutionDispatched) == 1
  {
    ExecutionsStayGood(ls, site, e);
  }

  lemma {:induction false} RankOnlyRises(ls: seq<Label>, more: seq<Label>, site: Preparation.Config, e: ExecutionId)
    requires e in Run(INITIAL, ls, site).db.executions
    ensures e in Run(INITIAL, ls + more, site).db.executions
    ensures Rank(Run(INITIAL, ls, site).db.executions[e].status)
         <= Rank(Run(INITIAL, ls + more, site).db.executions[e].status)
  {
    if more == [] {
      assert ls + more == ls;
    } else {
      var n := |more| - 1;
      var prefix := ls + more[..n];
      RankOnlyRises(ls, more[..n], site, e);
      ExecutionsStayGood(prefix, site, e);
      assert (ls + more)[..|ls + more| - 1] == prefix && (ls + more)[|ls + more| - 1] == more[n];
      var before := Run(INITIAL, prefix, site);
      ExecutionRowAfter(before, more[n], site, e);
      StepKeepsExecution(before, more[n], site, e);
    }
  }

  /** Between any two points of a run a status never goes back: not out of the final ones, and not to QUEUED. */
  lemma StatusOnlyAdvances(ls: seq<Label>, more: seq<Label>, site: Preparation.Config, e: ExecutionId)
    requires e in Run(INITIAL, ls, site).db.executions
    ensures e in Run(INITIAL, ls + more, site).db.executions
    ensures var early, late := Run(INITIAL, ls, site).db.executions[e].status,
                               Run(INITIAL, ls + more, site).db.executions[e].status;
            && Rank(early) <= Rank(late)
            && (IsFinal(early) ==> IsFinal(late))
            && (early != ExecutionStatus.Queued ==> late != ExecutionStatus.Queued)
  {
    RankOnlyRises(ls, more, site, e);
    assert Rank(Run(INITIAL, ls, site).db.executions[e].status) >= 1 by { ExecutionsStayGood(ls, site, e); }
  }

  ghost function DispatchCount(ls: seq<Label>, site: Preparation.Config, e: ExecutionId): nat {
    if ls == [] then 0 else
      var n := |ls| - 1;
      DispatchCount(ls[..n], site, e)
      + if Enabled(Run(INITIAL, ls[..n], site), ls[n]) && ls[n].DispatchPrompt? && ls[n].execution == e then 1 else 0
  }

  /** Each execution is dispatched at most once, and while it is queued not at all. */
  lemma {:induction false} DispatchedAtMostOnce(ls: seq<Label>, site: Preparation.Config, e: ExecutionId)
    ensures DispatchCount(ls, site, e) <= 1
    ensures e !in Run(INITIAL, ls, site).db.executions ==> DispatchCount(ls, site, e) == 0
    ensures e in Run(INITIAL, ls, site).db.executions
            && Run(INITIAL, ls, site).db.executions[e].status == ExecutionStatus.Queued ==>
              DispatchCount(ls, site, e) == 0
  {
    if ls != [] {
      var n := |ls| - 1;
      var before := Run(INITIAL, ls[..n], site);
      DispatchedAtMostOnce(ls[..n], site, e);
      if e in before.db.executions {
        ExecutionsStayGood(ls[..n], site, e);
      }
      if e in Run(INITIAL, ls, site).db.executions {
        StepKeepsExecution(before, ls[n], site, e);
      }
      ExecutionRowAfter(before, ls[n], site, e);
    }
  }

  // ----- budget in every run -----

  ghost predicate SchedulesRetry(s: State, l: Label, e: ExecutionId) {
    Enabled(s, l) &&
    match l
    case StalePick(f, draw, now) =>
      f == e && RecoveryTheorems.Retries(s.db.executions[e], RecoveryTheorems.AStalePick(draw, now))
    case HandleError(f, kind, phase, matrix, draw, now) =>
      f == e && RecoveryTheorems.Retries(s.db.executions[e], RecoveryTheorems.AnError(kind, phase, matrix, draw, now))
    case _ => false
  }

  ghost function RetriesScheduled(ls: seq<Label>, site: Preparation.Config, e: ExecutionId): nat {
    if ls == [] then 0 else
      var n := |ls| - 1;
      RetriesScheduled(ls[..n], site, e) + if SchedulesRetry(Run(INITIAL, ls[..n], site), ls[n], e) then 1 else 0
  }

  lemma RetryStep(s: State, l: Label, site: Preparation.Config, e: ExecutionId)
    requires e in s.db.executions && ExecutionInvariant(s.db.executions[e])
    ensures e in Apply(s, l, site).db.executions
    ensures Apply(s, l, site).db.executions[e].attempt
         == s.db.executions[e].attempt + if SchedulesRetry(s, l, e) then 1 else 0
  {
    ExecutionRowAfter(s, l, site, e);
    var row := s.db.executions[e];
    if Enabled(s, l) && TouchesExecution(l, e) {
      match l {
        case StalePick(_, draw, now) => RecoveryTheorems.MishapEffect(row, RecoveryTheorems.AStalePick(draw, now));
        case HandleError(_, kind, phase, matrix, draw, now) =>
          RecoveryTheorems.MishapEffect(row, RecoveryTheorems.AnError(kind, phase, matrix, draw, now));
        case _ =>
      }
    }
  }

  /** In no run is an execution scheduled for retry more than twice. */
  lemma {:induction false} AtMostTwoRetries(ls: seq<Label>, site: Preparation.Config, e: ExecutionId)
    ensures e !in Run(INITIAL, ls, site).db.executions ==> RetriesScheduled(ls, site, e) == 0
    ensures e in Run(INITIAL, ls, site).db.executions ==>
              Run(INITIAL, ls, site).db.executions[e].attempt == 1 + RetriesScheduled(ls, site, e)
    ensures RetriesScheduled(ls, site, e) <= 2
  {
    if ls != [] {
      var n := |ls| - 1;
      var before := Run(INITIAL, ls[..n], site);
      AtMostTwoRetries(ls[..n], site, e);
      ExecutionRowAfter(before, ls[n], site, e);
      if e in before.db.executions {
        ExecutionsStayGood(ls[..n], site, e);
        RetryStep(before, ls[n], site, e);
      }
      if e in Run(INITIAL, ls, site).db.executions {
        ExecutionsStayGood(ls, site, e);
      }
    }
  }
}
