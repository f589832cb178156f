/** Dispatch with its read and its write apart: two dispatchers may both read QUEUED before either writes. */
module ProtocolDispatch {
  import opened Prelude
  import opened Tables
  import opened Protocol
  import opened Dispatch
  import Preparation
  import ProtocolExecutions
  import Claim
  import Retry
  import ExecutionRecovery
  import RecoveryTheorems

  /** The state of the protocol, and who has read which execution as QUEUED without having written yet. */
  datatype RaceState = RaceState(state: State, readers: set<(string, ExecutionId)>)

  datatype RaceLabel =
    | Base(step: Label)
    | ReadQueued(dispatcher: string, execution: ExecutionId)
    | WriteBack(dispatcher: string, execution: ExecutionId, delivery: Delivery, now: Time)

  /** The write looks at the row no more; only the index on active executions can refuse it. */
  function Written(s: State, e: ExecutionId, delivery: Delivery, now: Time): State
    requires e in s.db.executions
  {
    WithExecution(s, e, DispatchedRow(s.db.executions[e], delivery, now))
  }

  ghost predicate Possible(r: RaceState, l: RaceLabel) {
    match l
    case Base(step) => Enabled(r.state, step) && !step.DispatchPrompt?
    case ReadQueued(_, e) =>
      e in r.state.db.executions && r.state.db.executions[e].status == ExecutionStatus.Queued
    case WriteBack(d, e, delivery, now) =>
      && (d, e) in r.readers && e in r.state.db.executions
      && OneActivePerTask(Written(r.state, e, delivery, now).db.executions)
  }

  ghost function After(r: RaceState, l: RaceLabel, site: Preparation.Config): RaceState {
    if !Possible(r, l) then r else
      match l
      case Base(step) => r.(state := Apply(r.state, step, site))
      case ReadQueued(d, e) => r.(readers := r.readers + {(d, e)})
      case WriteBack(d, e, delivery, now) =>
        RaceState(Written(r.state, e, delivery, now), r.readers - {(d, e)})
  }

  ghost function Race(r: RaceState, ls: seq<RaceLabel>, site: Preparation.Config): RaceState {
    if ls == [] then r else After(Race(r, ls[..|ls| - 1], site), ls[|ls| - 1], site)
  }

  ghost predicate Dispatches(r: RaceState, l: RaceLabel, e: ExecutionId) {
    Possible(r, l) && l.WriteBack? && l.execution == e
  }

  ghost function DispatchCount(r: RaceState, ls: seq<RaceLabel>, site: Preparation.Config, e: ExecutionId): nat {
    if ls == [] then 0 else
      var n := |ls| - 1;
      DispatchCount(r, ls[..n], site, e) + if Dispatches(Race(r, ls[..n], site), ls[n], e) then 1 else 0
  }

  // ----- what still holds -----

  /** The index holds in every race. */
  lemma {:induction false} OneActiveInEveryRace(r: RaceState, ls: seq<RaceLabel>, site: Preparation.Config)
    requires OneActivePerTask(r.state.db.executions)
    ensures OneActivePerTask(Race(r, ls, site).state.db.executions)
  {
    if ls != [] {
      var n := |ls| - 1;
      OneActiveInEveryRace(r, ls[..n], site);
      if ls[n].Base? {
        ProtocolExecutions.StepKeepsOneActive(Race(r, ls[..n], site).state, ls[n].step, site);
      }
    }
  }

  /** Every write finds its row still QUEUED. */
  ghost predicate Serial(r: RaceState, ls: seq<RaceLabel>, site: Preparation.Config) {
    ls != [] ==>
      var n := |ls| - 1;
      var before := Race(r, ls[..n], site);
      && Serial(r, ls[..n], site)
      && (Possible(before, ls[n]) && ls[n].WriteBack? ==>
            before.state.db.executions[ls[n].execution].status == ExecutionStatus.Queued)
  }

  ghost function AtomicStep(r: RaceState, l: RaceLabel): seq<Label> {
    if !Possible(r, l) then [] else
      match l
      case Base(step) => [step]
      case ReadQueued(_, _) => []
      case WriteBack(_, e, delivery, now) => [DispatchPrompt(e, delivery, now)]
  }

  ghost function Atomic(r: RaceState, ls: seq<RaceLabel>, site: Preparation.Config): seq<Label> {
    if ls == [] then [] else
      var n := |ls| - 1;
      Atomic(r, ls[..n], site) + AtomicStep(Race(r, ls[..n], site), ls[n])
  }

  lemma AtomicStepAgrees(r: RaceState, l: RaceLabel, site: Preparation.Config)
    requires Possible(r, l) && l.WriteBack? ==> r.state.db.executions[l.execution].status == ExecutionStatus.Queued
    ensures Run(r.state, AtomicStep(r, l), site) == After(r, l, site).state
  {
    if AtomicStep(r, l) != [] {
      var step := AtomicStep(r, l)[0];
      assert AtomicStep(r, l) == [step] && [step][..0] == [];
      assert Run(r.state, [step], site) == Apply(r.state, step, site);
    }
  }

  /** A race in which every write finds its row still QUEUED is a run with atomic dispatch, so everything that is
      proved of runs holds of it. */
  lemma {:induction false} SerialRacesAreRuns(r: RaceState, ls: seq<RaceLabel>, site: Preparation.Config)
    requires Serial(r, ls, site)
    ensures Run(r.state, Atomic(r, ls, site), site) == Race(r, ls, site).state
  {
    if ls != [] {
      var n := |ls| - 1;
      var before := Race(r, ls[..n], site);
      SerialRacesAreRuns(r, ls[..n], site);
      AtomicStepAgrees(before, ls[n], site);
      RunConcat(r.state, Atomic(r, ls[..n], site), AtomicStep(before, ls[n]), site);
    }
  }

  // ----- what every race keeps about an execution -----

  /** With the read and the write apart: a log numbered 1..n that starts with the claim, a finish time on every final
      row, both ids exactly after a delivery, and a delivery before IN_PROGRESS. */
  ghost predicate RaceInvariant(row: TaskExecution) {
    && ProtocolExecutions.GoodLog(row.events, ProtocolExecutions.CountKind(row.events, ExecutionDispatched))
    && RecoveryTheorems.InBudget(row) && row.maxAttempts == Claim.CLAIM_MAX_ATTEMPTS && row.phase == None
    && (IsFinal(row.status) ==> row.finishedAt.Some?)
    && (row.dispatchedAt.Some? <==> ProtocolExecutions.CountKind(row.events, ExecutionDispatched) >= 1)
    && (row.dispatchedAt.Some? <==> row.sessionId.Some?)
    && (row.dispatchedAt.Some? <==> row.messageId.Some?)
    && (row.status == InProgress ==> row.dispatchedAt.Some?)
  }

  lemma WriteKeepsRow(row: TaskExecution, x: Delivery, now: Time)
    requires RaceInvariant(row)
    ensures RaceInvariant(DispatchedRow(row, x, now))
  {
    ProtocolExecutions.AppendKeepsLog(
      row.events, ProtocolExecutions.CountKind(row.events, ExecutionDispatched),
      if x.Sent? then ExecutionDispatched else ErrorEvent);
  }

  lemma AppliedKeepsRow(row: TaskExecution, d: ExecutionRecovery.RecoveryDecision, now: Time)
    requires RaceInvariant(row) && (d.newStatus.Some? ==> d.newStatus.value.Failed? || d.newStatus.value.Review?)
    ensures RaceInvariant(ExecutionRecovery.AppliedRow(row, d, now))
  {
    var kind := ExecutionRecovery.EventFor(d.action);
    ProtocolExecutions.AppendKeepsLog(
      row.events, ProtocolExecutions.CountKind(row.events, ExecutionDispatched), kind);
    assert ExecutionRecovery.AppliedRow(row, d, now).events == row.events + [Event(|row.events| + 1, kind)];
  }

  lemma StalePickKeepsRow(row: TaskExecution, draw: real, now: Time)
    requires RaceInvariant(row)
    ensures RaceInvariant(ExecutionRecovery.AfterStalePick(row, draw, now))
  {
    var retry := ExecutionRecovery.RetryForStale(row, StreamPhase, draw, now);
    AppliedKeepsRow(ExecutionRecovery.Rescheduled(row, retry), ExecutionRecovery.DecisionForStale(retry), now);
  }

  lemma ErrorKeepsRow(row: TaskExecution, kind: Retry.ErrorType, phase: RunnerPhase, matrix: Retry.RetryMatrix,
                      draw: real, now: Time)
    requires RaceInvariant(row)
    ensures RaceInvariant(ExecutionRecovery.AfterError(row, kind, phase, matrix, draw, now))
  {
    var retry := Retry.CalculateRetry(row, kind, phase, matrix, draw, now);
    var noted := row.(errorType := Some(ExecutionRecovery.ErrorName(kind)));
    AppliedKeepsRow(ExecutionRecovery.Rescheduled(noted, retry), ExecutionRecovery.DecisionForError(kind, retry), now);
  }

  lemma RecoveryEventKeepsRow(row: TaskExecution, action: ExecutionRecovery.RecoveryAction)
    requires RaceInvariant(row)
    ensures RaceInvariant(ExecutionRecovery.RecoveryEventRow(row, action))
  {
    var kind := match action case RetryLater => RetryScheduled case GiveUp => RetryExhausted case _ => StatusUpdate;
    ProtocolExecutions.AppendKeepsLog(
      row.events, ProtocolExecutions.CountKind(row.events, ExecutionDispatched), kind);
  }

  lemma OtherKeepsRow(s: State, l: Label, site: Preparation.Config, e: ExecutionId)
    requires !l.DispatchPrompt? && e in Apply(s, l, site).db.executions
    requires e in s.db.executions ==> RaceInvariant(s.db.executions[e])
    ensures RaceInvariant(Apply(s, l, site).db.executions[e])
  {
    ExecutionRowAfter(s, l, site, e);
    if e !in s.db.executions {
      ProtocolExecutions.NewExecutionIsGood(l.task, l.runner, l.now);
    } else if Enabled(s, l) && TouchesExecution(l, e) {
      var row := s.db.executions[e];
      match l {
        case StalePick(_, draw, now) => StalePickKeepsRow(row, draw, now);
        case HandleError(_, kind, phase, matrix, draw, now) => ErrorKeepsRow(row, kind, phase, matrix, draw, now);
        case LogRecovery(_, action) => RecoveryEventKeepsRow(row, action);
        case _ =>
      }
    }
  }

  const START: RaceState := RaceState(INITIAL, {})

  /** In every race each execution keeps its log in order, and IN_PROGRESS still means delivered at least once. */
  lemma {:induction false} EveryRaceKeepsRows(ls: seq<RaceLabel>, site: Preparation.Config, e: ExecutionId)
    requires e in Race(START, ls, site).state.db.executions
    ensures RaceInvariant(Race(START, ls, site).state.db.executions[e])
  {
    if ls != [] {
      var n := |ls| - 1;
      var before := Race(START, ls[..n], site);
      if e in before.state.db.executions { EveryRaceKeepsRows(ls[..n], site, e); }
      if Possible(before, ls[n]) {
        match ls[n] {
          case Base(step) => OtherKeepsRow(before.state, step, site, e);
          case ReadQueued(_, _) =>
          case WriteBack(_, f, x, now) =>
            if e == f { WriteKeepsRow(before.state.db.executions[e], x, now); }
        }
      }
    }
  }

  // ----- what a pending write can still do -----

  ghost predicate NoReader(r: RaceState, e: ExecutionId) {
    forall d :: (d, e) !in r.readers
  }

  ghost predicate Settled(r: RaceState, e: ExecutionId) {
    e in r.state.db.executions && r.state.db.executions[e].status != ExecutionStatus.Queued && NoReader(r, e)
  }

  function RankOf(r: RaceState, e: ExecutionId): nat
    requires e in r.state.db.executions
  {
    ProtocolExecutions.Rank(r.state.db.executions[e].status)
  }

  /** A write moves a row back exactly when the row is final, under inspection or adoption, or in progress and the
      delivery is refused. */
  lemma WriteMovesBackIff(row: TaskExecution, x: Delivery, now: Time)
    ensures ProtocolExecutions.Rank(DispatchedRow(row, x, now).status) < ProtocolExecutions.Rank(row.status)
            <==> ProtocolExecutions.Rank(row.status) > 3 || (row.status == InProgress && x.Refused?)
  {
  }

  lemma OtherKeepsRank(s: State, l: Label, site: Preparation.Config, e: ExecutionId)
    requires e in s.db.executions && !l.DispatchPrompt?
    ensures e in Apply(s, l, site).db.executions
    ensures var before, after := s.db.executions[e].status, Apply(s, l, site).db.executions[e].status;
            after == before || after == ExecutionStatus.Failed || after == Review
  {
    ExecutionRowAfter(s, l, site, e);
  }

  lemma {:induction false} SettledForever(r: RaceState, ls: seq<RaceLabel>, site: Preparation.Config, e: ExecutionId)
    requires Settled(r, e)
    ensures Settled(Race(r, ls, site), e) && DispatchCount(r, ls, site, e) == 0
    ensures RankOf(Race(r, ls, site), e) >= RankOf(r, e)
  {
    if ls != [] {
      var n := |ls| - 1;
      var before := Race(r, ls[..n], site);
      SettledForever(r, ls[..n], site, e);
      if ls[n].Base? && !ls[n].step.DispatchPrompt? { OtherKeepsRank(before.state, ls[n].step, site, e); }
    }
  }

  /** Whatever is pending, no row ever moves back behind DISPATCHING. */
  lemma {:induction false} NeverBehindDispatching(r: RaceState, ls: seq<RaceLabel>, site: Preparation.Config,
                                                  e: ExecutionId)
    requires e in r.state.db.executions
    ensures e in Race(r, ls, site).state.db.executions
    ensures RankOf(Race(r, ls, site), e) >= RankOf(r, e) || RankOf(Race(r, ls, site), e) >= 2
  {
    if ls != [] {
      var n := |ls| - 1;
      var before := Race(r, ls[..n], site);
      NeverBehindDispatching(r, ls[..n], site, e);
      if ls[n].Base? && !ls[n].step.DispatchPrompt? { OtherKeepsRank(before.state, ls[n].step, site, e); }
    }
  }

  ghost predicate NoRival(s: State, e: ExecutionId)
    requires e in s.db.executions
  {
    forall f :: f in s.db.executions && f != e && s.db.executions[f].taskId == s.db.executions[e].taskId ==>
      !IsActive(s.db.executions[f])
  }

  lemma WriteKeepsIndex(s: State, e: ExecutionId, x: Delivery, now: Time)
    requires OneActivePerTask(s.db.executions) && e in s.db.executions && NoRival(s, e)
    ensures OneActivePerTask(Written(s, e, x, now).db.executions)
  {
    var after := Written(s, e, x, now).db.executions;
    assert after[e].taskId == s.db.executions[e].taskId;
  }

  lemma ActiveHasNoRival(s: State, e: ExecutionId)
    requires OneActivePerTask(s.db.executions) && e in s.db.executions && IsActive(s.db.executions[e])
    ensures NoRival(s, e)
  {
  }

  function Fail(e: ExecutionId): Label {
    HandleError(e, Retry.Permanent, StreamPhase, Retry.DEFAULT_MATRIX, 0.0, 0.0)
  }

  lemma FailStep(s: State, e: ExecutionId, site: Preparation.Config)
    requires e in s.db.executions
    ensures Enabled(s, Fail(e)) && Apply(s, Fail(e), site).db.executions.Keys == s.db.executions.Keys
    ensures var after := Apply(s, Fail(e), site).db.executions;
            && after[e].status == ExecutionStatus.Failed && after[e].taskId == s.db.executions[e].taskId
            && after[e].finishedAt.Some?
            && forall f :: f in after && f != e ==> after[f] == s.db.executions[f]
  {
  }

  lemma OneLabel(r: RaceState, l: RaceLabel, site: Preparation.Config)
    ensures Race(r, [l], site) == After(r, l, site)
    ensures forall e :: DispatchCount(r, [l], site, e) == if Dispatches(r, l, e) then 1 else 0
  {
    assert [l][..0] == [];
    assert Race(r, [], site) == r;
    assert forall e :: DispatchCount(r, [], site, e) == 0;
  }

  /** If a rival execution of the task is active, it can fail first. */
  lemma MakeRoom(r: RaceState, site: Preparation.Config, e: ExecutionId) returns (ls: seq<RaceLabel>, s: RaceState)
    requires OneActivePerTask(r.state.db.executions) && e in r.state.db.executions
    ensures s == Race(r, ls, site) && s.readers == r.readers && DispatchCount(r, ls, site, e) == 0
    ensures OneActivePerTask(s.state.db.executions)
    ensures e in s.state.db.executions && s.state.db.executions[e] == r.state.db.executions[e]
    ensures NoRival(s.state, e)
  {
    if NoRival(r.state, e) {
      ls, s := [], r;
    } else {
      var f :| f in r.state.db.executions && f != e && IsActive(r.state.db.executions[f])
               && r.state.db.executions[f].taskId == r.state.db.executions[e].taskId;
      ls := [Base(Fail(f))];
      OneLabel(r, Base(Fail(f)), site);
      FailStep(r.state, f, site);
      s := After(r, Base(Fail(f)), site);
      ProtocolExecutions.StepKeepsOneActive(r.state, Fail(f), site);
    }
  }

  lemma WriteNext(r: RaceState, ls: seq<RaceLabel>, s: RaceState, site: Preparation.Config, d: string, e: ExecutionId,
                  x: Delivery, now: Time) returns (longer: seq<RaceLabel>)
    requires Race(r, ls, site) == s && Possible(s, WriteBack(d, e, x, now))
    ensures Race(r, longer, site) == RaceState(Written(s.state, e, x, now), s.readers - {(d, e)})
    ensures DispatchCount(r, longer, site, e) == DispatchCount(r, ls, site, e) + 1
  {
    longer := ls + [WriteBack(d, e, x, now)];
    assert longer[..|ls|] == ls;
  }

  /** A pending write can be carried out, once a rival has made room for it. */
  lemma PendingWrite(r: RaceState, site: Preparation.Config, d: string, e: ExecutionId, x: Delivery)
    returns (ls: seq<RaceLabel>)
    requires OneActivePerTask(r.state.db.executions) && e in r.state.db.executions && (d, e) in r.readers
    ensures DispatchCount(r, ls, site, e) == 1
    ensures e in Race(r, ls, site).state.db.executions
    ensures Race(r, ls, site).state.db.executions[e] == DispatchedRow(r.state.db.executions[e], x, 0.0)
  {
    var s;
    ls, s := MakeRoom(r, site, e);
    WriteKeepsIndex(s.state, e, x, 0.0);
    ls := WriteNext(r, ls, s, site, d, e, x, 0.0);
  }

  ghost predicate CanDispatch(r: RaceState, site: Preparation.Config, e: ExecutionId) {
    exists ls :: DispatchCount(r, ls, site, e) > 0
  }

  /** An execution that is no longer QUEUED, finished or not, can be dispatched again exactly when a dispatcher has read
      it as QUEUED and has not written yet. */
  lemma AgainIffReader(r: RaceState, site: Preparation.Config, e: ExecutionId)
    requires OneActivePerTask(r.state.db.executions) && e in r.state.db.executions
    requires r.state.db.executions[e].status != ExecutionStatus.Queued
    ensures CanDispatch(r, site, e) <==> !NoReader(r, e)
  {
    if NoReader(r, e) {
      forall ls ensures DispatchCount(r, ls, site, e) == 0 { SettledForever(r, ls, site, e); }
    } else {
      var d :| (d, e) in r.readers;
      var ls := PendingWrite(r, site, d, e, Refused("timeout"));
    }
  }

  ghost predicate EndsActive(r: RaceState, ls: seq<RaceLabel>, site: Preparation.Config, e: ExecutionId) {
    e in Race(r, ls, site).state.db.executions && IsActive(Race(r, ls, site).state.db.executions[e])
  }

  /** A finished execution comes back to life, in some race, exactly when such a write is pending. */
  lemma RevivesIffReader(r: RaceState, site: Preparation.Config, e: ExecutionId)
    requires OneActivePerTask(r.state.db.executions) && e in r.state.db.executions
    requires IsFinal(r.state.db.executions[e].status)
    ensures (exists ls :: EndsActive(r, ls, site, e)) <==> !NoReader(r, e)
  {
    if NoReader(r, e) {
      forall ls ensures !EndsActive(r, ls, site, e) { SettledForever(r, ls, site, e); }
    } else {
      var d :| (d, e) in r.readers;
      var ls := PendingWrite(r, site, d, e, Sent("session", "message"));
      assert EndsActive(r, ls, site, e);
    }
  }

  ghost predicate MovesBack(r: RaceState, ls: seq<RaceLabel>, site: Preparation.Config, e: ExecutionId)
    requires e in r.state.db.executions
  {
    e in Race(r, ls, site).state.db.executions && RankOf(Race(r, ls, site), e) < RankOf(r, e)
  }

  /** The status of an execution can move back, in some race, exactly when it is past DISPATCHING and such a write is
      pending. */
  lemma MovesBackIffReader(r: RaceState, site: Preparation.Config, e: ExecutionId)
    requires OneActivePerTask(r.state.db.executions) && e in r.state.db.executions
    ensures (exists ls :: MovesBack(r, ls, site, e)) <==> RankOf(r, e) > 2 && !NoReader(r, e)
  {
    if RankOf(r, e) > 2 && !NoReader(r, e) {
      var d :| (d, e) in r.readers;
      var ls := PendingWrite(r, site, d, e, Refused("timeout"));
      assert MovesBack(r, ls, site, e);
    } else {
      forall ls ensures !MovesBack(r, ls, site, e) {
        NeverBehindDispatching(r, ls, site, e);
        if RankOf(r, e) > 2 { SettledForever(r, ls, site, e); }
      }
    }
  }

  // ----- races that show it -----

  /** Two dispatchers that both read before either writes dispatch one execution twice, and leave two events of it. */
  lemma DispatchedTwice(r: RaceState, site: Preparation.Config, e: ExecutionId, a: string, b: string, x: Delivery,
                        y: Delivery, now: Time) returns (ls: seq<RaceLabel>)
    requires OneActivePerTask(r.state.db.executions) && e in r.state.db.executions && a != b
    requires r.state.db.executions[e].status == ExecutionStatus.Queued
    ensures DispatchCount(r, ls, site, e) == 2
    ensures Race(r, ls, site).state == Written(Written(r.state, e, x, now), e, y, now)
  {
    ls := [ReadQueued(a, e), ReadQueued(b, e)];
    assert ls[..1] == [ReadQueued(a, e)] && ls[..1][..0] == [];
    var both := r.(readers := r.readers + {(a, e)} + {(b, e)});
    assert Race(r, ls[..1], site) == After(r, ReadQueued(a, e), site);
    assert Race(r, ls, site) == both;
    assert DispatchCount(r, ls, site, e) == 0 by { assert DispatchCount(r, ls[..1], site, e) == 0; }
    ActiveHasNoRival(r.state, e);
    WriteKeepsIndex(r.state, e, x, now);
    ls := WriteNext(r, ls, both, site, a, e, x, now);
    var once := RaceState(Written(r.state, e, x, now), both.readers - {(a, e)});
    ActiveHasNoRival(once.state, e);
    WriteKeepsIndex(once.state, e, y, now);
    ls := WriteNext(r, ls, once, site, b, e, y, now);
  }

  /** Any QUEUED execution: a dispatcher reads it, a permanent error finishes it, and the delivered write leaves it in
      progress with a finish time. */
  lemma FinishedButInProgress(r: RaceState, site: Preparation.Config, d: string, e: ExecutionId)
    returns (ls: seq<RaceLabel>)
    requires OneActivePerTask(r.state.db.executions) && e in r.state.db.executions
    requires r.state.db.executions[e].status == ExecutionStatus.Queued
    ensures e in Race(r, ls, site).state.db.executions
    ensures var row := Race(r, ls, site).state.db.executions[e];
            row.status == InProgress && row.finishedAt.Some?
  {
    ls := [ReadQueued(d, e), Base(Fail(e))];
    assert ls[..1] == [ReadQueued(d, e)];
    OneLabel(r, ReadQueued(d, e), site);
    var read := After(r, ReadQueued(d, e), site);
    var failed := After(read, Base(Fail(e)), site);
    assert Race(r, ls, site) == failed;
    FailStep(read.state, e, site);
    ProtocolExecutions.StepKeepsOneActive(read.state, Fail(e), site);
    ActiveHasNoRival(read.state, e);
    var x := Sent("session", "message");
    WriteKeepsIndex(failed.state, e, x, 0.0);
    ls := WriteNext(r, ls, failed, site, d, e, x, 0.0);
  }
}
