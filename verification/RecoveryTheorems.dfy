/** Budgets and convergence of execution recovery. */
module RecoveryTheorems {
  import opened Prelude
  import opened Tables
  import opened Retry
  import opened Stale
  import opened ExecutionRecovery

  // ----- the retry budget of one execution -----

  predicate InBudget(row: TaskExecution) {
    1 <= row.attempt <= row.maxAttempts
  }

  /** Anything that recovery does to one execution. */
  datatype Mishap =
    | AnError(kind: ErrorType, phase: RunnerPhase, matrix: RetryMatrix, draw: real, now: Time)
    | AStalePick(draw: real, now: Time)

  function AfterMishap(row: TaskExecution, m: Mishap): TaskExecution {
    match m
    case AnError(kind, phase, matrix, draw, now) => AfterError(row, kind, phase, matrix, draw, now)
    case AStalePick(draw, now) => AfterStalePick(row, draw, now)
  }

  predicate Retries(row: TaskExecution, m: Mishap) {
    match m
    case AnError(kind, phase, matrix, draw, now) =>
      DecisionForError(kind, CalculateRetry(row, kind, phase, matrix, draw, now)).action == RetryLater
    case AStalePick(draw, now) =>
      PhaseOf(row.phase).Some?
      && DecisionForStale(RetryForStale(row, PhaseOf(row.phase).value, draw, now)).action == RetryLater
  }

  /** The effect of one mishap on budget, status and log. */
  lemma MishapEffect(row: TaskExecution, m: Mishap)
    requires InBudget(row)
    ensures var after := AfterMishap(row, m);
            && InBudget(after)
            && after.maxAttempts == row.maxAttempts
            && after.attempt == row.attempt + (if Retries(row, m) then 1 else 0)
            && (Retries(row, m) ==> row.attempt < row.maxAttempts)
            && (after.status == row.status || IsFinal(after.status))
            && after.taskId == row.taskId
  {
  }

  function AfterAll(row: TaskExecution, ms: seq<Mishap>): TaskExecution {
    if ms == [] then row else AfterMishap(AfterAll(row, ms[..|ms| - 1]), ms[|ms| - 1])
  }

  function RetryCount(row: TaskExecution, ms: seq<Mishap>): nat {
    if ms == [] then 0 else
      var n := |ms| - 1;
      RetryCount(row, ms[..n]) + if Retries(AfterAll(row, ms[..n]), ms[n]) then 1 else 0
  }

  /** Whatever errors and sweeps befall an execution, it is retried at most max - attempt times. */
  lemma {:induction false} RetryBudget(row: TaskExecution, ms: seq<Mishap>)
    requires InBudget(row)
    ensures InBudget(AfterAll(row, ms)) && AfterAll(row, ms).maxAttempts == row.maxAttempts
    ensures AfterAll(row, ms).attempt == row.attempt + RetryCount(row, ms)
    ensures RetryCount(row, ms) <= row.maxAttempts - row.attempt
    ensures IsFinal(row.status) ==> IsFinal(AfterAll(row, ms).status)
  {
    if ms != [] {
      var n := |ms| - 1;
      RetryBudget(row, ms[..n]);
      MishapEffect(AfterAll(row, ms[..n]), ms[n]);
    }
  }

  // ----- repeated stale picks -----

  /** The last pick of the budget, and no earlier one, fails the execution; then no sweep selects it. */
  lemma {:induction false} PicksUntilFailed(row: TaskExecution, picks: seq<Mishap>)
    requires InBudget(row) && IsActive(row) && PhaseOf(row.phase).Some?
    requires forall i :: 0 <= i < |picks| ==> picks[i].AStalePick?
    ensures var after := AfterAll(row, picks);
            && after.phase == row.phase && after.maxAttempts == row.maxAttempts
            && (|picks| <= row.maxAttempts - row.attempt ==>
                  after.status == row.status && after.attempt == row.attempt + |picks|)
            && (|picks| > row.maxAttempts - row.attempt ==>
                  after.status == ExecutionStatus.Failed && after.attempt == row.maxAttempts
                  && forall th, now :: !IsSelected(after, th, now))
  {
    if picks != [] {
      var n := |picks| - 1;
      PicksUntilFailed(row, picks[..n]);
    }
  }

  // ----- convergence of the sweep -----

  /** How often an execution can still be picked. */
  function Weight(row: TaskExecution): nat {
    if IsActive(row) && row.attempt <= row.maxAttempts then row.maxAttempts + 1 - row.attempt else 0
  }

  ghost function Total(executions: map<ExecutionId, TaskExecution>, domain: set<ExecutionId>): nat
    requires domain <= executions.Keys
  {
    if domain == {} then 0 else
      var e :| e in domain;
      Weight(executions[e]) + Total(executions, domain - {e})
  }

  lemma {:induction false} TotalWithout(executions: map<ExecutionId, TaskExecution>, domain: set<ExecutionId>,
                                        x: ExecutionId)
    requires domain <= executions.Keys && x in domain
    ensures Total(executions, domain) == Weight(executions[x]) + Total(executions, domain - {x})
    decreases domain
  {
    var e :| e in domain && Total(executions, domain) == Weight(executions[e]) + Total(executions, domain - {e});
    if e != x {
      TotalWithout(executions, domain - {e}, x);
      TotalWithout(executions, domain - {x}, e);
      assert domain - {e} - {x} == domain - {x} - {e};
    }
  }

  datatype Sweep = Sweep(th: Thresholds, draws: ExecutionId -> real, now: Time)

  function AfterSweep(executions: map<ExecutionId, TaskExecution>, s: Sweep): map<ExecutionId, TaskExecution> {
    PickAll(executions, Selected(executions, s.th, s.now), s.draws, s.now)
  }

  /** The executions that a sweep handles. */
  function Handled(executions: map<ExecutionId, TaskExecution>, s: Sweep): set<ExecutionId> {
    Readable(executions, Selected(executions, s.th, s.now))
  }

  ghost predicate AllInBudget(executions: map<ExecutionId, TaskExecution>) {
    forall e :: e in executions ==> InBudget(executions[e])
  }

  lemma SweepDecreasesAt(executions: map<ExecutionId, TaskExecution>, s: Sweep, e: ExecutionId)
    requires e in executions && InBudget(executions[e])
    ensures Weight(AfterSweep(executions, s)[e]) + (if e in Handled(executions, s) then 1 else 0)
         <= Weight(executions[e])
  {
  }

  lemma {:induction false} SweepDecreasesOver(executions: map<ExecutionId, TaskExecution>, s: Sweep,
                                              domain: set<ExecutionId>, handled: set<ExecutionId>)
    requires AllInBudget(executions) && domain <= executions.Keys
    requires handled == Handled(executions, s) * domain
    ensures AfterSweep(executions, s).Keys == executions.Keys
    ensures Total(AfterSweep(executions, s), domain) + |handled| <= Total(executions, domain)
    decreases domain
  {
    if domain != {} {
      var e :| e in domain;
      SweepDecreasesOver(executions, s, domain - {e}, handled - {e});
      TotalWithout(executions, domain, e);
      TotalWithout(AfterSweep(executions, s), domain, e);
      SweepDecreasesAt(executions, s, e);
    }
  }

  lemma SweepKeepsBudget(executions: map<ExecutionId, TaskExecution>, s: Sweep)
    requires AllInBudget(executions)
    ensures AllInBudget(AfterSweep(executions, s))
  {
  }

  function AfterSweeps(executions: map<ExecutionId, TaskExecution>, sweeps: seq<Sweep>)
    : map<ExecutionId, TaskExecution>
  {
    if sweeps == [] then executions else
      AfterSweep(AfterSweeps(executions, sweeps[..|sweeps| - 1]), sweeps[|sweeps| - 1])
  }

  function PickCount(executions: map<ExecutionId, TaskExecution>, sweeps: seq<Sweep>): nat {
    if sweeps == [] then 0 else
      var n := |sweeps| - 1;
      PickCount(executions, sweeps[..n]) + |Handled(AfterSweeps(executions, sweeps[..n]), sweeps[n])|
  }

  /** However many sweeps run, and whenever, they make at most the initial total of picks. */
  lemma {:induction false} SweepsConverge(executions: map<ExecutionId, TaskExecution>, sweeps: seq<Sweep>)
    requires AllInBudget(executions)
    ensures AllInBudget(AfterSweeps(executions, sweeps)) && AfterSweeps(executions, sweeps).Keys == executions.Keys
    ensures PickCount(executions, sweeps) + Total(AfterSweeps(executions, sweeps), executions.Keys)
         <= Total(executions, executions.Keys)
  {
    if sweeps != [] {
      var n := |sweeps| - 1;
      var before := AfterSweeps(executions, sweeps[..n]);
      SweepsConverge(executions, sweeps[..n]);
      SweepDecreasesOver(before, sweeps[n], executions.Keys, Handled(before, sweeps[n]));
      SweepKeepsBudget(before, sweeps[n]);
    }
  }

  /** With any other text in `phase`, an execution stays selected and unchanged through all later sweeps. */
  lemma {:induction false} UnreadablePhaseNeverSettles(executions: map<ExecutionId, TaskExecution>, sweeps: seq<Sweep>,
                                                       e: ExecutionId, th: Thresholds, now: Time, later: Time)
    requires e in Selected(executions, th, now) && PhaseOf(executions[e].phase).None? && now <= later
    ensures e in AfterSweeps(executions, sweeps) && AfterSweeps(executions, sweeps)[e] == executions[e]
    ensures e in Selected(AfterSweeps(executions, sweeps), th, later)
  {
    if sweeps != [] {
      UnreadablePhaseNeverSettles(executions, sweeps[..|sweeps| - 1], e, th, now, later);
    }
  }
}
