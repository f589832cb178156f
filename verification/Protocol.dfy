/** The whole system as a transition system: workers, runners, dispatch and both recoveries over shared tables.

    One committed transaction is one step. A worker's cycle is a lock step followed by one step per task it
    believes to hold; between them anything may happen. A claim is a check, and later a compare-and-set with
    the insert. A label that is not enabled changes nothing, so every sequence of labels is a run. Some labels are
    enabled more often than the code would take them (a pick of any execution, any times): that only adds runs. */
module Protocol {
  import opened Prelude
  import opened Tables
  import Locking
  import Preparation
  import QueuedRecovery
  import Claim
  import Dispatch
  import Retry
  import ExecutionRecovery

  datatype State = State(
    db: Tables,
    queues: map<string, seq<TaskId>>,
    checked: set<(string, TaskId)>)

  datatype Label =
    | Intake(task: TaskId, row: Task)
    | Lock(worker: string, ids: seq<TaskId>, batchId: Option<string>, now: Time)
    | LockFails(worker: string, ids: seq<TaskId>)
    | Prepare(worker: string, env: Preparation.Environment)
    | RecoverQueued(policy: QueuedRecovery.Policy)
    | Check(runner: string, task: TaskId)
    | ClaimWins(runner: string, task: TaskId, execution: ExecutionId, now: Time)
    | ClaimLoses(runner: string, task: TaskId)
    | DispatchPrompt(execution: ExecutionId, delivery: Dispatch.Delivery, now: Time)
    | StalePick(execution: ExecutionId, draw: real, now: Time)
    | HandleError(execution: ExecutionId, kind: Retry.ErrorType, phase: RunnerPhase, matrix: Retry.RetryMatrix,
                  draw: real, now: Time)
    | LogRecovery(execution: ExecutionId, action: ExecutionRecovery.RecoveryAction)

  const INITIAL: State := State(Tables(map[], map[]), map[], {})

  /** What a worker still means to prepare. */
  function QueueOf(s: State, worker: string): seq<TaskId> {
    if worker in s.queues then s.queues[worker] else []
  }

  predicate IsNewTask(row: Task) {
    && row.number >= 1 && row.status == TaskStatus.Backlog
    && row.queuedAt == None && row.lockedBy == None && row.batchId == None
    && row.attempts == 0 && row.lastError == None
    && row.branch == None && row.worktree == None && row.commitBefore == None && row.contextVersion == None
  }

  ghost predicate Enabled(s: State, l: Label) {
    match l
    case Intake(t, row) =>
      t !in s.db.tasks && IsNewTask(row) && forall u :: u in s.db.tasks ==> s.db.tasks[u].number != row.number
    case Lock(w, ids, _, _) => QueueOf(s, w) == [] && ids != [] && Locking.AllDistinctBacklog(s.db.tasks, ids)
    case LockFails(w, ids) => QueueOf(s, w) == []
    case Prepare(w, _) => QueueOf(s, w) != []
    case RecoverQueued(_) => true
    case Check(r, t) => !HasActive(s.db.executions, t)
    case ClaimWins(r, t, e, _) => (r, t) in s.checked && Claim.CanClaim(s.db, t) && e !in s.db.executions
    case ClaimLoses(r, t) => (r, t) in s.checked
    case DispatchPrompt(e, _, _) => e in s.db.executions && s.db.executions[e].status == ExecutionStatus.Queued
    case StalePick(e, _, _) => e in s.db.executions
    case HandleError(e, _, _, _, _, _) => e in s.db.executions
    case LogRecovery(e, _) => e in s.db.executions
  }

  function WithTasks(s: State, tasks: map<TaskId, Task>): State {
    s.(db := s.db.(tasks := tasks))
  }

  function WithExecution(s: State, e: ExecutionId, row: TaskExecution): State {
    s.(db := s.db.(executions := s.db.executions[e := row]))
  }

  /** The task a worker prepares next, and the row that leaves. */
  function PrepareTables(tasks: map<TaskId, Task>, t: TaskId, env: Preparation.Environment, site: Preparation.Config)
    : map<TaskId, Task>
  {
    if t in tasks then tasks[t := Preparation.PreparedRow(t, tasks[t], env, site)] else tasks
  }

  ghost function Effect(s: State, l: Label, site: Preparation.Config): State
    requires Enabled(s, l)
  {
    match l
    case Intake(t, row) => WithTasks(s, s.db.tasks[t := row])
    case Lock(w, ids, batchId, now) =>
      WithTasks(s, Locking.LockRows(s.db.tasks, ToSet(ids), w, batchId, now)).(queues := s.queues[w := ids])
    case LockFails(w, ids) => s.(queues := s.queues[w := Locking.FreeIds(s.db.tasks, ids)])
    case Prepare(w, env) =>
      var queue := QueueOf(s, w);
      WithTasks(s, PrepareTables(s.db.tasks, queue[0], env, site)).(queues := s.queues[w := queue[1..]])
    case RecoverQueued(policy) => WithTasks(s, QueuedRecovery.RecoverStale(s.db.tasks, policy))
    case Check(r, t) => s.(checked := s.checked + {(r, t)})
    case ClaimWins(r, t, e, now) =>
      s.(db := Claim.Claimed(s.db, t, r, e, now), checked := s.checked - {(r, t)})
    case ClaimLoses(r, t) => s.(checked := s.checked - {(r, t)})
    case DispatchPrompt(e, delivery, now) =>
      WithExecution(s, e, Dispatch.DispatchedRow(s.db.executions[e], delivery, now))
    case StalePick(e, draw, now) =>
      WithExecution(s, e, ExecutionRecovery.AfterStalePick(s.db.executions[e], draw, now))
    case HandleError(e, kind, phase, matrix, draw, now) =>
      WithExecution(s, e, ExecutionRecovery.AfterError(s.db.executions[e], kind, phase, matrix, draw, now))
    case LogRecovery(e, action) =>
      WithExecution(s, e, ExecutionRecovery.RecoveryEventRow(s.db.executions[e], action))
  }

  ghost function Apply(s: State, l: Label, site: Preparation.Config): State {
    if Enabled(s, l) then Effect(s, l, site) else s
  }

  ghost function Run(s: State, ls: seq<Label>, site: Preparation.Config): State {
    if ls == [] then s else Apply(Run(s, ls[..|ls| - 1], site), ls[|ls| - 1], site)
  }

  lemma {:induction false} RunConcat(s: State, ls: seq<Label>, ms: seq<Label>, site: Preparation.Config)
    ensures Run(s, ls + ms, site) == Run(Run(s, ls, site), ms, site)
  {
    if ms == [] {
      assert ls + ms == ls;
    } else {
      var n := |ms| - 1;
      assert (ls + ms)[..|ls + ms| - 1] == ls + ms[..n];
      RunConcat(s, ls, ms[..n], site);
    }
  }

  // ----- what a step can do to one row -----

  /** How a step can change one task row. */
  datatype TaskChange = Same | Created | Locked(w: string) | PreparedNow | Recovered | ClaimedNow

  ghost function ChangeOf(s: State, l: Label, t: TaskId): TaskChange {
    if !Enabled(s, l) then Same else
      match l
      case Intake(u, _) => if t == u then Created else Same
      case Lock(w, ids, _, _) => if t in ids then Locked(w) else Same
      case Prepare(w, _) => if t == QueueOf(s, w)[0] && t in s.db.tasks then PreparedNow else Same
      case RecoverQueued(policy) =>
        if t in s.db.tasks && QueuedRecovery.IsStale(s.db.tasks[t], policy) then Recovered else Same
      case ClaimWins(_, u, _, _) => if t == u then ClaimedNow else Same
      case _ => Same
  }

  /** Each task row after a step, by the kind of change. */
  lemma TaskRowAfter(s: State, l: Label, site: Preparation.Config, t: TaskId)
    ensures var after := Apply(s, l, site).db.tasks;
            && (t in after <==> t in s.db.tasks || ChangeOf(s, l, t) == Created)
            && (ChangeOf(s, l, t) == Same && t in s.db.tasks ==> after[t] == s.db.tasks[t])
            && (ChangeOf(s, l, t) == Created ==> l.Intake? && IsNewTask(l.row) && after[t] == l.row)
            && (ChangeOf(s, l, t).Locked? ==>
                  && l.Lock? && t in s.db.tasks && s.db.tasks[t].status == TaskStatus.Backlog
                  && after[t] == Locking.LockedRow(s.db.tasks[t], l.worker, l.batchId, l.now))
            && (ChangeOf(s, l, t) == PreparedNow ==>
                  && l.Prepare? && t in s.db.tasks
                  && after[t] == Preparation.PreparedRow(t, s.db.tasks[t], l.env, site))
            && (ChangeOf(s, l, t) == Recovered ==>
                  && l.RecoverQueued? && t in s.db.tasks && QueuedRecovery.IsStale(s.db.tasks[t], l.policy)
                  && after[t] == QueuedRecovery.RecoveredRow(s.db.tasks[t], l.policy))
            && (ChangeOf(s, l, t) == ClaimedNow ==>
                  && l.ClaimWins? && t in s.db.tasks && s.db.tasks[t].status == TaskStatus.Prepared
                  && after[t] == s.db.tasks[t].(status := TaskStatus.Queued))
  {
  }

  predicate TouchesExecution(l: Label, e: ExecutionId) {
    match l
    case ClaimWins(_, _, f, _) => e == f
    case DispatchPrompt(f, _, _) => e == f
    case StalePick(f, _, _) => e == f
    case HandleError(f, _, _, _, _, _) => e == f
    case LogRecovery(f, _) => e == f
    case _ => false
  }

  /** Executions are created by claims only, never deleted, and changed by their own steps only. */
  lemma ExecutionRowAfter(s: State, l: Label, site: Preparation.Config, e: ExecutionId)
    ensures var after := Apply(s, l, site).db.executions;
            && (e in s.db.executions ==> e in after)
            && (e in after && e !in s.db.executions ==>
                  Enabled(s, l) && l.ClaimWins? && l.execution == e
                  && after[e] == Claim.NewExecution(l.task, l.runner, l.now))
            && (e in s.db.executions && !(Enabled(s, l) && TouchesExecution(l, e)) ==>
                  after[e] == s.db.executions[e])
  {
  }
}
