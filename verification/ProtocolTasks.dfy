/** What every run keeps about the task table: locks, isolation, preparation tokens. */
module ProtocolTasks {
  import opened Prelude
  import opened Tables
  import opened Protocol
  import Classification
  import GitNames
  import Preparation
  import QueuedRecovery

  /** The state before step k. */
  ghost function StateAt(s: State, ls: seq<Label>, k: nat, site: Preparation.Config): State
    requires k <= |ls|
  {
    Run(s, ls[..k], site)
  }

  lemma NextState(s: State, ls: seq<Label>, k: nat, site: Preparation.Config)
    requires k < |ls|
    ensures StateAt(s, ls, k + 1, site) == Apply(StateAt(s, ls, k, site), ls[k], site)
  {
    assert ls[..k + 1][..k] == ls[..k];
  }

  // ----- rows -----

  /** A backlog row carries no lock; a row's branch and worktree are the ones named after it. */
  ghost predicate RowInvariant(t: TaskId, row: Task, site: Preparation.Config) {
    && row.number >= 1
    && (row.status == TaskStatus.Backlog ==> row.lockedBy == None && row.queuedAt == None)
    && (row.branch == None <==> row.worktree == None)
    && (row.branch != None ==>
          && row.branch == Some(GitNames.GenerateBranchName(row.number, t))
          && row.worktree == Some(site.worktreeRoot + "/" + GitNames.WorktreeName(row.number, t)))
  }

  ghost predicate TableInvariant(tasks: map<TaskId, Task>, site: Preparation.Config) {
    UniqueNumbers(tasks) && forall t :: t in tasks ==> RowInvariant(t, tasks[t], site)
  }

  lemma PreparationKeepsRow(t: TaskId, row: Task, env: Preparation.Environment, site: Preparation.Config)
    requires RowInvariant(t, row, site)
    ensures RowInvariant(t, Preparation.PreparedRow(t, row, env, site), site)
    ensures Preparation.PreparedRow(t, row, env, site).number == row.number
  {
    Preparation.FailuresAreCounted(t, row, env, site);
    Preparation.PreparedNames(t, row, env, site);
    Preparation.PreparationStatuses(t, row, env, site);
  }

  lemma StepKeepsRow(s: State, l: Label, site: Preparation.Config, t: TaskId)
    requires TableInvariant(s.db.tasks, site) && t in Apply(s, l, site).db.tasks
    ensures RowInvariant(t, Apply(s, l, site).db.tasks[t], site)
    ensures t in s.db.tasks ==> Apply(s, l, site).db.tasks[t].number == s.db.tasks[t].number
  {
    TaskRowAfter(s, l, site, t);
    if ChangeOf(s, l, t) == PreparedNow {
      PreparationKeepsRow(t, s.db.tasks[t], l.env, site);
    }
  }

  lemma StepKeepsTable(s: State, l: Label, site: Preparation.Config)
    requires TableInvariant(s.db.tasks, site)
    ensures TableInvariant(Apply(s, l, site).db.tasks, site)
  {
    var after := Apply(s, l, site).db.tasks;
    forall t | t in after
      ensures RowInvariant(t, after[t], site)
      ensures t in s.db.tasks ==> after[t].number == s.db.tasks[t].number
      ensures t !in s.db.tasks ==> Enabled(s, l) && l.Intake? && t == l.task && after[t] == l.row
    {
      StepKeepsRow(s, l, site, t);
      TaskRowAfter(s, l, site, t);
    }
  }

  lemma {:induction false} RunKeepsTable(ls: seq<Label>, site: Preparation.Config)
    ensures TableInvariant(Run(INITIAL, ls, site).db.tasks, site)
  {
    if ls != [] {
      RunKeepsTable(ls[..|ls| - 1], site);
      StepKeepsTable(Run(INITIAL, ls[..|ls| - 1], site), ls[|ls| - 1], site);
    }
  }

  /** In every reachable state no two tasks share a branch or a worktree. */
  lemma TasksAreIsolated(ls: seq<Label>, site: Preparation.Config, t: TaskId, u: TaskId)
    requires t in Run(INITIAL, ls, site).db.tasks && u in Run(INITIAL, ls, site).db.tasks && t != u
    requires Run(INITIAL, ls, site).db.tasks[t].branch != None && Run(INITIAL, ls, site).db.tasks[u].branch != None
    ensures Run(INITIAL, ls, site).db.tasks[t].branch != Run(INITIAL, ls, site).db.tasks[u].branch
    ensures Run(INITIAL, ls, site).db.tasks[t].worktree != Run(INITIAL, ls, site).db.tasks[u].worktree
  {
    var tasks := Run(INITIAL, ls, site).db.tasks;
    RunKeepsTable(ls, site);
    var m, n := tasks[t].number, tasks[u].number;
    assert RowInvariant(t, tasks[t], site) && RowInvariant(u, tasks[u], site);
    GitNames.NamesIsolate(m, t, n, u);
    if tasks[t].worktree == tasks[u].worktree {
      Classification.SamePrefix(site.worktreeRoot + "/", GitNames.WorktreeName(m, t), GitNames.WorktreeName(n, u));
    }
  }

  // ----- locks -----

  /** A successful lock_tasks that takes this task. */
  ghost predicate Locks(s: State, l: Label, t: TaskId) {
    Enabled(s, l) && l.Lock? && t in l.ids
  }

  /** A release after a failed preparation, or a stale recovery that does not give up. */
  ghost predicate Frees(s: State, l: Label, site: Preparation.Config, t: TaskId) {
    match ChangeOf(s, l, t)
    case Recovered => !QueuedRecovery.GivesUp(s.db.tasks[t], l.policy)
    case PreparedNow =>
      && s.db.tasks[t].status == TaskStatus.Queued
      && Preparation.OutcomeOf(s.db.tasks[t], l.env, site).PreparationFailed?
      && Preparation.OutcomeOf(s.db.tasks[t], l.env, site) != Preparation.PreparationFailed(Preparation.NonRecoverable)
      && !Preparation.ReleaseIsLost(s.db.tasks[t], l.env, site)
    case _ => false
  }

  ghost predicate InBacklog(s: State, t: TaskId) {
    t in s.db.tasks && s.db.tasks[t].status == TaskStatus.Backlog
  }

  /** A known task returns to the backlog by being freed, and in no other way. */
  lemma OnlyFreeingReturns(s: State, l: Label, site: Preparation.Config, t: TaskId)
    requires t in s.db.tasks && !InBacklog(s, t)
    ensures t in Apply(s, l, site).db.tasks
    ensures InBacklog(Apply(s, l, site), t) <==> Frees(s, l, site, t)
  {
    TaskRowAfter(s, l, site, t);
  }

  lemma StillHeld(s: State, ls: seq<Label>, site: Preparation.Config, t: TaskId, k: nat)
    requires k < |ls| && t in StateAt(s, ls, k, site).db.tasks && !InBacklog(StateAt(s, ls, k, site), t)
    requires !Frees(StateAt(s, ls, k, site), ls[k], site, t)
    ensures t in StateAt(s, ls, k + 1, site).db.tasks && !InBacklog(StateAt(s, ls, k + 1, site), t)
  {
    NextState(s, ls, k, site);
    OnlyFreeingReturns(StateAt(s, ls, k, site), ls[k], site, t);
  }

  lemma {:induction false} HeldUntilFreed(s: State, ls: seq<Label>, site: Preparation.Config, t: TaskId, i: nat, j: nat)
    requires i < j <= |ls| && Locks(StateAt(s, ls, i, site), ls[i], t)
    requires forall k :: i < k < j ==> !Frees(StateAt(s, ls, k, site), ls[k], site, t)
    ensures t in StateAt(s, ls, j, site).db.tasks && !InBacklog(StateAt(s, ls, j, site), t)
  {
    if i == j - 1 {
      NextState(s, ls, i, site);
      TaskRowAfter(StateAt(s, ls, i, site), ls[i], site, t);
    } else {
      HeldUntilFreed(s, ls, site, t, i, j - 1);
      StillHeld(s, ls, site, t, j - 1);
    }
  }

  /** Between two successful locks of one task, by whichever workers, the task was freed. */
  lemma LocksAreExclusive(s: State, ls: seq<Label>, site: Preparation.Config, t: TaskId, i: nat, j: nat)
    requires i < j < |ls|
    requires Locks(StateAt(s, ls, i, site), ls[i], t) && Locks(StateAt(s, ls, j, site), ls[j], t)
    ensures exists k :: i < k < j && Frees(StateAt(s, ls, k, site), ls[k], site, t)
  {
    if forall k :: i < k < j ==> !Frees(StateAt(s, ls, k, site), ls[k], site, t) {
      HeldUntilFreed(s, ls, site, t, i, j);
      assert false;
    }
  }

  // ----- preparation tokens -----

  /** This step commits PREPARED for the task. */
  ghost predicate CommitsPrepared(s: State, l: Label, site: Preparation.Config, t: TaskId) {
    ChangeOf(s, l, t) == PreparedNow && Preparation.OutcomeOf(s.db.tasks[t], l.env, site) == Preparation.Success
  }

  ghost function PrepareCount(s: State, ls: seq<Label>, site: Preparation.Config, t: TaskId): nat {
    if ls == [] then 0 else
      var n := |ls| - 1;
      PrepareCount(s, ls[..n], site, t)
      + if CommitsPrepared(Run(s, ls[..n], site), ls[n], site, t) then 1 else 0
  }

  ghost function ClaimCount(s: State, ls: seq<Label>, site: Preparation.Config, t: TaskId): nat {
    if ls == [] then 0 else
      var n := |ls| - 1;
      ClaimCount(s, ls[..n], site, t) + if ChangeOf(Run(s, ls[..n], site), ls[n], t) == ClaimedNow then 1 else 0
  }

  ghost function Token(s: State, t: TaskId): nat {
    if t in s.db.tasks && s.db.tasks[t].status == TaskStatus.Prepared then 1 else 0
  }

  lemma TokenStep(s: State, l: Label, site: Preparation.Config, t: TaskId)
    ensures Token(Apply(s, l, site), t) + (if ChangeOf(s, l, t) == ClaimedNow then 1 else 0)
         <= Token(s, t) + if CommitsPrepared(s, l, site, t) then 1 else 0
  {
    TaskRowAfter(s, l, site, t);
  }

  /** No preparation is claimed twice: claims, plus the preparation still waiting, never exceed the preparations. */
  lemma {:induction false} TokensAreConserved(ls: seq<Label>, site: Preparation.Config, t: TaskId)
    ensures ClaimCount(INITIAL, ls, site, t) + Token(Run(INITIAL, ls, site), t) <= PrepareCount(INITIAL, ls, site, t)
  {
    if ls != [] {
      var n := |ls| - 1;
      TokensAreConserved(ls[..n], site, t);
      TokenStep(Run(INITIAL, ls[..n], site), ls[n], site, t);
    }
  }

  ghost function ExecutionsOf(s: State, t: TaskId): set<ExecutionId> {
    set e | e in s.db.executions && s.db.executions[e].taskId == t
  }

  lemma OldExecutionsStay(s: State, l: Label, site: Preparation.Config, e: ExecutionId)
    requires e in s.db.executions
    ensures e in Apply(s, l, site).db.executions
    ensures Apply(s, l, site).db.executions[e].taskId == s.db.executions[e].taskId
  {
  }

  lemma NewExecutions(s: State, l: Label, site: Preparation.Config, e: ExecutionId)
    requires e !in s.db.executions
    ensures e in Apply(s, l, site).db.executions <==> Enabled(s, l) && l.ClaimWins? && l.execution == e
    ensures e in Apply(s, l, site).db.executions ==> Apply(s, l, site).db.executions[e].taskId == l.task
  {
  }

  lemma ExecutionOfTask(s: State, l: Label, site: Preparation.Config, t: TaskId, e: ExecutionId)
    ensures e in ExecutionsOf(Apply(s, l, site), t)
            <==> e in ExecutionsOf(s, t) || (ChangeOf(s, l, t) == ClaimedNow && e == l.execution)
  {
    if e in s.db.executions { OldExecutionsStay(s, l, site, e); } else { NewExecutions(s, l, site, e); }
  }

  lemma AddedCount(before: set<ExecutionId>, after: set<ExecutionId>, added: set<ExecutionId>)
    requires before !! added && forall e :: e in after <==> e in before || e in added
    ensures |after| == |before| + |added|
  {
    assert after == before + added;
  }

  lemma ExecutionsStep(s: State, l: Label, site: Preparation.Config, t: TaskId)
    ensures |ExecutionsOf(Apply(s, l, site), t)|
         == |ExecutionsOf(s, t)| + if ChangeOf(s, l, t) == ClaimedNow then 1 else 0
  {
    var added := if ChangeOf(s, l, t) == ClaimedNow then {l.execution} else {};
    forall e ensures e in ExecutionsOf(Apply(s, l, site), t) <==> e in ExecutionsOf(s, t) || e in added {
      ExecutionOfTask(s, l, site, t, e);
    }
    AddedCount(ExecutionsOf(s, t), ExecutionsOf(Apply(s, l, site), t), added);
  }

  /** Every execution that ever existed used up a preparation of its own. */
  lemma {:induction false} OneExecutionPerPreparation(ls: seq<Label>, site: Preparation.Config, t: TaskId)
    ensures |ExecutionsOf(Run(INITIAL, ls, site), t)| == ClaimCount(INITIAL, ls, site, t)
    ensures |ExecutionsOf(Run(INITIAL, ls, site), t)| <= PrepareCount(INITIAL, ls, site, t)
  {
    TokensAreConserved(ls, site, t);
    if ls != [] {
      var n := |ls| - 1;
      OneExecutionPerPreparation(ls[..n], site, t);
      ExecutionsStep(Run(INITIAL, ls[..n], site), ls[n], site, t);
    } else {
      assert ExecutionsOf(INITIAL, t) == {};
    }
  }
}
