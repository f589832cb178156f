/** execqueue/orchestrator/main.py, _prepare_task_context, with the context checks of context_contract.py. */
module Preparation {
  import opened Prelude
  import opened Tables
  import opened Classification
  import GitNames
  import Locking

  datatype PreparationErrorType = Recoverable | Conflict | NonRecoverable

  datatype Config = Config(workerId: string, maxBatchSize: nat, worktreeRoot: string, baseRepoPath: string)

  /** What the repository and the machine do while one task is prepared. A crash may come before or after the git
      context was assigned; after a passing error the database may fail while the lock is released. */
  datatype Environment =
    | Ready(commit: string)
    | GitFails(kind: PreparationErrorType, message: string, releaseFails: bool)
    | Crashes(message: string, commitFound: Option<string>)

  datatype Outcome = Success | PreparationFailed(kind: PreparationErrorType) | UnexpectedError

  datatype PreparationResult = PreparationResult(taskId: TaskId, number: nat, outcome: Outcome)

  const CONTEXT_VERSION: string := "v1"

  function WithGitContext(id: TaskId, task: Task, commit: string, config: Config): Task {
    task.(branch := Some(GitNames.GenerateBranchName(task.number, id)),
          worktree := Some(config.worktreeRoot + "/" + GitNames.WorktreeName(task.number, id)),
          commitBefore := Some(commit))
  }

  /** validate_context: the required fields that can be missing. */
  predicate ContextIsValid(task: Task, config: Config) {
    task.number != 0 && task.kind != Other("") && config.baseRepoPath != ""
  }

  function OutcomeOf(task: Task, env: Environment, config: Config): Outcome {
    match env
    case Crashes(_, _) => UnexpectedError
    case GitFails(kind, _, _) =>
      if RequiresWrite(task) then PreparationFailed(kind)
      else if ContextIsValid(task, config) then Success else PreparationFailed(NonRecoverable)
    case Ready(commit) =>
      if RequiresWrite(task) && commit == "" then PreparationFailed(NonRecoverable)
      else if ContextIsValid(task, config) then Success
      else PreparationFailed(NonRecoverable)
  }

  /** The commit of the git context, if preparation got that far. */
  function CommitOf(env: Environment): Option<string> {
    match env
    case Ready(commit) => Some(commit)
    case GitFails(_, _, _) => None
    case Crashes(_, commitFound) => commitFound
  }

  function CountFailure(task: Task, message: string): Task {
    task.(attempts := task.attempts + 1, lastError := Some(message))
  }

  /** The row with the git context that a write task gets, if preparation got that far. */
  function Located(id: TaskId, task: Task, env: Environment, config: Config): Task {
    if RequiresWrite(task) && CommitOf(env).Some? then WithGitContext(id, task, CommitOf(env).value, config) else task
  }

  /** The error is a passing one, so the lock is to be released, but the database fails: the rollback undoes it all. */
  predicate ReleaseIsLost(task: Task, env: Environment, config: Config) {
    var outcome := OutcomeOf(task, env, config);
    outcome.PreparationFailed? && outcome.kind != NonRecoverable && env.GitFails? && env.releaseFails
  }

  /** The row after one preparation; its status before the preparation is not looked at, except to release. */
  function PreparedRow(id: TaskId, task: Task, env: Environment, config: Config): Task {
    var located := Located(id, task, env, config);
    match OutcomeOf(task, env, config)
    case Success => located.(status := TaskStatus.Prepared, contextVersion := Some(CONTEXT_VERSION))
    case UnexpectedError => CountFailure(located, env.message)
    case PreparationFailed(kind) =>
      var failed := CountFailure(located, FailureMessage(task, env));
      if kind == NonRecoverable then failed.(status := TaskStatus.Failed)
      else if ReleaseIsLost(task, env, config) then task
      else Locking.ReleasedRow(failed, TaskStatus.Backlog)
  }

  function FailureMessage(task: Task, env: Environment): string {
    if env.GitFails? && RequiresWrite(task) then env.message
    else if env.Ready? && RequiresWrite(task) && env.commit == "" then
      "WRITE mode requires branch_name, worktree_path, and commit_sha_before"
    else "Context validation failed"
  }

  method StoreRow(s: Session, id: TaskId, task: Task)
    modifies s`current
    ensures s.current == old(s.current).(tasks := old(s.current.tasks)[id := task])
  {
    s.current := s.current.(tasks := s.current.tasks[id := task]);
  }

  /** The git part: a context for a write task, or the error that preparing it raises. */
  method AssignGitContext(id: TaskId, before: Task, env: Environment, config: Config)
    returns (task: Task, error: Option<(PreparationErrorType, string)>)
    ensures task == Located(id, before, env, config)
    ensures error == if !RequiresWrite(before) then None
                     else if env.GitFails? then Some((env.kind, env.message))
                     else if env == Ready("") then Some((NonRecoverable, FailureMessage(before, env)))
                     else None
  {
    task, error := before, None;
    var c := Classify(id, task);
    if c.mode == Write {
      if env.GitFails? {
        error := Some((env.kind, env.message));
      } else if CommitOf(env).Some? {
        task := task.(branch := Some(GitNames.GenerateBranchName(task.number, id)));
        task := task.(worktree := Some(config.worktreeRoot + "/" + GitNames.WorktreeName(task.number, id)));
        task := task.(commitBefore := CommitOf(env));
        if env == Ready("") {
          error := Some((NonRecoverable, "WRITE mode requires branch_name, worktree_path, and commit_sha_before"));
        }
      }
    }
  }

  method PrepareTaskContext(s: Session, id: TaskId, env: Environment, config: Config)
    returns (r: PreparationResult)
    requires id in s.current.tasks && s.committed == s.current
    modifies s
    ensures s.committed == s.current
    ensures s.current == old(s.current).(
              tasks := old(s.current.tasks)[id := PreparedRow(id, old(s.current.tasks)[id], env, config)])
    ensures r == PreparationResult(id, old(s.current.tasks)[id].number,
                                   OutcomeOf(old(s.current.tasks)[id], env, config))
  {
    var number := s.current.tasks[id].number;
    var task, error := AssignGitContext(id, s.current.tasks[id], env, config);
    if env.Crashes? {
      task := task.(attempts := task.attempts + 1, lastError := Some(env.message));
      StoreRow(s, id, task);
      s.Commit();
      return PreparationResult(id, number, UnexpectedError);
    }
    if error.None? && (number == 0 || task.kind == Other("") || config.baseRepoPath == "") {
      error := Some((NonRecoverable, "Context validation failed"));
    }
    if error.None? {
      task := task.(status := TaskStatus.Prepared);
      task := task.(contextVersion := Some(CONTEXT_VERSION));
      StoreRow(s, id, task);
      s.Commit();
      return PreparationResult(id, number, Success);
    }
    task := task.(attempts := task.attempts + 1);
    task := task.(lastError := Some(error.value.1));
    if error.value.0 == NonRecoverable {
      task := task.(status := TaskStatus.Failed);
      StoreRow(s, id, task);
    } else {
      StoreRow(s, id, task);
      var released := Locking.ReleaseLock(s, id, TaskStatus.Backlog, env.GitFails? && env.releaseFails);
      assert s.current.tasks == old(s.current.tasks)[id := PreparedRow(id, old(s.current.tasks)[id], env, config)];
    }
    s.Commit();
    return PreparationResult(id, number, PreparationFailed(error.value.0));
  }

  /** What preparing never touches. */
  ghost predicate SameRequest(a: Task, b: Task) {
    && a.number == b.number && a.kind == b.kind && a.details == b.details
    && a.executionOrder == b.executionOrder && a.createdAt == b.createdAt
  }

  /** A failure is counted, with its message, unless its release was lost; a successful preparation is no failure. */
  lemma FailuresAreCounted(id: TaskId, task: Task, env: Environment, config: Config)
    ensures var row, outcome := PreparedRow(id, task, env, config), OutcomeOf(task, env, config);
            && SameRequest(row, task)
            && (ReleaseIsLost(task, env, config) ==> row == task)
            && (!ReleaseIsLost(task, env, config) ==>
                  row.attempts == task.attempts + if outcome == Success then 0 else 1)
            && (outcome == Success ==> row.lastError == task.lastError && row.contextVersion == Some(CONTEXT_VERSION))
            && (outcome != Success ==> row.contextVersion == task.contextVersion)
            && (outcome != Success && !ReleaseIsLost(task, env, config) ==> row.lastError.Some?)
            && (outcome == Success && RequiresWrite(task) ==>
                  row.commitBefore.Some? && row.commitBefore.value != "" && row.branch.Some? && row.worktree.Some?)
  {
  }

  /** A locked task whose preparation fails for a passing reason is back in the backlog, unlocked and ready for the
      same attempt, exactly when the release was not lost. */
  lemma TransientFailureReturnsIff(id: TaskId, task: Task, worker: string, batchId: Option<string>, now: Time,
                                   env: Environment, config: Config)
    requires task.status == TaskStatus.Backlog && task.lockedBy == None && task.queuedAt == None
    requires OutcomeOf(task, env, config) in {PreparationFailed(Recoverable), PreparationFailed(Conflict)}
    ensures var row := PreparedRow(id, Locking.LockedRow(task, worker, batchId, now), env, config);
            && (row.status == TaskStatus.Backlog <==> !ReleaseIsLost(task, env, config))
            && (row.status == TaskStatus.Backlog ==>
                  && row.lockedBy == None && row.queuedAt == None
                  && SameRequest(row, task) && row.attempts == task.attempts + 1
                  && OutcomeOf(row, env, config) == OutcomeOf(task, env, config))
            && (row.status != TaskStatus.Backlog ==> row == Locking.LockedRow(task, worker, batchId, now))
  {
  }

  // ----- every exit, on the fields of the row -----

  /** A row with one more failure on it. */
  ghost predicate FailedOnceMore(row: Task, task: Task, message: string) {
    row.attempts == task.attempts + 1 && row.lastError == Some(message)
  }

  ghost predicate SameLock(row: Task, task: Task) {
    row.lockedBy == task.lockedBy && row.queuedAt == task.queuedAt && row.batchId == task.batchId
  }

  ghost predicate SameGit(row: Task, task: Task) {
    row.branch == task.branch && row.worktree == task.worktree && row.commitBefore == task.commitBefore
  }

  /** Git fails while a write task is prepared: a conflict or a recoverable error sends a queued task back to the
      backlog without a lock, a non-recoverable one fails it. */
  lemma GitFailureExit(id: TaskId, task: Task, kind: PreparationErrorType, message: string, config: Config)
    requires RequiresWrite(task)
    ensures var env := GitFails(kind, message, false);
            var row := PreparedRow(id, task, env, config);
            && OutcomeOf(task, env, config) == PreparationFailed(kind)
            && FailedOnceMore(row, task, message) && SameGit(row, task) && SameRequest(row, task)
            && row.contextVersion == task.contextVersion
            && (kind == NonRecoverable ==> row.status == TaskStatus.Failed && SameLock(row, task))
            && (kind != NonRecoverable && task.status == TaskStatus.Queued ==>
                  row.status == TaskStatus.Backlog && row.lockedBy == None && row.queuedAt == None)
            && (kind != NonRecoverable && task.status != TaskStatus.Queued ==>
                  row.status == task.status && SameLock(row, task))
  {
  }

  /** A read-only task asks nothing of git: whatever git does, it is prepared as soon as its context is valid. */
  lemma ReadOnlyExit(id: TaskId, task: Task, env: Environment, config: Config)
    requires !RequiresWrite(task) && !env.Crashes?
    ensures var row := PreparedRow(id, task, env, config);
            && SameLock(row, task) && SameGit(row, task) && SameRequest(row, task)
            && (task.number != 0 && task.kind != Other("") && config.baseRepoPath != "" ==>
                  && OutcomeOf(task, env, config) == Success
                  && row.status == TaskStatus.Prepared && row.contextVersion == Some("v1")
                  && row.attempts == task.attempts && row.lastError == task.lastError)
            && (task.number == 0 || task.kind == Other("") || config.baseRepoPath == "" ==>
                  && OutcomeOf(task, env, config) == PreparationFailed(NonRecoverable)
                  && row.status == TaskStatus.Failed && row.contextVersion == task.contextVersion
                  && FailedOnceMore(row, task, "Context validation failed"))
  {
  }

  /** A write task needs a commit and a valid context; it gets its names and the commit that was found. */
  lemma WriteExit(id: TaskId, task: Task, commit: string, config: Config)
    requires RequiresWrite(task)
    ensures var env := Ready(commit);
            var row := PreparedRow(id, task, env, config);
            && SameLock(row, task) && SameRequest(row, task)
            && row.branch == Some(GitNames.GenerateBranchName(task.number, id))
            && row.worktree == Some(config.worktreeRoot + "/" + GitNames.WorktreeName(task.number, id))
            && row.commitBefore == Some(commit)
            && (commit != "" && task.number != 0 && task.kind != Other("") && config.baseRepoPath != "" ==>
                  && OutcomeOf(task, env, config) == Success
                  && row.status == TaskStatus.Prepared && row.contextVersion == Some("v1")
                  && row.attempts == task.attempts && row.lastError == task.lastError)
            && (commit == "" || task.number == 0 || task.kind == Other("") || config.baseRepoPath == "" ==>
                  && OutcomeOf(task, env, config) == PreparationFailed(NonRecoverable)
                  && row.status == TaskStatus.Failed && row.contextVersion == task.contextVersion
                  && FailedOnceMore(row, task,
                       if commit == "" then "WRITE mode requires branch_name, worktree_path, and commit_sha_before"
                       else "Context validation failed"))
  {
  }

  /** An unexpected error is counted and leaves status and lock alone, so the task waits for stale recovery. */
  lemma CrashExit(id: TaskId, task: Task, message: string, commitFound: Option<string>, config: Config)
    ensures var env := Crashes(message, commitFound);
            var row := PreparedRow(id, task, env, config);
            && OutcomeOf(task, env, config) == UnexpectedError
            && FailedOnceMore(row, task, message) && SameLock(row, task) && SameRequest(row, task)
            && row.status == task.status && row.contextVersion == task.contextVersion
            && (commitFound == None || !RequiresWrite(task) ==> SameGit(row, task))
            && (commitFound != None && RequiresWrite(task) ==> row.commitBefore == commitFound && row.branch.Some?)
  {
  }

  /** A passing error whose release the database refuses leaves the row as it was. */
  lemma LostReleaseExit(id: TaskId, task: Task, kind: PreparationErrorType, message: string, config: Config)
    requires RequiresWrite(task) && kind != NonRecoverable
    ensures PreparedRow(id, task, GitFails(kind, message, true), config) == task
    ensures OutcomeOf(task, GitFails(kind, message, true), config) == PreparationFailed(kind)
  {
  }

  /** A preparation leaves branch and worktree as they were, or sets both to the names of this task. */
  lemma PreparedNames(id: TaskId, task: Task, env: Environment, config: Config)
    ensures var row := PreparedRow(id, task, env, config);
            || (row.branch == task.branch && row.worktree == task.worktree)
            || (row.branch == Some(GitNames.GenerateBranchName(task.number, id))
                && row.worktree == Some(config.worktreeRoot + "/" + GitNames.WorktreeName(task.number, id)))
  {
  }

  /** Which statuses a preparation can leave behind, and what it does to the lock. */
  lemma PreparationStatuses(id: TaskId, task: Task, env: Environment, config: Config)
    ensures var row := PreparedRow(id, task, env, config);
            && (row.status == TaskStatus.Prepared
                <==> OutcomeOf(task, env, config) == Success
                     || (task.status == TaskStatus.Prepared
                         && OutcomeOf(task, env, config) != PreparationFailed(NonRecoverable)))
            && (row.status == TaskStatus.Queued ==> task.status == TaskStatus.Queued)
            && (row.status == TaskStatus.Backlog && task.status != TaskStatus.Backlog
                ==> task.status == TaskStatus.Queued && row.lockedBy == None && row.queuedAt == None)
            && (row.status != TaskStatus.Backlog || task.status == TaskStatus.Backlog
                ==> row.lockedBy == task.lockedBy && row.queuedAt == task.queuedAt)
  {
  }
}
