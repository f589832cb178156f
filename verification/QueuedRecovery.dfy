/** execqueue/orchestrator/recovery.py: returning stale queued tasks to the backlog. */
module QueuedRecovery {
  import opened Prelude
  import opened Tables
  import opened Preparation

  /** What the recovery consults: the age limit, the worker filter, the budget, and the message classifier. */
  datatype Policy = Policy(
    cutoff: Time,
    worker: string,
    maxAttempts: nat,
    classify: string -> PreparationErrorType)

  datatype RecoveryReason = RetryExhaustion | NonRecoverableError | ConflictRetryAllowed | RecoverableError

  datatype Recovery = Recovery(taskId: TaskId, status: TaskStatus, reason: RecoveryReason)

  /** The WHERE clause: queued, with a lock time at or before the cutoff; an empty worker name filters nothing. */
  predicate IsStale(task: Task, policy: Policy) {
    && task.status == TaskStatus.Queued
    && task.queuedAt.Some? && task.queuedAt.value <= policy.cutoff
    && (policy.worker != "" ==> task.lockedBy == Some(policy.worker))
  }

  function StaleTasks(tasks: map<TaskId, Task>, policy: Policy): set<TaskId> {
    set t | t in tasks && IsStale(tasks[t], policy)
  }

  method FindStaleTasks(s: Session, policy: Policy) returns (ids: seq<TaskId>)
    ensures NoDuplicates(ids) && ToSet(ids) == StaleTasks(s.current.tasks, policy)
  {
    ids := SomeOrder(StaleTasks(s.current.tasks, policy));
  }

  /** The class of the last error; without one, recoverable. */
  function LastErrorKind(task: Task, policy: Policy): PreparationErrorType {
    if task.lastError.Some? && task.lastError.value != "" then policy.classify(task.lastError.value) else Recoverable
  }

  /** The budget is spent, or the last error is non-recoverable. */
  predicate GivesUp(task: Task, policy: Policy) {
    task.attempts >= policy.maxAttempts || LastErrorKind(task, policy) == NonRecoverable
  }

  function ReasonFor(task: Task, policy: Policy): RecoveryReason {
    if GivesUp(task, policy) then
      if task.attempts >= policy.maxAttempts then RetryExhaustion else NonRecoverableError
    else if LastErrorKind(task, policy) == Conflict then ConflictRetryAllowed
    else RecoverableError
  }

  /** The row carries an error text, and the classifier puts it in this class. */
  ghost predicate HasError(task: Task, policy: Policy, kind: PreparationErrorType) {
    exists m :: task.lastError == Some(m) && m != "" && policy.classify(m) == kind
  }

  ghost predicate NoError(task: Task) {
    task.lastError == None || task.lastError == Some("")
  }

  method RecoverTask(task: Task, policy: Policy) returns (status: TaskStatus, reason: RecoveryReason)
    ensures status == if GivesUp(task, policy) then TaskStatus.Failed else TaskStatus.Backlog
    ensures reason == ReasonFor(task, policy)
    ensures task.attempts >= policy.maxAttempts ==> status == TaskStatus.Failed && reason == RetryExhaustion
    ensures task.attempts < policy.maxAttempts && HasError(task, policy, NonRecoverable) ==>
              status == TaskStatus.Failed && reason == NonRecoverableError
    ensures task.attempts < policy.maxAttempts && HasError(task, policy, Conflict) ==>
              status == TaskStatus.Backlog && reason == ConflictRetryAllowed
    ensures task.attempts < policy.maxAttempts && (HasError(task, policy, Recoverable) || NoError(task)) ==>
              status == TaskStatus.Backlog && reason == RecoverableError
  {
    var kind := Recoverable;
    if task.lastError.Some? && task.lastError.value != "" {
      kind := policy.classify(task.lastError.value);
    }
    if task.attempts >= policy.maxAttempts {
      return TaskStatus.Failed, RetryExhaustion;
    }
    if kind == NonRecoverable {
      return TaskStatus.Failed, NonRecoverableError;
    }
    if kind == Conflict {
      return TaskStatus.Backlog, ConflictRetryAllowed;
    }
    return TaskStatus.Backlog, RecoverableError;
  }

  function RecoveredRow(task: Task, policy: Policy): Task {
    var unlocked := task.(queuedAt := None, lockedBy := None);
    if GivesUp(task, policy) then unlocked.(status := TaskStatus.Failed)
    else unlocked.(status := TaskStatus.Backlog, attempts := 0, lastError := None)
  }

  function RecoverRows(tasks: map<TaskId, Task>, ids: set<TaskId>, policy: Policy): map<TaskId, Task> {
    map t | t in tasks :: if t in ids then RecoveredRow(tasks[t], policy) else tasks[t]
  }

  function RecoverStale(tasks: map<TaskId, Task>, policy: Policy): map<TaskId, Task> {
    RecoverRows(tasks, StaleTasks(tasks, policy), policy)
  }

  function Recoveries(tasks: map<TaskId, Task>, ids: seq<TaskId>, policy: Policy): (rs: seq<Recovery>)
    requires forall t :: t in ids ==> t in tasks
    ensures |rs| == |ids|
  {
    seq(|ids|, i requires 0 <= i < |ids| =>
      Recovery(ids[i], RecoveredRow(tasks[ids[i]], policy).status, ReasonFor(tasks[ids[i]], policy)))
  }

  method RecoverOne(s: Session, t: TaskId, policy: Policy) returns (r: Recovery)
    requires t in s.current.tasks
    modifies s`current
    ensures s.current == old(s.current).(
              tasks := old(s.current.tasks)[t := RecoveredRow(old(s.current.tasks)[t], policy)])
    ensures r == Recovery(t, s.current.tasks[t].status, ReasonFor(old(s.current.tasks)[t], policy))
  {
    var task := s.current.tasks[t];
    var status, reason := RecoverTask(task, policy);
    task := task.(status := status);
    task := task.(queuedAt := None);
    task := task.(lockedBy := None);
    if status == TaskStatus.Backlog {
      task := task.(attempts := 0);
      task := task.(lastError := None);
    }
    s.current := s.current.(tasks := s.current.tasks[t := task]);
    r := Recovery(t, status, reason);
  }

  lemma RecoverNext(tasks: map<TaskId, Task>, ids: seq<TaskId>, i: nat, policy: Policy)
    requires i < |ids| && NoDuplicates(ids) && ids[i] in tasks
    ensures RecoverRows(tasks, ToSet(ids[..i]), policy)[ids[i]] == tasks[ids[i]]
    ensures RecoverRows(tasks, ToSet(ids[..i + 1]), policy)
         == RecoverRows(tasks, ToSet(ids[..i]), policy)[ids[i] := RecoveredRow(tasks[ids[i]], policy)]
  {
  }

  /** Every stale row is recovered in one transaction and reported once, in the order the query gave. */
  method RunRecoveryCycle(s: Session, policy: Policy) returns (results: seq<Recovery>, ghost order: seq<TaskId>)
    modifies s
    ensures s.committed == s.current
    ensures s.current == old(s.current).(tasks := RecoverStale(old(s.current.tasks), policy))
    ensures NoDuplicates(order) && ToSet(order) == StaleTasks(old(s.current.tasks), policy)
    ensures forall t :: t in order ==> t in old(s.current.tasks)
    ensures results == Recoveries(old(s.current.tasks), order, policy)
  {
    ghost var tasks := s.current.tasks;
    var stale := FindStaleTasks(s, policy);
    order := stale;
    assert forall i :: 0 <= i < |stale| ==> stale[i] in ToSet(stale);
    results := [];
    for i := 0 to |stale|
      invariant s.current == old(s.current).(tasks := RecoverRows(tasks, ToSet(stale[..i]), policy))
      invariant results == Recoveries(tasks, stale, policy)[..i]
    {
      RecoverNext(tasks, stale, i, policy);
      var r := RecoverOne(s, stale[i], policy);
      results := results + [r];
    }
    assert stale[..|stale|] == stale;
    s.Commit();
  }

  /** What a recovery cycle leaves: no stale row, the right verdict on each recovered row, all others untouched. */
  lemma RecoveryCycleSettles(tasks: map<TaskId, Task>, policy: Policy)
    ensures var after := RecoverStale(tasks, policy);
            && after.Keys == tasks.Keys
            && StaleTasks(after, policy) == {}
            && (forall t :: t in tasks && !IsStale(tasks[t], policy) ==> after[t] == tasks[t])
            && (forall t :: t in tasks && IsStale(tasks[t], policy) ==>
                  && after[t].queuedAt == None && after[t].lockedBy == None
                  && (after[t].status == TaskStatus.Failed <==> GivesUp(tasks[t], policy))
                  && (after[t].status != TaskStatus.Failed ==>
                        after[t].status == TaskStatus.Backlog && after[t].attempts == 0 && after[t].lastError == None))
  {
  }

  /** A second cycle at the same cutoff, or at an earlier one, finds nothing to do. */
  lemma RecoveryIsIdempotent(tasks: map<TaskId, Task>, policy: Policy, again: Policy)
    requires again.cutoff <= policy.cutoff && (policy.worker == "" || again.worker == policy.worker)
    ensures RecoverStale(RecoverStale(tasks, policy), again) == RecoverStale(tasks, policy)
  {
  }

  /** Some recovery cycle can pick a row up exactly when it is queued with a lock time. */
  lemma WhoCanBeRecovered(task: Task)
    ensures (exists policy :: IsStale(task, policy)) <==> task.status == TaskStatus.Queued && task.queuedAt.Some?
  {
    if task.status == TaskStatus.Queued && task.queuedAt.Some? {
      assert IsStale(task, Policy(task.queuedAt.value, "", 3, _ => Recoverable));
    }
  }

  /** What a recovery cycle does to one row, on the row's own fields. */
  lemma RecoveredByFields(tasks: map<TaskId, Task>, policy: Policy, t: TaskId)
    requires t in tasks
    ensures var task, after := tasks[t], RecoverStale(tasks, policy)[t];
            var picked := task.status == TaskStatus.Queued
                          && (exists at :: task.queuedAt == Some(at) && at <= policy.cutoff)
                          && (policy.worker == "" || task.lockedBy == Some(policy.worker));
            var hopeless := task.attempts >= policy.maxAttempts || HasError(task, policy, NonRecoverable);
            && (!picked ==> after == task)
            && (picked && hopeless ==>
                  after == task.(status := TaskStatus.Failed, queuedAt := None, lockedBy := None))
            && (picked && !hopeless ==>
                  after == task.(status := TaskStatus.Backlog, queuedAt := None, lockedBy := None,
                                 attempts := 0, lastError := None))
  {
    assert t in StaleTasks(tasks, policy) <==> IsStale(tasks[t], policy);
    if tasks[t].lastError.Some? && tasks[t].lastError.value != "" {
      assert policy.classify(tasks[t].lastError.value) == NonRecoverable
        <==> HasError(tasks[t], policy, NonRecoverable);
    }
  }

  /** The reason reported for a recovered row. */
  lemma ReasonByFields(task: Task, policy: Policy)
    ensures task.attempts >= policy.maxAttempts ==> ReasonFor(task, policy) == RetryExhaustion
    ensures task.attempts < policy.maxAttempts ==>
              && (HasError(task, policy, NonRecoverable) ==> ReasonFor(task, policy) == NonRecoverableError)
              && (HasError(task, policy, Conflict) ==> ReasonFor(task, policy) == ConflictRetryAllowed)
              && (HasError(task, policy, Recoverable) || NoError(task) ==> ReasonFor(task, policy) == RecoverableError)
  {
  }
}
