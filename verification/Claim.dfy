/** execqueue/runner/claim.py */
module Claim {
  import opened Prelude
  import opened Tables

  datatype ClaimError =
    | AlreadyActive
    | NotPrepared(status: TaskStatus)
    | NotFound
    | IndexViolation

  const CLAIM_MAX_ATTEMPTS: nat := 3

  function NewExecution(t: TaskId, runner: string, now: Time): TaskExecution {
    TaskExecution(
      t, runner, ExecutionStatus.Queued, now, now, Some(now), None, None, None, 1, CLAIM_MAX_ATTEMPTS, None, None,
      None, None, None, [Event(1, ExecutionClaimed)])
  }

  function WithStatus(db: Tables, t: TaskId, status: TaskStatus): Tables
    requires t in db.tasks
  {
    db.(tasks := db.tasks[t := db.tasks[t].(status := status)])
  }

  /** A successful claim: the compare-and-set on the task and the new execution with its first event. */
  function Claimed(db: Tables, t: TaskId, runner: string, e: ExecutionId, now: Time): Tables
    requires t in db.tasks
  {
    WithStatus(db, t, TaskStatus.Queued).(executions := db.executions[e := NewExecution(t, runner, now)])
  }

  predicate CanClaim(db: Tables, t: TaskId) {
    t in db.tasks && db.tasks[t].status == TaskStatus.Prepared && !HasActive(db.executions, t)
  }

  /** INSERT under the partial unique index; a rival's committed row may violate it too. */
  method InsertExecution(s: Session, e: ExecutionId, row: TaskExecution, rivalActive: bool) returns (ok: bool)
    requires e !in s.current.executions && IsActive(row)
    modifies s`current
    ensures ok <==> !rivalActive && !HasActive(old(s.current.executions), row.taskId)
    ensures s.current == if ok then old(s.current).(executions := old(s.current.executions)[e := row])
                         else old(s.current)
  {
    ok := !rivalActive && !HasActive(s.current.executions, row.taskId);
    if ok {
      s.current := s.current.(executions := s.current.executions[e := row]);
    }
  }

  /** Claims in the caller's transaction; only a failed insert leaves a write to be rolled back. */
  method ClaimTask(s: Session, t: TaskId, runner: string, e: ExecutionId, now: Time, rivalActive: bool)
    returns (r: Result<TaskExecution, ClaimError>)
    requires e !in s.current.executions
    modifies s`current
    ensures r.Ok? <==> CanClaim(old(s.current), t) && !rivalActive
    ensures r.Ok? ==> s.current == Claimed(old(s.current), t, runner, e, now) && r.value == s.current.executions[e]
    ensures r.Ok? ==>
              && r.value.taskId == t && r.value.runnerId == runner && r.value.startedAt == Some(now)
              && r.value.status == ExecutionStatus.Queued && r.value.attempt == 1 && r.value.maxAttempts == 3
              && r.value.dispatchedAt == None && r.value.finishedAt == None && r.value.nextRetryAt == None
              && r.value.events == [Event(1, ExecutionClaimed)]
    ensures r.Ok? ==>
              s.current.tasks == old(s.current.tasks)[t := old(s.current.tasks)[t].(status := TaskStatus.Queued)]
    ensures HasActive(old(s.current.executions), t)
            <==> exists f :: f in old(s.current.executions) && old(s.current.executions)[f].taskId == t
                   && !old(s.current.executions)[f].status.Done? && !old(s.current.executions)[f].status.Failed?
                   && !old(s.current.executions)[f].status.Review?
    ensures r.Err? && r.error != IndexViolation ==> s.current == old(s.current)
    ensures r == Err(IndexViolation) <==> CanClaim(old(s.current), t) && rivalActive
    ensures r == Err(IndexViolation) ==> s.current == WithStatus(old(s.current), t, TaskStatus.Queued)
    ensures r == Err(AlreadyActive) <==> HasActive(old(s.current.executions), t)
    ensures r == Err(NotFound) <==> !HasActive(old(s.current.executions), t) && t !in old(s.current.tasks)
  {
    if HasActive(s.current.executions, t) {
      return Err(AlreadyActive);
    }
    var matches := t in s.current.tasks && s.current.tasks[t].status == TaskStatus.Prepared;
    if !matches {
      if t !in s.current.tasks {
        return Err(NotFound);
      }
      return Err(NotPrepared(s.current.tasks[t].status));
    }
    s.current := WithStatus(s.current, t, TaskStatus.Queued);
    var execution := NewExecution(t, runner, now);
    var ok := InsertExecution(s, e, execution, rivalActive);
    if !ok {
      return Err(IndexViolation);
    }
    return Ok(execution);
  }

  /** A claim keeps the index and touches one task and one new execution. */
  lemma ClaimKeepsIndex(db: Tables, t: TaskId, runner: string, e: ExecutionId, now: Time)
    requires CanClaim(db, t) && e !in db.executions && OneActivePerTask(db.executions)
    ensures OneActivePerTask(Claimed(db, t, runner, e, now).executions)
    ensures HasActive(Claimed(db, t, runner, e, now).executions, t)
    ensures forall u :: u != t ==>
              (HasActive(Claimed(db, t, runner, e, now).executions, u) <==> HasActive(db.executions, u))
  {
    var after := Claimed(db, t, runner, e, now).executions;
    assert after[e].taskId == t && IsActive(after[e]);
    forall u | u != t ensures HasActive(after, u) <==> HasActive(db.executions, u) {
      if HasActive(db.executions, u) {
        var f :| f in db.executions && db.executions[f].taskId == u && IsActive(db.executions[f]);
        assert after[f] == db.executions[f];
      }
    }
  }
}
