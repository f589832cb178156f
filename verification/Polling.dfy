/** execqueue/runner/polling.py, with the caller that ends the transaction. */
module Polling {
  import opened Prelude
  import opened Tables
  import opened Claim

  function PreparedTasks(tasks: map<TaskId, Task>): set<TaskId> {
    set t | t in tasks && tasks[t].status == TaskStatus.Prepared
  }

  /** The table after a batch of claim attempts; the i-th uses the i-th new id. */
  function ClaimEach(db: Tables, polled: seq<TaskId>, runner: string, newIds: seq<ExecutionId>, now: Time): Tables
    requires |polled| <= |newIds|
  {
    if polled == [] then db else
      var n := |polled| - 1;
      AfterAttempt(ClaimEach(db, polled[..n], runner, newIds, now), polled[n], runner, newIds[n], now)
  }

  /** The executions that a batch of attempts creates. */
  function ClaimedIds(db: Tables, polled: seq<TaskId>, newIds: seq<ExecutionId>): (ids: seq<ExecutionId>)
    requires |polled| <= |newIds|
    ensures |ids| <= |polled|
  {
    if polled == [] then [] else
      var n := |polled| - 1;
      ClaimedIds(db, polled[..n], newIds) + if CanClaim(db, polled[n]) then [newIds[n]] else []
  }

  ghost predicate FreshIds(db: Tables, newIds: seq<ExecutionId>) {
    NoDuplicates(newIds) && forall e :: e in newIds ==> e !in db.executions
  }

  function AfterAttempt(db: Tables, t: TaskId, runner: string, e: ExecutionId, now: Time): Tables {
    if CanClaim(db, t) then Claimed(db, t, runner, e, now) else db
  }

  /** One attempt touches one task and at most one new execution. */
  lemma AttemptTouchesOne(db: Tables, t: TaskId, runner: string, e: ExecutionId, now: Time)
    requires e !in db.executions && OneActivePerTask(db.executions)
    ensures var after := AfterAttempt(db, t, runner, e, now);
            && OneActivePerTask(after.executions)
            && after.tasks.Keys == db.tasks.Keys
            && (forall u :: u != t ==> (CanClaim(after, u) <==> CanClaim(db, u)))
            && (forall u :: u in db.tasks && u != t ==> after.tasks[u] == db.tasks[u])
            && (t in db.tasks ==>
                  after.tasks[t] == if CanClaim(db, t) then db.tasks[t].(status := TaskStatus.Queued) else db.tasks[t])
            && (forall f :: f in after.executions ==> f == e || f in db.executions)
  {
    if CanClaim(db, t) { ClaimKeepsIndex(db, t, runner, e, now); }
  }

  /** Attempts on different tasks do not disturb each other. */
  lemma {:induction false} ClaimsAreIndependent(db: Tables, polled: seq<TaskId>, runner: string,
                                                newIds: seq<ExecutionId>, now: Time)
    requires |polled| <= |newIds| && NoDuplicates(polled) && FreshIds(db, newIds) && OneActivePerTask(db.executions)
    ensures var after := ClaimEach(db, polled, runner, newIds, now);
            && OneActivePerTask(after.executions)
            && after.tasks.Keys == db.tasks.Keys
            && (forall t :: t !in polled ==> (CanClaim(after, t) <==> CanClaim(db, t)))
            && (forall t :: t in db.tasks ==>
                  after.tasks[t] == if t in polled && CanClaim(db, t)
                                    then db.tasks[t].(status := TaskStatus.Queued) else db.tasks[t])
            && (forall j :: |polled| <= j < |newIds| ==> newIds[j] !in after.executions)
  {
    if polled != [] {
      var n := |polled| - 1;
      assert polled == polled[..n] + [polled[n]];
      var before := ClaimEach(db, polled[..n], runner, newIds, now);
      ClaimsAreIndependent(db, polled[..n], runner, newIds, now);
      AttemptTouchesOne(before, polled[n], runner, newIds[n], now);
    }
  }

  lemma NextAttempt(db: Tables, polled: seq<TaskId>, runner: string, newIds: seq<ExecutionId>, now: Time, i: nat)
    requires i < |polled| <= |newIds| && NoDuplicates(polled) && FreshIds(db, newIds)
    requires OneActivePerTask(db.executions)
    ensures var before := ClaimEach(db, polled[..i], runner, newIds, now);
            && newIds[i] !in before.executions
            && (CanClaim(before, polled[i]) <==> CanClaim(db, polled[i]))
    ensures ClaimEach(db, polled[..i + 1], runner, newIds, now)
         == AfterAttempt(ClaimEach(db, polled[..i], runner, newIds, now), polled[i], runner, newIds[i], now)
    ensures ClaimedIds(db, polled[..i + 1], newIds)
         == ClaimedIds(db, polled[..i], newIds) + if CanClaim(db, polled[i]) then [newIds[i]] else []
  {
    ClaimsAreIndependent(db, polled[..i], runner, newIds, now);
    assert polled[..i + 1][..i] == polled[..i];
    assert polled[i] !in polled[..i];
  }

  /** SELECT id WHERE status = prepared LIMIT batch_size: some of the prepared tasks, without order. */
  method DiscoverPrepared(s: Session, batchSize: nat) returns (found: seq<TaskId>)
    ensures NoDuplicates(found) && forall t :: t in found ==> t in PreparedTasks(s.current.tasks)
    ensures |found| == if |PreparedTasks(s.current.tasks)| < batchSize
                       then |PreparedTasks(s.current.tasks)| else batchSize
    ensures forall t :: t in found ==> t in s.current.tasks && s.current.tasks[t].status == TaskStatus.Prepared
    ensures |found| < batchSize ==>
              forall t :: t in s.current.tasks && s.current.tasks[t].status == TaskStatus.Prepared ==> t in found
  {
    var prepared := SomeOrder(PreparedTasks(s.current.tasks));
    SetSizeVersusLength(prepared);
    assert forall i :: 0 <= i < |prepared| ==> prepared[i] in ToSet(prepared);
    found := Take(prepared, batchSize);
    if |found| < batchSize {
      forall t | t in PreparedTasks(s.current.tasks) ensures t in found { assert t in ToSet(prepared); }
    }
  }

  ghost predicate RivalHits(db: Tables, polled: seq<TaskId>, rivals: set<TaskId>) {
    exists t :: t in polled && t in rivals && CanClaim(db, t)
  }

  method ClaimAll(s: Session, found: seq<TaskId>, runner: string, newIds: seq<ExecutionId>, now: Time,
                  rivals: set<TaskId>)
    returns (r: Result<seq<ExecutionId>, ClaimError>)
    requires OneActivePerTask(s.current.executions) && NoDuplicates(found)
    requires |found| <= |newIds| && FreshIds(s.current, newIds)
    modifies s`current
    ensures r.Err? <==> RivalHits(old(s.current), found, rivals)
    ensures r.Err? ==> r.error == IndexViolation
    ensures r.Ok? ==> s.current == ClaimEach(old(s.current), found, runner, newIds, now)
    ensures r.Ok? ==> r.value == ClaimedIds(old(s.current), found, newIds)
  {
    ghost var db := s.current;
    var claimed: seq<ExecutionId> := [];
    for i := 0 to |found|
      invariant s.current == ClaimEach(db, found[..i], runner, newIds, now)
      invariant claimed == ClaimedIds(db, found[..i], newIds)
      invariant !RivalHits(db, found[..i], rivals)
    {
      NextAttempt(db, found, runner, newIds, now, i);
      var attempt := ClaimTask(s, found[i], runner, newIds[i], now, found[i] in rivals);
      if attempt == Err(IndexViolation) {
        assert found[i] in found && CanClaim(db, found[i]);
        return Err(IndexViolation);
      }
      if attempt.Ok? {
        claimed := claimed + [newIds[i]];
      }
      assert found[..i + 1] == found[..i] + [found[i]];
    }
    assert found[..|found|] == found;
    return Ok(claimed);
  }

  /** One poll in one transaction: all claims commit together, or an index violation undoes every one of them. */
  method PollAndClaim(s: Session, runner: string, batchSize: nat, newIds: seq<ExecutionId>, now: Time,
                      rivals: set<TaskId>)
    returns (r: Result<seq<ExecutionId>, ClaimError>, ghost polled: seq<TaskId>)
    requires s.committed == s.current && OneActivePerTask(s.current.executions)
    requires |newIds| >= batchSize && FreshIds(s.current, newIds)
    modifies s
    ensures s.committed == s.current
    ensures |polled| == if |PreparedTasks(old(s.current.tasks))| < batchSize
                        then |PreparedTasks(old(s.current.tasks))| else batchSize
    ensures NoDuplicates(polled) && |polled| <= |newIds|
    ensures forall t :: t in polled ==> t in PreparedTasks(old(s.current.tasks))
    ensures forall t :: t in polled ==>
              t in old(s.current.tasks) && old(s.current.tasks)[t].status == TaskStatus.Prepared
    ensures |polled| < batchSize ==>
              forall t :: t in old(s.current.tasks) && old(s.current.tasks)[t].status == TaskStatus.Prepared ==>
                t in polled
    ensures r.Err? <==> RivalHits(old(s.current), polled, rivals)
    ensures r.Err? ==> r.error == IndexViolation && s.current == old(s.current)
    ensures r.Ok? ==> s.current == ClaimEach(old(s.current), polled, runner, newIds, now)
    ensures r.Ok? ==> r.value == ClaimedIds(old(s.current), polled, newIds)
  {
    var found := DiscoverPrepared(s, batchSize);
    polled := found;
    r := ClaimAll(s, found, runner, newIds, now, rivals);
    if r.Err? {
      s.Rollback();
    } else {
      s.Commit();
    }
  }
}
