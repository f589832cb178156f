/** execqueue/orchestrator/locking.py */
module Locking {
  import opened Prelude
  import opened Tables

  datatype FailureReason = AlreadyClaimed | StatusWas(status: Option<TaskStatus>) | DatabaseError

  datatype LockResult = LockResult(
    success: bool,
    lockedIds: seq<TaskId>,
    failedIds: seq<TaskId>,
    reason: Option<FailureReason>,
    affected: nat,
    expected: nat)

  predicate IsBacklog(tasks: map<TaskId, Task>, t: TaskId) {
    t in tasks && tasks[t].status == TaskStatus.Backlog
  }

  /** The ids that the read-back after a failed update calls locked: still in the backlog, or missing. */
  predicate LooksFree(tasks: map<TaskId, Task>, t: TaskId) {
    t !in tasks || tasks[t].status == TaskStatus.Backlog
  }

  function FreeIds(tasks: map<TaskId, Task>, ids: seq<TaskId>): seq<TaskId> {
    if ids == [] then [] else
      var n := |ids| - 1;
      FreeIds(tasks, ids[..n]) + if LooksFree(tasks, ids[n]) then [ids[n]] else []
  }

  function ClaimedIds(tasks: map<TaskId, Task>, ids: seq<TaskId>): seq<TaskId> {
    if ids == [] then [] else
      var n := |ids| - 1;
      ClaimedIds(tasks, ids[..n]) + if LooksFree(tasks, ids[n]) then [] else [ids[n]]
  }

  lemma {:induction false} FreeIdsMembers(tasks: map<TaskId, Task>, ids: seq<TaskId>, t: TaskId)
    ensures t in FreeIds(tasks, ids) <==> t in ids && LooksFree(tasks, t)
  {
    if ids != [] {
      var n := |ids| - 1;
      assert ids == ids[..n] + [ids[n]];
      FreeIdsMembers(tasks, ids[..n], t);
    }
  }

  /** The other half of the read-back: the rows that are there and no longer in the backlog. */
  lemma {:induction false} ClaimedIdsMembers(tasks: map<TaskId, Task>, ids: seq<TaskId>, t: TaskId)
    ensures t in ClaimedIds(tasks, ids) <==> t in ids && t in tasks && tasks[t].status != TaskStatus.Backlog
  {
    if ids != [] {
      var n := |ids| - 1;
      assert ids == ids[..n] + [ids[n]];
      ClaimedIdsMembers(tasks, ids[..n], t);
    }
  }

  lemma {:induction false} FreeAndClaimed(tasks: map<TaskId, Task>, ids: seq<TaskId>)
    ensures multiset(FreeIds(tasks, ids)) + multiset(ClaimedIds(tasks, ids)) == multiset(ids)
  {
    if ids != [] {
      SplitLast(ids);
      FreeAndClaimed(tasks, ids[..|ids| - 1]);
    }
  }

  lemma {:induction false} FreeIdsDistinct(tasks: map<TaskId, Task>, ids: seq<TaskId>)
    requires NoDuplicates(ids)
    ensures NoDuplicates(FreeIds(tasks, ids))
  {
    if ids != [] {
      var n := |ids| - 1;
      FreeIdsDistinct(tasks, ids[..n]);
      FreeIdsMembers(tasks, ids[..n], ids[n]);
      assert ids[n] !in ids[..n];
    }
  }

  function LockedRow(task: Task, worker: string, batchId: Option<string>, now: Time): Task {
    task.(status := TaskStatus.Queued, queuedAt := Some(now), lockedBy := Some(worker), batchId := batchId)
  }

  function LockRows(tasks: map<TaskId, Task>, ids: set<TaskId>, worker: string, batchId: Option<string>, now: Time)
    : map<TaskId, Task>
  {
    map t | t in tasks :: if t in ids then LockedRow(tasks[t], worker, batchId, now) else tasks[t]
  }

  /** UPDATE .. WHERE id IN ids AND status = backlog, with its row count. */
  method UpdateBacklogRows(s: Session, ids: seq<TaskId>, worker: string, batchId: Option<string>, now: Time)
    returns (rowcount: nat)
    modifies s`current
    ensures (var hit := set t | t in ids && IsBacklog(old(s.current.tasks), t);
             && rowcount == |hit|
             && s.current == old(s.current).(tasks := LockRows(old(s.current.tasks), hit, worker, batchId, now)))
  {
    var hit := set t | t in ids && IsBacklog(s.current.tasks, t);
    rowcount := |hit|;
    s.current := s.current.(tasks := LockRows(s.current.tasks, hit, worker, batchId, now));
  }

  ghost predicate AllDistinctBacklog(tasks: map<TaskId, Task>, ids: seq<TaskId>) {
    NoDuplicates(ids) && forall t :: t in ids ==> IsBacklog(tasks, t)
  }

  /** The row count matches the number of ids exactly when they are distinct and all in the backlog. */
  lemma RowCountDecides(tasks: map<TaskId, Task>, ids: seq<TaskId>, hit: set<TaskId>)
    requires hit == set t | t in ids && IsBacklog(tasks, t)
    ensures |hit| == |ids| <==> AllDistinctBacklog(tasks, ids)
    ensures |hit| == |ids| ==> hit == ToSet(ids)
  {
    SetSizeVersusLength(ids);
    SubsetSize(hit, ToSet(ids));
    if AllDistinctBacklog(tasks, ids) {
      assert hit == ToSet(ids);
    }
    if |hit| == |ids| {
      forall t | t in ids ensures IsBacklog(tasks, t) { assert t in ToSet(ids); }
    }
  }

  /** All or nothing: every id becomes this worker's, or no row changes. */
  method LockTasks(s: Session, ids: seq<TaskId>, worker: string, batchId: Option<string>, now: Time,
                   databaseFails: bool)
    returns (r: LockResult)
    modifies s
    ensures r.success <==> ids == [] || (!databaseFails && AllDistinctBacklog(old(s.current.tasks), ids))
    ensures r.success && ids != [] ==>
              s.committed == s.current
              == old(s.current).(tasks := LockRows(old(s.current.tasks), ToSet(ids), worker, batchId, now))
    ensures r.success ==> forall t :: t in ids ==>
              && t in s.current.tasks && t in old(s.current.tasks)
              && s.current.tasks[t] == old(s.current.tasks)[t].(
                   status := TaskStatus.Queued, queuedAt := Some(now), lockedBy := Some(worker), batchId := batchId)
    ensures r.success ==> forall t :: t in old(s.current.tasks) && t !in ids ==>
              t in s.current.tasks && s.current.tasks[t] == old(s.current.tasks)[t]
    ensures ids == [] ==> s.committed == old(s.committed) && s.current == old(s.current)
    ensures !r.success ==> s.committed == s.current == old(s.committed)
    ensures r.success ==> r.lockedIds == ids && r.failedIds == []
    ensures !r.success && databaseFails ==> r.lockedIds == [] && r.failedIds == ids
    ensures !r.success && !databaseFails ==>
              && r.lockedIds == FreeIds(s.committed.tasks, ids)
              && r.failedIds == ClaimedIds(s.committed.tasks, ids)
  {
    if ids == [] {
      return LockResult(true, [], [], None, 0, 0);
    }
    var expected := |ids|;
    if databaseFails {
      s.Rollback();
      return LockResult(false, [], ids, Some(DatabaseError), 0, expected);
    }
    ghost var before := s.current.tasks;
    var affected := UpdateBacklogRows(s, ids, worker, batchId, now);
    RowCountDecides(before, ids, set t | t in ids && IsBacklog(before, t));
    if affected != expected {
      s.Rollback();
      var failed: seq<TaskId>, free: seq<TaskId> := [], [];
      for i := 0 to |ids|
        invariant free == FreeIds(s.current.tasks, ids[..i])
        invariant failed == ClaimedIds(s.current.tasks, ids[..i])
      {
        var t := ids[i];
        assert ids[..i + 1][..i] == ids[..i];
        if t in s.current.tasks && s.current.tasks[t].status != TaskStatus.Backlog {
          failed := failed + [t];
        } else {
          free := free + [t];
        }
      }
      assert ids[..|ids|] == ids;
      return LockResult(false, free, failed, Some(AlreadyClaimed), affected, expected);
    }
    s.Commit();
    return LockResult(true, ids, [], None, affected, expected);
  }

  method LockSingleTask(s: Session, t: TaskId, worker: string, batchId: Option<string>, now: Time, databaseFails: bool)
    returns (r: LockResult)
    modifies s
    ensures r.success <==> !databaseFails && IsBacklog(old(s.current.tasks), t)
    ensures r.success ==>
              s.committed == s.current
              == old(s.current).(tasks := LockRows(old(s.current.tasks), {t}, worker, batchId, now))
    ensures !r.success ==> s.committed == s.current == old(s.committed) && r.lockedIds == []
    ensures r.lockedIds + r.failedIds == [t]
  {
    if databaseFails {
      s.Rollback();
      return LockResult(false, [], [t], Some(DatabaseError), 0, 1);
    }
    ghost var before := s.current.tasks;
    var affected := UpdateBacklogRows(s, [t], worker, batchId, now);
    RowCountDecides(before, [t], set u | u in [t] && IsBacklog(before, u));
    assert ToSet([t]) == {t};
    if affected != 1 {
      s.Rollback();
      var status := if t in s.current.tasks then Some(s.current.tasks[t].status) else None;
      return LockResult(false, [], [t], Some(StatusWas(status)), affected, 1);
    }
    s.Commit();
    return LockResult(true, [t], [], None, 1, 1);
  }

  function ReleasedRow(task: Task, target: TaskStatus): Task {
    if task.status == TaskStatus.Queued then task.(status := target, queuedAt := None, lockedBy := None) else task
  }

  method ReleaseLock(s: Session, t: TaskId, target: TaskStatus, databaseFails: bool) returns (ok: bool)
    modifies s
    ensures ok <==> !databaseFails && t in old(s.current.tasks) && old(s.current.tasks)[t].status == TaskStatus.Queued
    ensures databaseFails ==> s.committed == s.current == old(s.committed)
    ensures !databaseFails ==>
              && s.committed == s.current
              && s.current.executions == old(s.current.executions)
              && s.current.tasks.Keys == old(s.current.tasks.Keys)
              && (forall u :: u in s.current.tasks && u != t ==> s.current.tasks[u] == old(s.current.tasks)[u])
              && (t in s.current.tasks ==> s.current.tasks[t] == ReleasedRow(old(s.current.tasks)[t], target))
    ensures ok ==> s.current.tasks[t] == old(s.current.tasks)[t].(status := target, queuedAt := None, lockedBy := None)
    ensures !ok && !databaseFails ==> s.current == old(s.current)
  {
    if databaseFails {
      s.Rollback();
      return false;
    }
    var tasks := s.current.tasks;
    ok := t in tasks && tasks[t].status == TaskStatus.Queued;
    if ok {
      var row := tasks[t].(status := target, queuedAt := None, lockedBy := None);
      s.current := s.current.(tasks := tasks[t := row]);
    }
    s.Commit();
  }
}
