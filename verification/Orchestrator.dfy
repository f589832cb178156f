/** execqueue/orchestrator/main.py, run_preparation_cycle. */
module Orchestrator {
  import opened Prelude
  import opened Tables
  import opened Classification
  import opened BatchPlanning
  import opened Preparation
  import Discovery
  import Locking
  import PlannerTheorems

  /** The classified candidates of one cycle. */
  function Candidates(tasks: map<TaskId, Task>, limit: nat): (cs: seq<TaskClassification>)
    requires UniqueNumbers(tasks)
    ensures Ids(cs) == Discovery.FindCandidates(tasks, limit)
    ensures |cs| <= limit
  {
    Discovery.CandidatesAreTheFirstEligible(tasks, limit);
    ClassifiedAll(Discovery.FindCandidates(tasks, limit), tasks)
  }

  /** The ids that one cycle tries to lock. */
  function PlanFor(tasks: map<TaskId, Task>, limit: nat): seq<TaskId>
    requires UniqueNumbers(tasks)
  {
    Ids(Included(limit, Candidates(tasks, limit)))
  }

  function PrepareBatch(tasks: map<TaskId, Task>, ids: seq<TaskId>, env: TaskId -> Environment, config: Config)
    : (after: map<TaskId, Task>)
    ensures after.Keys == tasks.Keys
  {
    if ids == [] then tasks else
      var n := |ids| - 1;
      var before := PrepareBatch(tasks, ids[..n], env, config);
      if ids[n] !in before then before
      else before[ids[n] := PreparedRow(ids[n], before[ids[n]], env(ids[n]), config)]
  }

  function PrepareResults(tasks: map<TaskId, Task>, ids: seq<TaskId>, env: TaskId -> Environment, config: Config)
    : seq<PreparationResult>
  {
    if ids == [] then [] else
      var n := |ids| - 1;
      var before := PrepareBatch(tasks, ids[..n], env, config);
      PrepareResults(tasks, ids[..n], env, config) +
      if ids[n] !in before then []
      else [PreparationResult(ids[n], before[ids[n]].number, OutcomeOf(before[ids[n]], env(ids[n]), config))]
  }

  datatype Stamp = Stamp(batchId: string, now: Time)

  /** The task table after a cycle that nobody disturbs. */
  function Cycle(tasks: map<TaskId, Task>, stamp: Stamp, env: TaskId -> Environment, config: Config)
    : map<TaskId, Task>
    requires UniqueNumbers(tasks)
  {
    var plan := PlanFor(tasks, config.maxBatchSize);
    if plan == [] then tasks else PrepareBatch(LockedTable(tasks, plan, stamp, config), plan, env, config)
  }

  function LockedTable(tasks: map<TaskId, Task>, plan: seq<TaskId>, stamp: Stamp, config: Config): map<TaskId, Task> {
    Locking.LockRows(tasks, ToSet(plan), config.workerId, Some(stamp.batchId), stamp.now)
  }

  /** A plan made from an undisturbed table can always be locked. */
  lemma PlanIsLockable(tasks: map<TaskId, Task>, limit: nat)
    requires UniqueNumbers(tasks)
    ensures Locking.AllDistinctBacklog(tasks, PlanFor(tasks, limit))
    ensures forall t :: t in PlanFor(tasks, limit) ==> t in Discovery.FindCandidates(tasks, limit)
  {
    var cs, plan := Candidates(tasks, limit), PlanFor(tasks, limit);
    Discovery.CandidatesAreTheFirstEligible(tasks, limit);
    PlannerTheorems.Conservation(limit, cs);
    PartOfDistinct(plan, Ids(cs));
    forall t | t in plan ensures Locking.IsBacklog(tasks, t) {
      assert t in Discovery.Eligible(tasks);
    }
  }

  /** In a cycle nothing is lost and only conflict keys hold a candidate back: every candidate is planned or excluded,
      each once, each exclusion is a block by a key, and the reasons are kept for exactly the excluded ids. */
  lemma CandidatesAreAccountedFor(tasks: map<TaskId, Task>, limit: nat)
    requires UniqueNumbers(tasks)
    ensures var xs := Exclusions(limit, Candidates(tasks, limit));
            && multiset(PlanFor(tasks, limit)) + multiset(ExcludedIds(xs))
               == multiset(Discovery.FindCandidates(tasks, limit))
            && NoDuplicates(Discovery.FindCandidates(tasks, limit))
            && (forall x :: x in xs ==> x.reason.BlockedByKey?)
            && ReasonMap(xs).Keys == ToSet(ExcludedIds(xs))
  {
    var cs := Candidates(tasks, limit);
    Discovery.CandidatesAreTheFirstEligible(tasks, limit);
    PlannerTheorems.PlanPartitions(limit, cs);
    PlannerTheorems.CapNeverExcludes(limit, cs);
    KeysOfReasons(Exclusions(limit, cs));
  }

  lemma KeysOfReasons(xs: seq<Exclusion>)
    ensures ReasonMap(xs).Keys == ToSet(ExcludedIds(xs))
  {
    forall t ensures t in ReasonMap(xs).Keys <==> t in ExcludedIds(xs) {
      if t in ReasonMap(xs).Keys {
        var i :| 0 <= i < |xs| && xs[i].taskId == t;
        assert ExcludedIds(xs)[i] == t;
      }
    }
  }

  /** Each listed row is prepared once, from the row it had at the start; no other row changes. */
  lemma {:induction false} BatchEffect(tasks: map<TaskId, Task>, ids: seq<TaskId>, env: TaskId -> Environment,
                                       config: Config)
    requires NoDuplicates(ids) && forall t :: t in ids ==> t in tasks
    ensures forall t :: t in tasks ==>
              PrepareBatch(tasks, ids, env, config)[t]
              == if t in ids then PreparedRow(t, tasks[t], env(t), config) else tasks[t]
  {
    if ids != [] {
      var n := |ids| - 1;
      assert ids == ids[..n] + [ids[n]];
      BatchEffect(tasks, ids[..n], env, config);
    }
  }

  lemma LastResult(tasks: map<TaskId, Task>, ids: seq<TaskId>, env: TaskId -> Environment, config: Config)
    requires NoDuplicates(ids) && (forall t :: t in ids ==> t in tasks) && ids != []
    ensures var n := |ids| - 1;
            PrepareResults(tasks, ids, env, config)
            == PrepareResults(tasks, ids[..n], env, config)
             + [PreparationResult(ids[n], tasks[ids[n]].number, OutcomeOf(tasks[ids[n]], env(ids[n]), config))]
  {
    var n := |ids| - 1;
    assert ids == ids[..n] + [ids[n]];
    BatchEffect(tasks, ids[..n], env, config);
  }

  /** One result per id, in order, with the outcome of that id's own row. */
  lemma {:induction false} ResultsFollowOrder(tasks: map<TaskId, Task>, ids: seq<TaskId>, env: TaskId -> Environment,
                                              config: Config)
    requires NoDuplicates(ids) && forall t :: t in ids ==> t in tasks
    ensures |PrepareResults(tasks, ids, env, config)| == |ids|
    ensures forall i :: 0 <= i < |ids| ==>
              PrepareResults(tasks, ids, env, config)[i]
              == PreparationResult(ids[i], tasks[ids[i]].number, OutcomeOf(tasks[ids[i]], env(ids[i]), config))
  {
    if ids != [] {
      LastResult(tasks, ids, env, config);
      ResultsFollowOrder(tasks, ids[..|ids| - 1], env, config);
    }
  }

  function ConflictResults(tasks: map<TaskId, Task>, ids: seq<TaskId>): seq<PreparationResult> {
    if ids == [] then [] else
      var n := |ids| - 1;
      ConflictResults(tasks, ids[..n]) +
      if ids[n] !in tasks then [] else [PreparationResult(ids[n], tasks[ids[n]].number, PreparationFailed(Conflict))]
  }

  /** A lost race reports every planned task that is taken, in the order of the plan, as a conflict. */
  lemma {:induction false} LostTasksAreReported(tasks: map<TaskId, Task>, ids: seq<TaskId>)
    requires forall t :: t in ids ==> t in tasks
    ensures |ConflictResults(tasks, ids)| == |ids|
    ensures forall i :: 0 <= i < |ids| ==>
              ConflictResults(tasks, ids)[i]
              == PreparationResult(ids[i], tasks[ids[i]].number, PreparationFailed(Conflict))
  {
    if ids != [] {
      var n := |ids| - 1;
      assert ids == ids[..n] + [ids[n]];
      LostTasksAreReported(tasks, ids[..n]);
    }
  }

  method ReportConflicts(s: Session, failed: seq<TaskId>) returns (results: seq<PreparationResult>)
    ensures results == ConflictResults(s.current.tasks, failed)
  {
    results := [];
    for i := 0 to |failed|
      invariant results == ConflictResults(s.current.tasks, failed[..i])
    {
      assert failed[..i + 1][..i] == failed[..i];
      if failed[i] in s.current.tasks {
        results := results
          + [PreparationResult(failed[i], s.current.tasks[failed[i]].number, PreparationFailed(Conflict))];
      }
    }
    assert failed[..|failed|] == failed;
  }

  method PrepareLocked(s: Session, locked: seq<TaskId>, env: TaskId -> Environment, config: Config)
    returns (results: seq<PreparationResult>)
    requires s.committed == s.current
    modifies s
    ensures s.committed == s.current
    ensures s.current == old(s.current).(tasks := PrepareBatch(old(s.current.tasks), locked, env, config))
    ensures results == PrepareResults(old(s.current.tasks), locked, env, config)
  {
    results := [];
    ghost var tasks := s.current.tasks;
    for i := 0 to |locked|
      invariant s.committed == s.current
      invariant s.current == old(s.current).(tasks := PrepareBatch(tasks, locked[..i], env, config))
      invariant results == PrepareResults(tasks, locked[..i], env, config)
    {
      assert locked[..i + 1][..i] == locked[..i];
      if locked[i] in s.current.tasks {
        var r := PrepareTaskContext(s, locked[i], env(locked[i]), config);
        results := results + [r];
      }
    }
    assert locked[..|locked|] == locked;
  }

  lemma NoCandidatesNoPlan(tasks: map<TaskId, Task>, limit: nat)
    requires UniqueNumbers(tasks) && Discovery.FindCandidates(tasks, limit) == []
    ensures PlanFor(tasks, limit) == []
  {
    assert Candidates(tasks, limit) == [];
    assert Included(limit, []) == [];
  }

  /** Steps 1 to 3: discover, classify, plan. No plan when there is no candidate. */
  method DiscoverAndPlan(tasks: map<TaskId, Task>, limit: nat, batchId: string) returns (plan: Option<BatchPlan>)
    requires UniqueNumbers(tasks)
    ensures plan.None? ==> PlanFor(tasks, limit) == []
    ensures plan.Some? ==> plan.value.taskIds == PlanFor(tasks, limit) && plan.value.batchId == batchId
  {
    var candidates := Discovery.FindCandidates(tasks, limit);
    if candidates == [] {
      NoCandidatesNoPlan(tasks, limit);
      return None;
    }
    Discovery.CandidatesAreTheFirstEligible(tasks, limit);
    var classifications := ClassifyBatch(candidates, tasks);
    var p := CreateBatchPlan(limit, classifications, batchId);
    return Some(p);
  }

  /** The ids that a cycle goes on to prepare: its plan, or after a lost race those of the plan that are still free. */
  ghost function Believed(tasks: map<TaskId, Task>, plan: seq<TaskId>): seq<TaskId> {
    if Locking.AllDistinctBacklog(tasks, plan) then plan else Locking.FreeIds(tasks, plan)
  }

  /** The table that the preparations of a cycle start from. */
  ghost function AfterLock(tasks: map<TaskId, Task>, plan: seq<TaskId>, stamp: Stamp, config: Config)
    : map<TaskId, Task>
  {
    if Locking.AllDistinctBacklog(tasks, plan) then LockedTable(tasks, plan, stamp, config) else tasks
  }

  /** The table after a cycle whose discovery saw `seen` and whose lock and preparations found `tasks`. */
  ghost function CycleAfter(seen: map<TaskId, Task>, tasks: map<TaskId, Task>, stamp: Stamp, env: TaskId -> Environment,
                            config: Config, lockingFails: bool): map<TaskId, Task>
    requires UniqueNumbers(seen)
  {
    var plan := PlanFor(seen, config.maxBatchSize);
    if plan == [] || lockingFails then tasks
    else PrepareBatch(AfterLock(tasks, plan, stamp, config), Believed(tasks, plan), env, config)
  }

  ghost function CycleResults(seen: map<TaskId, Task>, tasks: map<TaskId, Task>, stamp: Stamp,
                              env: TaskId -> Environment, config: Config, lockingFails: bool): seq<PreparationResult>
    requires UniqueNumbers(seen)
  {
    var plan := PlanFor(seen, config.maxBatchSize);
    if plan == [] then []
    else if lockingFails then ConflictResults(tasks, plan)
    else
      (if Locking.AllDistinctBacklog(tasks, plan) then [] else ConflictResults(tasks, Locking.ClaimedIds(tasks, plan)))
      + PrepareResults(AfterLock(tasks, plan, stamp, config), Believed(tasks, plan), env, config)
  }

  /** One cycle. Rivals may have changed the table between discovery and lock. */
  method RunPreparationCycle(s: Session, seen: map<TaskId, Task>, stamp: Stamp, env: TaskId -> Environment,
                             config: Config, lockingFails: bool)
    returns (results: seq<PreparationResult>)
    requires UniqueNumbers(seen) && s.committed == s.current
    modifies s
    ensures s.committed == s.current
    ensures s.current == old(s.current).(
              tasks := CycleAfter(seen, old(s.current.tasks), stamp, env, config, lockingFails))
    ensures results == CycleResults(seen, old(s.current.tasks), stamp, env, config, lockingFails)
  {
    results := [];
    var planned := DiscoverAndPlan(seen, config.maxBatchSize, stamp.batchId);
    if planned.None? {
      return;
    }
    var plan := planned.value;
    var lock := Locking.LockTasks(s, plan.taskIds, config.workerId, Some(plan.batchId), stamp.now, lockingFails);
    if !lock.success {
      results := ReportConflicts(s, lock.failedIds);
    }
    var prepared := PrepareLocked(s, lock.lockedIds, env, config);
    results := results + prepared;
  }

  lemma LockKeepsOutcome(task: Task, worker: string, stamp: Stamp, env: Environment, config: Config)
    ensures OutcomeOf(Locking.LockedRow(task, worker, Some(stamp.batchId), stamp.now), env, config)
         == OutcomeOf(task, env, config)
  {
  }

  lemma ResultsOfLocked(tasks: map<TaskId, Task>, plan: seq<TaskId>, stamp: Stamp, env: TaskId -> Environment,
                        config: Config, i: nat)
    requires NoDuplicates(plan) && (forall t :: t in plan ==> t in tasks) && i < |plan|
    ensures var results := PrepareResults(LockedTable(tasks, plan, stamp, config), plan, env, config);
            && |results| == |plan|
            && results[i] == PreparationResult(plan[i], tasks[plan[i]].number,
                                               OutcomeOf(tasks[plan[i]], env(plan[i]), config))
  {
    var locked := LockedTable(tasks, plan, stamp, config);
    ResultsFollowOrder(locked, plan, env, config);
    LockKeepsOutcome(tasks[plan[i]], config.workerId, stamp, env(plan[i]), config);
    assert plan[i] in ToSet(plan);
  }

  /** Without rivals the lock succeeds. */
  lemma UndisturbedCycle(tasks: map<TaskId, Task>, stamp: Stamp, env: TaskId -> Environment, config: Config)
    requires UniqueNumbers(tasks)
    ensures CycleAfter(tasks, tasks, stamp, env, config, false) == Cycle(tasks, stamp, env, config)
  {
    PlanIsLockable(tasks, config.maxBatchSize);
  }

  /** Without rivals the cycle reports, in order, for each planned task the outcome it would have on its own. */
  lemma UndisturbedResults(tasks: map<TaskId, Task>, stamp: Stamp, env: TaskId -> Environment, config: Config, i: nat)
    requires UniqueNumbers(tasks) && i < |PlanFor(tasks, config.maxBatchSize)|
    ensures var plan, results := PlanFor(tasks, config.maxBatchSize),
                                 CycleResults(tasks, tasks, stamp, env, config, false);
            && |results| == |plan| && plan[i] in tasks
            && results[i] == PreparationResult(plan[i], tasks[plan[i]].number,
                                               OutcomeOf(tasks[plan[i]], env(plan[i]), config))
  {
    PlanIsLockable(tasks, config.maxBatchSize);
    PlannedWereSeen(tasks, config.maxBatchSize);
    ResultsOfLocked(tasks, PlanFor(tasks, config.maxBatchSize), stamp, env, config, i);
  }

  lemma FreePart(tasks: map<TaskId, Task>, plan: seq<TaskId>, env: TaskId -> Environment, config: Config, t: TaskId)
    requires NoDuplicates(plan) && (forall u :: u in plan ==> u in tasks) && t in tasks
    ensures PrepareBatch(tasks, Locking.FreeIds(tasks, plan), env, config)[t]
         == if t in plan && Locking.IsBacklog(tasks, t) then PreparedRow(t, tasks[t], env(t), config) else tasks[t]
  {
    var free := Locking.FreeIds(tasks, plan);
    forall u ensures u in free <==> u in plan && Locking.LooksFree(tasks, u) {
      Locking.FreeIdsMembers(tasks, plan, u);
    }
    Locking.FreeIdsDistinct(tasks, plan);
    BatchEffect(tasks, free, env, config);
  }

  lemma PlannedWereSeen(seen: map<TaskId, Task>, limit: nat)
    requires UniqueNumbers(seen)
    ensures NoDuplicates(PlanFor(seen, limit)) && forall t :: t in PlanFor(seen, limit) ==> t in seen
  {
    PlanIsLockable(seen, limit);
    forall t | t in PlanFor(seen, limit) ensures t in seen {
      assert Locking.IsBacklog(seen, t);
    }
  }

  /** A cycle that lost the race for one task still prepares the others it planned, none of which it has locked;
      the tasks it lost are left as they are. */
  lemma LostRacePreparesUnheld(seen: map<TaskId, Task>, tasks: map<TaskId, Task>, stamp: Stamp,
                               env: TaskId -> Environment, config: Config, lost: TaskId, u: TaskId)
    requires UniqueNumbers(seen) && seen.Keys <= tasks.Keys
    requires lost in PlanFor(seen, config.maxBatchSize) && !Locking.IsBacklog(tasks, lost)
    requires u in PlanFor(seen, config.maxBatchSize) && Locking.IsBacklog(tasks, u)
    ensures lost in tasks
    ensures var after := CycleAfter(seen, tasks, stamp, env, config, false);
            && after.Keys == tasks.Keys
            && after[lost] == tasks[lost]
            && after[u] == PreparedRow(u, tasks[u], env(u), config)
            && after[u].lockedBy == tasks[u].lockedBy
            && (OutcomeOf(tasks[u], env(u), config) == Success ==> after[u].status == TaskStatus.Prepared)
  {
    var plan := PlanFor(seen, config.maxBatchSize);
    PlannedWereSeen(seen, config.maxBatchSize);
    assert !Locking.AllDistinctBacklog(tasks, plan);
    FreePart(tasks, plan, env, config, lost);
    FreePart(tasks, plan, env, config, u);
    PreparationStatuses(u, tasks[u], env(u), config);
  }

  lemma BelievedMembers(tasks: map<TaskId, Task>, plan: seq<TaskId>, t: TaskId)
    requires NoDuplicates(plan) && forall u :: u in plan ==> u in tasks
    ensures t in Believed(tasks, plan) <==> t in plan && Locking.IsBacklog(tasks, t)
  {
    if !Locking.AllDistinctBacklog(tasks, plan) { Locking.FreeIdsMembers(tasks, plan, t); }
  }

  ghost predicate AllWaiting(tasks: map<TaskId, Task>, plan: seq<TaskId>) {
    forall t :: t in plan ==> Locking.IsBacklog(tasks, t)
  }

  ghost predicate NoneWaiting(tasks: map<TaskId, Task>, plan: seq<TaskId>) {
    forall t :: t in plan ==> !Locking.IsBacklog(tasks, t)
  }

  /** A cycle prepares only tasks it has locked exactly when, at its lock, all of its plan is still in the backlog or
      none of it is. */
  lemma PreparesOnlyItsOwnIff(seen: map<TaskId, Task>, tasks: map<TaskId, Task>, stamp: Stamp, config: Config)
    requires UniqueNumbers(seen) && seen.Keys <= tasks.Keys
    requires forall t :: Locking.IsBacklog(tasks, t) ==> tasks[t].lockedBy == None
    ensures var plan := PlanFor(seen, config.maxBatchSize);
            (forall t :: t in Believed(tasks, plan) ==>
               t in tasks && AfterLock(tasks, plan, stamp, config)[t].lockedBy == Some(config.workerId))
            <==> AllWaiting(tasks, plan) || NoneWaiting(tasks, plan)
  {
    var plan := PlanFor(seen, config.maxBatchSize);
    PlannedWereSeen(seen, config.maxBatchSize);
    forall t ensures t in Believed(tasks, plan) <==> t in plan && Locking.IsBacklog(tasks, t) {
      BelievedMembers(tasks, plan, t);
    }
  }

  /** What a cycle reports after a lost race: first a conflict for each planned task that is no longer in the backlog,
      then the outcome of each of the others, both in the order of the plan. */
  lemma LostRaceResults(seen: map<TaskId, Task>, tasks: map<TaskId, Task>, stamp: Stamp, env: TaskId -> Environment,
                        config: Config)
    requires UniqueNumbers(seen) && seen.Keys <= tasks.Keys
    requires exists t :: t in PlanFor(seen, config.maxBatchSize) && !Locking.IsBacklog(tasks, t)
    ensures var plan, results := PlanFor(seen, config.maxBatchSize),
                                 CycleResults(seen, tasks, stamp, env, config, false);
            var taken, free := Locking.ClaimedIds(tasks, plan), Locking.FreeIds(tasks, plan);
            && (forall t :: t in taken <==> t in plan && t in tasks && tasks[t].status != TaskStatus.Backlog)
            && (forall t :: t in free <==> t in plan && t in tasks && tasks[t].status == TaskStatus.Backlog)
            && |results| == |taken| + |free|
            && (forall i :: 0 <= i < |taken| ==>
                  results[i] == PreparationResult(taken[i], tasks[taken[i]].number, PreparationFailed(Conflict)))
            && (forall i :: 0 <= i < |free| ==>
                  results[|taken| + i]
                  == PreparationResult(free[i], tasks[free[i]].number, OutcomeOf(tasks[free[i]], env(free[i]), config)))
  {
    var plan := PlanFor(seen, config.maxBatchSize);
    var taken, free := Locking.ClaimedIds(tasks, plan), Locking.FreeIds(tasks, plan);
    PlannedWereSeen(seen, config.maxBatchSize);
    assert !Locking.AllDistinctBacklog(tasks, plan);
    forall t ensures t in taken <==> t in plan && t in tasks && tasks[t].status != TaskStatus.Backlog {
      Locking.ClaimedIdsMembers(tasks, plan, t);
    }
    forall t ensures t in free <==> t in plan && Locking.LooksFree(tasks, t) {
      Locking.FreeIdsMembers(tasks, plan, t);
    }
    Locking.FreeIdsDistinct(tasks, plan);
    LostTasksAreReported(tasks, taken);
    ResultsFollowOrder(tasks, free, env, config);
  }
}
