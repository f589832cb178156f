/** Repeated preparation cycles empty the backlog, once per task and in order. */
module Drain {
  import opened Prelude
  import opened Tables
  import opened Classification
  import opened BatchPlanning
  import opened Preparation
  import opened Discovery
  import opened Orchestrator
  import opened PlannerTheorems

  /** Every eligible task would be prepared successfully. */
  ghost predicate Preparable(tasks: map<TaskId, Task>, env: TaskId -> Environment, config: Config) {
    forall t :: t in Eligible(tasks) ==> OutcomeOf(tasks[t], env(t), config) == Success
  }

  // ----- the effect of one cycle -----

  /** The planned tasks went from the backlog to PREPARED; every other row is as it was. */
  ghost predicate Prepares(before: map<TaskId, Task>, plan: seq<TaskId>, after: map<TaskId, Task>) {
    && after.Keys == before.Keys
    && (forall t :: t in before && t !in plan ==> after[t] == before[t])
    && (forall t :: t in plan ==>
          t in before && IsEligible(before[t])
          && after[t].status == TaskStatus.Prepared && after[t].number == before[t].number)
  }

  lemma LockThenPrepare(id: TaskId, task: Task, worker: string, stamp: Stamp, env: Environment, config: Config)
    requires OutcomeOf(task, env, config) == Success
    ensures var row := PreparedRow(id, Locking.LockedRow(task, worker, Some(stamp.batchId), stamp.now), env, config);
            row.status == TaskStatus.Prepared && row.number == task.number
  {
  }

  lemma PlannedRow(tasks: map<TaskId, Task>, stamp: Stamp, env: TaskId -> Environment, config: Config, t: TaskId)
    requires UniqueNumbers(tasks) && Preparable(tasks, env, config)
    requires t in PlanFor(tasks, config.maxBatchSize)
    ensures t in tasks && IsEligible(tasks[t])
    ensures var row := Cycle(tasks, stamp, env, config)[t];
            row.status == TaskStatus.Prepared && row.number == tasks[t].number
  {
    var plan := PlanFor(tasks, config.maxBatchSize);
    PlanIsLockable(tasks, config.maxBatchSize);
    assert t in Eligible(tasks) by { CandidatesAreTheFirstEligible(tasks, config.maxBatchSize); }
    PlannedWereSeen(tasks, config.maxBatchSize);
    BatchEffect(LockedTable(tasks, plan, stamp, config), plan, env, config);
    LockThenPrepare(t, tasks[t], config.workerId, stamp, env(t), config);
  }

  lemma OtherRow(tasks: map<TaskId, Task>, stamp: Stamp, env: TaskId -> Environment, config: Config, t: TaskId)
    requires UniqueNumbers(tasks) && t in tasks && t !in PlanFor(tasks, config.maxBatchSize)
    ensures Cycle(tasks, stamp, env, config)[t] == tasks[t]
  {
    var plan := PlanFor(tasks, config.maxBatchSize);
    PlannedWereSeen(tasks, config.maxBatchSize);
    BatchEffect(LockedTable(tasks, plan, stamp, config), plan, env, config);
  }

  lemma CycleRows(tasks: map<TaskId, Task>, stamp: Stamp, env: TaskId -> Environment, config: Config)
    requires UniqueNumbers(tasks) && Preparable(tasks, env, config)
    ensures Prepares(tasks, PlanFor(tasks, config.maxBatchSize), Cycle(tasks, stamp, env, config))
  {
    var plan, after := PlanFor(tasks, config.maxBatchSize), Cycle(tasks, stamp, env, config);
    forall t | t in tasks && t !in plan ensures after[t] == tasks[t] { OtherRow(tasks, stamp, env, config, t); }
    forall t | t in plan
      ensures t in tasks && IsEligible(tasks[t])
      ensures after[t].status == TaskStatus.Prepared && after[t].number == tasks[t].number
    {
      PlannedRow(tasks, stamp, env, config, t);
    }
  }

  lemma PreparesKeeps(before: map<TaskId, Task>, plan: seq<TaskId>, after: map<TaskId, Task>,
                      env: TaskId -> Environment, config: Config)
    requires UniqueNumbers(before) && Preparable(before, env, config) && Prepares(before, plan, after)
    ensures UniqueNumbers(after) && Preparable(after, env, config)
    ensures Eligible(after) == Eligible(before) - ToSet(plan)
  {
  }

  lemma CycleEffect(tasks: map<TaskId, Task>, stamp: Stamp, env: TaskId -> Environment, config: Config)
    requires UniqueNumbers(tasks) && Preparable(tasks, env, config)
    ensures var plan, after := PlanFor(tasks, config.maxBatchSize), Cycle(tasks, stamp, env, config);
            && Prepares(tasks, plan, after)
            && UniqueNumbers(after)
            && Preparable(after, env, config)
            && Eligible(after) == Eligible(tasks) - ToSet(plan)
  {
    var plan, after := PlanFor(tasks, config.maxBatchSize), Cycle(tasks, stamp, env, config);
    CycleRows(tasks, stamp, env, config);
    PreparesKeeps(tasks, plan, after, env, config);
  }

  /** The candidate at the head of the order is always planned. */
  lemma FirstIsPlanned(tasks: map<TaskId, Task>, limit: nat)
    requires UniqueNumbers(tasks) && limit >= 1 && Eligible(tasks) != {}
    ensures PlanFor(tasks, limit) != []
  {
    var cs := Candidates(tasks, limit);
    CandidatesAreTheFirstEligible(tasks, limit);
    assert |cs| == |Ids(cs)| >= 1;
    assert cs[..0] == [];
    assert VerdictOf(limit, cs, 0) == Scheduled;
    PlannerFollowsVerdicts(limit, cs, 0);
    assert |Included(limit, cs)| > 0;
  }

  // ----- many cycles -----

  lemma CycleKeepsNumber(tasks: map<TaskId, Task>, stamp: Stamp, env: TaskId -> Environment, config: Config, t: TaskId)
    requires UniqueNumbers(tasks) && t in tasks
    ensures Cycle(tasks, stamp, env, config).Keys == tasks.Keys
    ensures Cycle(tasks, stamp, env, config)[t].number == tasks[t].number
  {
    var plan := PlanFor(tasks, config.maxBatchSize);
    if t !in plan {
      OtherRow(tasks, stamp, env, config, t);
    } else {
      PlannedWereSeen(tasks, config.maxBatchSize);
      var locked := LockedTable(tasks, plan, stamp, config);
      BatchEffect(locked, plan, env, config);
      FailuresAreCounted(t, locked[t], env(t), config);
    }
  }

  lemma CycleKeepsNumbers(tasks: map<TaskId, Task>, stamp: Stamp, env: TaskId -> Environment, config: Config)
    requires UniqueNumbers(tasks)
    ensures UniqueNumbers(Cycle(tasks, stamp, env, config))
  {
    var after := Cycle(tasks, stamp, env, config);
    forall t | t in after ensures t in tasks && after[t].number == tasks[t].number {
      CycleKeepsNumber(tasks, stamp, env, config, t);
    }
  }

  /** The table after some undisturbed cycles. */
  function Rounds(tasks: map<TaskId, Task>, stamps: seq<Stamp>, env: TaskId -> Environment, config: Config)
    : (after: map<TaskId, Task>)
    requires UniqueNumbers(tasks)
    ensures UniqueNumbers(after)
  {
    if stamps == [] then tasks else
      var n := |stamps| - 1;
      var before := Rounds(tasks, stamps[..n], env, config);
      CycleKeepsNumbers(before, stamps[n], env, config);
      Cycle(before, stamps[n], env, config)
  }

  /** The ids that cycle k prepares. */
  function BatchAt(tasks: map<TaskId, Task>, stamps: seq<Stamp>, env: TaskId -> Environment, config: Config, k: nat)
    : seq<TaskId>
    requires UniqueNumbers(tasks) && k < |stamps|
  {
    PlanFor(Rounds(tasks, stamps[..k], env, config), config.maxBatchSize)
  }

  /** The ids prepared by all cycles, in the order of their preparation. */
  function Log(tasks: map<TaskId, Task>, stamps: seq<Stamp>, env: TaskId -> Environment, config: Config): seq<TaskId>
    requires UniqueNumbers(tasks)
  {
    if stamps == [] then [] else
      var n := |stamps| - 1;
      Log(tasks, stamps[..n], env, config) + BatchAt(tasks, stamps, env, config, n)
  }

  lemma NextRound(tasks: map<TaskId, Task>, stamps: seq<Stamp>, env: TaskId -> Environment, config: Config, k: nat)
    requires UniqueNumbers(tasks) && k < |stamps|
    ensures Rounds(tasks, stamps[..k + 1], env, config)
         == Cycle(Rounds(tasks, stamps[..k], env, config), stamps[k], env, config)
  {
    assert stamps[..k + 1][..k] == stamps[..k];
  }

  lemma {:induction false} StaysPreparable(tasks: map<TaskId, Task>, stamps: seq<Stamp>, env: TaskId -> Environment,
                                           config: Config)
    requires UniqueNumbers(tasks) && Preparable(tasks, env, config)
    ensures Preparable(Rounds(tasks, stamps, env, config), env, config)
  {
    if stamps != [] {
      var n := |stamps| - 1;
      StaysPreparable(tasks, stamps[..n], env, config);
      CycleEffect(Rounds(tasks, stamps[..n], env, config), stamps[n], env, config);
    }
  }

  lemma CycleShrinksBacklog(tasks: map<TaskId, Task>, stamp: Stamp, env: TaskId -> Environment, config: Config)
    requires UniqueNumbers(tasks) && Preparable(tasks, env, config) && config.maxBatchSize >= 1
    ensures var after := Eligible(Cycle(tasks, stamp, env, config));
            if Eligible(tasks) == {} then after == {} else |after| < |Eligible(tasks)|
  {
    CycleEffect(tasks, stamp, env, config);
    if Eligible(tasks) != {} {
      FirstIsPlanned(tasks, config.maxBatchSize);
      var first := PlanFor(tasks, config.maxBatchSize)[0];
      assert first in ToSet(PlanFor(tasks, config.maxBatchSize)) && first in Eligible(tasks);
      SubsetSize(Eligible(Cycle(tasks, stamp, env, config)), Eligible(tasks) - {first});
    }
  }

  lemma {:induction false} BacklogShrinks(tasks: map<TaskId, Task>, stamps: seq<Stamp>, env: TaskId -> Environment,
                                          config: Config)
    requires UniqueNumbers(tasks) && Preparable(tasks, env, config) && config.maxBatchSize >= 1
    ensures var left := Eligible(Rounds(tasks, stamps, env, config));
            left == {} || |left| + |stamps| <= |Eligible(tasks)|
  {
    if stamps != [] {
      var n := |stamps| - 1;
      BacklogShrinks(tasks, stamps[..n], env, config);
      StaysPreparable(tasks, stamps[..n], env, config);
      CycleShrinksBacklog(Rounds(tasks, stamps[..n], env, config), stamps[n], env, config);
    }
  }

  /** As many cycles as there are eligible tasks are enough to leave none. */
  lemma BacklogDrains(tasks: map<TaskId, Task>, stamps: seq<Stamp>, env: TaskId -> Environment, config: Config)
    requires UniqueNumbers(tasks) && Preparable(tasks, env, config)
    requires config.maxBatchSize >= 1 && |stamps| >= |Eligible(tasks)|
    ensures Eligible(Rounds(tasks, stamps, env, config)) == {}
  {
    BacklogShrinks(tasks, stamps, env, config);
  }

  /** Two preparations of different tasks, one after the other. */
  lemma PreparesCompose(a: map<TaskId, Task>, p: seq<TaskId>, b: map<TaskId, Task>, q: seq<TaskId>,
                        c: map<TaskId, Task>)
    requires Prepares(a, p, b) && Prepares(b, q, c)
    requires NoDuplicates(p) && NoDuplicates(q)
    ensures Prepares(a, p + q, c) && NoDuplicates(p + q)
  {
    forall t | t in q ensures t !in p && b[t] == a[t] {
    }
    forall i, j | 0 <= i < j < |p + q| ensures (p + q)[i] != (p + q)[j] {
      if i < |p| <= j { assert (p + q)[i] in p && (p + q)[j] in q; }
    }
  }

  /** Over any number of cycles each task that left the backlog was prepared exactly once. */
  lemma {:induction false} EachTaskOnce(tasks: map<TaskId, Task>, stamps: seq<Stamp>, env: TaskId -> Environment,
                                        config: Config)
    requires UniqueNumbers(tasks) && Preparable(tasks, env, config)
    ensures var after, log := Rounds(tasks, stamps, env, config), Log(tasks, stamps, env, config);
            && NoDuplicates(log)
            && Prepares(tasks, log, after)
            && Eligible(after) == Eligible(tasks) - ToSet(log)
  {
    if stamps != [] {
      var n := |stamps| - 1;
      var before, log := Rounds(tasks, stamps[..n], env, config), Log(tasks, stamps[..n], env, config);
      var plan, after := PlanFor(before, config.maxBatchSize), Rounds(tasks, stamps, env, config);
      EachTaskOnce(tasks, stamps[..n], env, config);
      StaysPreparable(tasks, stamps[..n], env, config);
      CycleEffect(before, stamps[n], env, config);
      assert NoDuplicates(plan) by { PlanIsLockable(before, config.maxBatchSize); }
      PreparesCompose(tasks, log, before, plan, after);
      PreparesKeeps(tasks, log + plan, after, env, config);
    }
  }

  // ----- order -----

  /** While an earlier task with the same key waits, a later one is not planned. */
  lemma EarlierBlocksLater(tasks: map<TaskId, Task>, limit: nat, t: TaskId, u: TaskId)
    requires UniqueNumbers(tasks) && t in Eligible(tasks) && u in Eligible(tasks)
    requires Before(tasks[t], tasks[u])
    requires RequiresWrite(tasks[t]) && RequiresWrite(tasks[u]) && WriteKey(tasks[t]) == WriteKey(tasks[u])
    ensures u !in PlanFor(tasks, limit)
  {
    var q, cs := FindCandidates(tasks, limit), Candidates(tasks, limit);
    if u in q {
      CandidatesAreTheFirstEligible(tasks, limit);
      var j :| 0 <= j < |q| && q[j] == u;
      assert t in q;
      var i :| 0 <= i < |q| && q[i] == t;
      assert cs[i] == Classified(t, tasks[t]) && cs[j] == Classified(u, tasks[u]);
      LaterOfKeyNotIncluded(limit, cs, i, j);
    } else {
      PlanIsLockable(tasks, limit);
    }
  }

  ghost predicate SameKeyInOrder(tasks: map<TaskId, Task>, t: TaskId, u: TaskId) {
    && t in Eligible(tasks) && u in Eligible(tasks) && Before(tasks[t], tasks[u])
    && RequiresWrite(tasks[t]) && RequiresWrite(tasks[u]) && WriteKey(tasks[t]) == WriteKey(tasks[u])
  }

  /** Unless it takes the earlier of the two, a cycle leaves both as they are. */
  lemma BothStillWait(tasks: map<TaskId, Task>, stamp: Stamp, env: TaskId -> Environment, config: Config,
                      t: TaskId, u: TaskId)
    requires UniqueNumbers(tasks) && Preparable(tasks, env, config) && SameKeyInOrder(tasks, t, u)
    requires t !in PlanFor(tasks, config.maxBatchSize)
    ensures SameKeyInOrder(Cycle(tasks, stamp, env, config), t, u)
  {
    CycleEffect(tasks, stamp, env, config);
    EarlierBlocksLater(tasks, config.maxBatchSize, t, u);
  }

  lemma OneMoreWait(tasks: map<TaskId, Task>, stamps: seq<Stamp>, env: TaskId -> Environment, config: Config,
                    t: TaskId, u: TaskId, k: nat)
    requires UniqueNumbers(tasks) && Preparable(tasks, env, config) && k < |stamps|
    requires SameKeyInOrder(Rounds(tasks, stamps[..k], env, config), t, u)
    requires t !in BatchAt(tasks, stamps, env, config, k)
    ensures SameKeyInOrder(Rounds(tasks, stamps[..k + 1], env, config), t, u)
  {
    NextRound(tasks, stamps, env, config, k);
    StaysPreparable(tasks, stamps[..k], env, config);
    BothStillWait(Rounds(tasks, stamps[..k], env, config), stamps[k], env, config, t, u);
  }

  /** As long as no cycle has taken the earlier of the two, both wait. */
  lemma {:induction false} BothWaitUntil(tasks: map<TaskId, Task>, stamps: seq<Stamp>, env: TaskId -> Environment,
                                         config: Config, t: TaskId, u: TaskId, k: nat)
    requires UniqueNumbers(tasks) && Preparable(tasks, env, config) && SameKeyInOrder(tasks, t, u)
    requires k <= |stamps| && forall i :: 0 <= i < k ==> t !in BatchAt(tasks, stamps, env, config, i)
    ensures SameKeyInOrder(Rounds(tasks, stamps[..k], env, config), t, u)
  {
    if k > 0 {
      BothWaitUntil(tasks, stamps, env, config, t, u, k - 1);
      OneMoreWait(tasks, stamps, env, config, t, u, k - 1);
    }
  }

  /** Tasks that share a conflict key are prepared in discovery order, in different cycles. */
  lemma SameKeyKeepsOrder(tasks: map<TaskId, Task>, stamps: seq<Stamp>, env: TaskId -> Environment, config: Config,
                          t: TaskId, u: TaskId, j: nat)
    requires UniqueNumbers(tasks) && Preparable(tasks, env, config) && SameKeyInOrder(tasks, t, u)
    requires j < |stamps| && u in BatchAt(tasks, stamps, env, config, j)
    ensures exists i :: 0 <= i < j && t in BatchAt(tasks, stamps, env, config, i)
  {
    if forall i :: 0 <= i < j ==> t !in BatchAt(tasks, stamps, env, config, i) {
      BothWaitUntil(tasks, stamps, env, config, t, u, j);
      EarlierBlocksLater(Rounds(tasks, stamps[..j], env, config), config.maxBatchSize, t, u);
      assert false;
    }
  }
}
