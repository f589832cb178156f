/** Cycles, polls and sweeps are runs of the transition system. */
module ProtocolCycle {
  import opened Prelude
  import opened Tables
  import opened Protocol
  import Preparation
  import Orchestrator
  import Locking
  import Polling
  import Stale
  import ExecutionRecovery

  function PrepareLabels(worker: string, plan: seq<TaskId>, env: TaskId -> Preparation.Environment): (ls: seq<Label>)
    ensures |ls| == |plan|
  {
    seq(|plan|, i requires 0 <= i < |plan| => Prepare(worker, env(plan[i])))
  }

  /** The first step of a cycle: the lock succeeds, or it finds a planned row taken. */
  ghost function LockLabel(tasks: map<TaskId, Task>, plan: seq<TaskId>, stamp: Orchestrator.Stamp,
                           config: Preparation.Config): Label
  {
    if Locking.AllDistinctBacklog(tasks, plan) then Lock(config.workerId, plan, Some(stamp.batchId), stamp.now)
    else LockFails(config.workerId, plan)
  }

  ghost function CycleLabels(tasks: map<TaskId, Task>, plan: seq<TaskId>, stamp: Orchestrator.Stamp,
                             env: TaskId -> Preparation.Environment, config: Preparation.Config): seq<Label>
  {
    [LockLabel(tasks, plan, stamp, config)] + PrepareLabels(config.workerId, Orchestrator.Believed(tasks, plan), env)
  }

  lemma {:induction false} PreparesInTurn(s: State, plan: seq<TaskId>, k: nat, env: TaskId -> Preparation.Environment,
                                          config: Preparation.Config)
    requires k <= |plan| && QueueOf(s, config.workerId) == plan
    ensures var after := Run(s, PrepareLabels(config.workerId, plan, env)[..k], config);
            && after.db == s.db.(tasks := Orchestrator.PrepareBatch(s.db.tasks, plan[..k], env, config))
            && QueueOf(after, config.workerId) == plan[k..]
  {
    if k > 0 {
      var ls := PrepareLabels(config.workerId, plan, env);
      PreparesInTurn(s, plan, k - 1, env, config);
      assert ls[..k][..k - 1] == ls[..k - 1];
      assert plan[..k][..k - 1] == plan[..k - 1];
    }
  }

  /** The first step leaves the table that the preparations start from, and the right queue. */
  lemma LockIsEnabled(s: State, plan: seq<TaskId>, stamp: Orchestrator.Stamp, config: Preparation.Config)
    requires QueueOf(s, config.workerId) == [] && plan != []
    ensures var lock := LockLabel(s.db.tasks, plan, stamp, config);
            && Enabled(s, lock)
            && Run(s, [lock], config).db
               == s.db.(tasks := Orchestrator.AfterLock(s.db.tasks, plan, stamp, config))
            && QueueOf(Run(s, [lock], config), config.workerId) == Orchestrator.Believed(s.db.tasks, plan)
  {
    var lock := LockLabel(s.db.tasks, plan, stamp, config);
    assert [lock][..0] == [];
    assert Run(s, [lock], config) == Apply(s, lock, config);
  }

  lemma WholePlan(s: State, plan: seq<TaskId>, env: TaskId -> Preparation.Environment, config: Preparation.Config)
    requires QueueOf(s, config.workerId) == plan
    ensures var after := Run(s, PrepareLabels(config.workerId, plan, env), config);
            && after.db == s.db.(tasks := Orchestrator.PrepareBatch(s.db.tasks, plan, env, config))
            && QueueOf(after, config.workerId) == []
  {
    PreparesInTurn(s, plan, |plan|, env, config);
    assert PrepareLabels(config.workerId, plan, env)[..|plan|] == PrepareLabels(config.workerId, plan, env);
    assert plan[..|plan|] == plan;
  }

  /** A cycle, whether it wins or loses the race for its plan, is one lock step followed by preparations. */
  lemma CycleIsARun(s: State, seen: map<TaskId, Task>, stamp: Orchestrator.Stamp,
                    env: TaskId -> Preparation.Environment, config: Preparation.Config)
    requires UniqueNumbers(seen) && QueueOf(s, config.workerId) == []
    requires Orchestrator.PlanFor(seen, config.maxBatchSize) != []
    ensures var ls := CycleLabels(s.db.tasks, Orchestrator.PlanFor(seen, config.maxBatchSize), stamp, env, config);
            && Enabled(s, ls[0])
            && Run(s, ls, config).db
               == s.db.(tasks := Orchestrator.CycleAfter(seen, s.db.tasks, stamp, env, config, false))
            && QueueOf(Run(s, ls, config), config.workerId) == []
  {
    var plan := Orchestrator.PlanFor(seen, config.maxBatchSize);
    var lock, believed := LockLabel(s.db.tasks, plan, stamp, config), Orchestrator.Believed(s.db.tasks, plan);
    LockIsEnabled(s, plan, stamp, config);
    WholePlan(Run(s, [lock], config), believed, env, config);
    RunConcat(s, [lock], PrepareLabels(config.workerId, believed, env), config);
  }

  // ----- polls -----

  function PollLabels(runner: string, polled: seq<TaskId>, newIds: seq<ExecutionId>, now: Time): seq<Label>
    requires |polled| <= |newIds|
  {
    if polled == [] then [] else
      var n := |polled| - 1;
      PollLabels(runner, polled[..n], newIds, now)
      + [Check(runner, polled[n]), ClaimWins(runner, polled[n], newIds[n], now)]
  }

  lemma AttemptIsARun(s: State, t: TaskId, runner: string, e: ExecutionId, now: Time, site: Preparation.Config)
    requires e !in s.db.executions
    ensures Run(s, [Check(runner, t), ClaimWins(runner, t, e, now)], site).db
         == Polling.AfterAttempt(s.db, t, runner, e, now)
  {
    var ls := [Check(runner, t), ClaimWins(runner, t, e, now)];
    assert ls[..1] == [Check(runner, t)] && ls[..1][..0] == [];
    assert Run(s, ls[..1], site) == Apply(s, Check(runner, t), site);
    assert Run(s, ls, site) == Apply(Apply(s, Check(runner, t), site), ClaimWins(runner, t, e, now), site);
  }

  /** A poll that commits its claims together leaves what checking and claiming one task after the other leaves. */
  lemma {:induction false} PollIsARun(s: State, polled: seq<TaskId>, runner: string, newIds: seq<ExecutionId>,
                                      now: Time, site: Preparation.Config)
    requires |polled| <= |newIds| && NoDuplicates(polled) && Polling.FreshIds(s.db, newIds)
    requires OneActivePerTask(s.db.executions)
    ensures Run(s, PollLabels(runner, polled, newIds, now), site).db
         == Polling.ClaimEach(s.db, polled, runner, newIds, now)
  {
    if polled != [] {
      var n := |polled| - 1;
      PollIsARun(s, polled[..n], runner, newIds, now, site);
      var ls := PollLabels(runner, polled[..n], newIds, now);
      Polling.ClaimsAreIndependent(s.db, polled[..n], runner, newIds, now);
      AttemptIsARun(Run(s, ls, site), polled[n], runner, newIds[n], now, site);
      RunConcat(s, ls, [Check(runner, polled[n]), ClaimWins(runner, polled[n], newIds[n], now)], site);
    }
  }

  // ----- sweeps -----

  function SweepLabels(order: seq<ExecutionId>, draws: ExecutionId -> real, now: Time): seq<Label> {
    if order == [] then [] else
      var n := |order| - 1;
      SweepLabels(order[..n], draws, now) + [StalePick(order[n], draws(order[n]), now)]
  }

  function WithExecutions(s: State, executions: map<ExecutionId, TaskExecution>): State {
    s.(db := s.db.(executions := executions))
  }

  lemma PickIsAStep(s: State, executions: map<ExecutionId, TaskExecution>, e: ExecutionId, draw: real, now: Time,
                    site: Preparation.Config)
    requires e in executions
    ensures Apply(WithExecutions(s, executions), StalePick(e, draw, now), site)
         == WithExecutions(s, executions[e := ExecutionRecovery.AfterStalePick(executions[e], draw, now)])
  {
  }

  lemma RunSnoc(s: State, ls: seq<Label>, l: Label, site: Preparation.Config)
    ensures Run(s, ls + [l], site) == Apply(Run(s, ls, site), l, site)
  {
    assert (ls + [l])[..|ls|] == ls;
  }

  lemma {:induction false} PicksAreARun(s: State, order: seq<ExecutionId>, draws: ExecutionId -> real, now: Time,
                                        site: Preparation.Config)
    requires NoDuplicates(order) && forall e :: e in order ==> e in s.db.executions
    ensures Run(s, SweepLabels(order, draws, now), site)
         == WithExecutions(s, ExecutionRecovery.PickAll(s.db.executions, ToSet(order), draws, now))
  {
    if order == [] {
      assert ExecutionRecovery.PickAll(s.db.executions, {}, draws, now) == s.db.executions;
    } else {
      var n := |order| - 1;
      var e := order[n];
      PicksAreARun(s, order[..n], draws, now, site);
      ExecutionRecovery.PickNext(s.db.executions, order, n, draws, now);
      assert order[..n + 1] == order;
      RunSnoc(s, SweepLabels(order[..n], draws, now), StalePick(e, draws(e), now), site);
      PickIsAStep(s, ExecutionRecovery.PickAll(s.db.executions, ToSet(order[..n]), draws, now), e, draws(e), now, site);
    }
  }

  /** A sweep over the selected executions, in whatever order the query returns them, is one stale pick after the
      other. */
  lemma SweepIsARun(s: State, order: seq<ExecutionId>, th: Stale.Thresholds, draws: ExecutionId -> real, now: Time,
                    site: Preparation.Config)
    requires NoDuplicates(order) && ToSet(order) == Stale.Selected(s.db.executions, th, now)
    ensures Run(s, SweepLabels(order, draws, now), site).db.executions
         == ExecutionRecovery.PickAll(s.db.executions, Stale.Selected(s.db.executions, th, now), draws, now)
    ensures Run(s, SweepLabels(order, draws, now), site).db.tasks == s.db.tasks
  {
    forall e | e in order ensures e in s.db.executions { assert e in ToSet(order); }
    PicksAreARun(s, order, draws, now, site);
  }
}
