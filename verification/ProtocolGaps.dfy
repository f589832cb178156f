/** Where the protocol stops: when a passed check suffices, which tasks are stranded, when a release is the owner's. */
module ProtocolGaps {
  import opened Prelude
  import opened Tables
  import opened Protocol
  import opened ProtocolTasks
  import Preparation
  import QueuedRecovery
  import Claim
  import Locking
  import ProtocolExecutions

  // ----- when a passed check suffices -----

  /** Step k claims the task with this execution. */
  ghost predicate ClaimsWith(s: State, ls: seq<Label>, site: Preparation.Config, t: TaskId, k: nat, e: ExecutionId)
    requires k < |ls|
  {
    ChangeOf(StateAt(s, ls, k, site), ls[k], t) == ClaimedNow && ls[k].execution == e
  }

  ghost predicate ClaimedSince(s: State, ls: seq<Label>, site: Preparation.Config, t: TaskId, e: ExecutionId, j: nat)
    requires j <= |ls|
  {
    exists k :: 0 <= k < j && ClaimsWith(s, ls, site, t, k, e)
  }

  ghost predicate Belongs(s: State, e: ExecutionId, t: TaskId) {
    e in s.db.executions && s.db.executions[e].taskId == t
  }

  lemma NewExecutionIsClaimed(s: State, l: Label, site: Preparation.Config, e: ExecutionId, t: TaskId)
    requires e !in s.db.executions && Belongs(Apply(s, l, site), e, t)
    ensures ChangeOf(s, l, t) == ClaimedNow && l.execution == e
  {
    ExecutionRowAfter(s, l, site, e);
  }

  lemma ClaimedExecutionBelongs(s: State, l: Label, site: Preparation.Config, t: TaskId)
    requires ChangeOf(s, l, t) == ClaimedNow
    ensures Belongs(Apply(s, l, site), l.execution, t)
  {
  }

  /** An execution seen later was there from the start, or a claim since then made it. */
  lemma {:induction false} Origin(s: State, ls: seq<Label>, site: Preparation.Config, t: TaskId, e: ExecutionId, j: nat)
    requires j <= |ls| && Belongs(StateAt(s, ls, j, site), e, t)
    ensures ClaimedSince(s, ls, site, t, e, j)
            || (Belongs(s, e, t)
                && (IsFinal(s.db.executions[e].status) ==> IsFinal(StateAt(s, ls, j, site).db.executions[e].status)))
  {
    if j == 0 {
      assert ls[..0] == [];
    } else {
      var before := StateAt(s, ls, j - 1, site);
      NextState(s, ls, j - 1, site);
      if e in before.db.executions {
        ProtocolExecutions.NoStepReactivates(before, ls[j - 1], site, e);
        Origin(s, ls, site, t, e, j - 1);
        if k :| 0 <= k < j - 1 && ClaimsWith(s, ls, site, t, k, e) {
          assert ClaimedSince(s, ls, site, t, e, j);
        }
      } else {
        NewExecutionIsClaimed(before, ls[j - 1], site, e, t);
        assert ClaimsWith(s, ls, site, t, j - 1, e);
      }
    }
  }

  lemma {:induction false} ClaimLasts(s: State, ls: seq<Label>, site: Preparation.Config, t: TaskId, e: ExecutionId,
                                      k: nat, j: nat)
    requires k < j <= |ls| && ClaimsWith(s, ls, site, t, k, e)
    ensures Belongs(StateAt(s, ls, j, site), e, t)
  {
    NextState(s, ls, j - 1, site);
    if k == j - 1 {
      ClaimedExecutionBelongs(StateAt(s, ls, k, site), ls[k], site, t);
    } else {
      ClaimLasts(s, ls, site, t, e, k, j - 1);
      ProtocolExecutions.NoStepReactivates(StateAt(s, ls, j - 1, site), ls[j - 1], site, e);
    }
  }

  /** Some claim made in this run still has an active execution at its end. */
  ghost predicate ClaimStillActive(s: State, ls: seq<Label>, site: Preparation.Config, t: TaskId) {
    exists e :: ClaimedSince(s, ls, site, t, e, |ls|)
      && e in Run(s, ls, site).db.executions && IsActive(Run(s, ls, site).db.executions[e])
  }

  /** From a state without an active execution of a task, a run leads to one with one exactly when a claim of the task
      was won on the way and its execution is still active. */
  lemma ActiveIffClaimedSince(s: State, ls: seq<Label>, site: Preparation.Config, t: TaskId)
    requires !HasActive(s.db.executions, t)
    ensures HasActive(Run(s, ls, site).db.executions, t) <==> ClaimStillActive(s, ls, site, t)
  {
    assert ls[..|ls|] == ls;
    var after := Run(s, ls, site);
    if HasActive(after.db.executions, t) {
      var e :| e in after.db.executions && after.db.executions[e].taskId == t && IsActive(after.db.executions[e]);
      Origin(s, ls, site, t, e, |ls|);
    }
    if ClaimStillActive(s, ls, site, t) {
      var e :| ClaimedSince(s, ls, site, t, e, |ls|) && e in after.db.executions && IsActive(after.db.executions[e]);
      var k :| 0 <= k < |ls| && ClaimsWith(s, ls, site, t, k, e);
      ClaimLasts(s, ls, site, t, e, k, |ls|);
    }
  }

  /** An insert keeps the index exactly when its task has no active execution. */
  lemma InsertKeepsIndexIff(db: Tables, t: TaskId, runner: string, e: ExecutionId, now: Time)
    requires t in db.tasks && e !in db.executions && OneActivePerTask(db.executions)
    ensures OneActivePerTask(Claim.Claimed(db, t, runner, e, now).executions) <==> !HasActive(db.executions, t)
  {
    var after := Claim.Claimed(db, t, runner, e, now).executions;
    assert after[e].taskId == t && IsActive(after[e]);
    if HasActive(db.executions, t) {
      var f :| f in db.executions && db.executions[f].taskId == t && IsActive(db.executions[f]);
      assert after[f] == db.executions[f];
    }
  }

  /** The check of a claim is enough without the index exactly when no claim of the task has been won since, or the
      executions of those that were have ended. */
  lemma CheckSufficesIff(s: State, ls: seq<Label>, site: Preparation.Config, runner: string, t: TaskId, e: ExecutionId,
                         now: Time)
    requires Enabled(s, Check(runner, t)) && OneActivePerTask(Run(s, ls, site).db.executions)
    requires t in Run(s, ls, site).db.tasks && e !in Run(s, ls, site).db.executions
    ensures OneActivePerTask(Claim.Claimed(Run(s, ls, site).db, t, runner, e, now).executions)
            <==> !ClaimStillActive(s, ls, site, t)
  {
    ActiveIffClaimedSince(s, ls, site, t);
    InsertKeepsIndexIff(Run(s, ls, site).db, t, runner, e, now);
  }

  // ----- stranded tasks -----

  /** Queued without a lock time, and in no worker's hands. */
  ghost predicate Stranded(s: State, t: TaskId) {
    && t in s.db.tasks && s.db.tasks[t].status == TaskStatus.Queued && s.db.tasks[t].queuedAt == None
    && forall w :: t !in QueueOf(s, w)
  }

  lemma StepKeepsStranded(s: State, l: Label, site: Preparation.Config, t: TaskId)
    requires Stranded(s, t)
    ensures Stranded(Apply(s, l, site), t)
    ensures Apply(s, l, site).db.tasks[t] == s.db.tasks[t]
  {
    var after := Apply(s, l, site);
    TaskRowAfter(s, l, site, t);
    forall w ensures t !in QueueOf(after, w) {
      assert t !in QueueOf(s, w);
      if Enabled(s, l) && l.LockFails? { Locking.FreeIdsMembers(s.db.tasks, l.ids, t); }
    }
  }

  lemma {:induction false} StrandedForever(s: State, ls: seq<Label>, site: Preparation.Config, t: TaskId)
    requires Stranded(s, t)
    ensures Stranded(Run(s, ls, site), t)
    ensures Run(s, ls, site).db.tasks[t] == s.db.tasks[t]
  {
    if ls != [] {
      StrandedForever(s, ls[..|ls| - 1], site, t);
      StepKeepsStranded(Run(s, ls[..|ls| - 1], site), ls[|ls| - 1], site, t);
    }
  }

  ghost predicate Moves(s: State, ls: seq<Label>, site: Preparation.Config, t: TaskId) {
    t in Run(s, ls, site).db.tasks && t in s.db.tasks && Run(s, ls, site).db.tasks[t] != s.db.tasks[t]
  }

  lemma RunFrom(s: State, l: Label, ls: seq<Label>, site: Preparation.Config)
    ensures Run(s, [l] + ls, site) == Run(Apply(s, l, site), ls, site)
    ensures Run(s, [l], site) == Apply(s, l, site)
  {
    assert [l][..0] == [];
    RunConcat(s, [l], ls, site);
  }

  /** One failing preparation after the other reaches every task of a worker's queue. */
  lemma {:induction false} QueueReaches(s: State, site: Preparation.Config, t: TaskId, w: string, i: nat)
    returns (ls: seq<Label>)
    requires t in s.db.tasks && i < |QueueOf(s, w)| && QueueOf(s, w)[i] == t
    ensures Moves(s, ls, site, t)
    decreases i
  {
    var l := Prepare(w, Preparation.Crashes("", None));
    var next := Apply(s, l, site);
    TaskRowAfter(s, l, site, t);
    if QueueOf(s, w)[0] == t {
      ls := [l];
      RunFrom(s, l, [], site);
      assert next.db.tasks[t].attempts == s.db.tasks[t].attempts + 1;
    } else {
      assert QueueOf(next, w) == QueueOf(s, w)[1..];
      ls := QueueReaches(next, site, t, w, i - 1);
      RunFrom(s, l, ls, site);
      ls := [l] + ls;
    }
  }

  lemma RecoveryReaches(s: State, site: Preparation.Config, t: TaskId) returns (ls: seq<Label>)
    requires t in s.db.tasks && s.db.tasks[t].status == TaskStatus.Queued && s.db.tasks[t].queuedAt.Some?
    ensures Moves(s, ls, site, t)
  {
    var l := RecoverQueued(QueuedRecovery.Policy(s.db.tasks[t].queuedAt.value, "", 3, _ => Preparation.Recoverable));
    ls := [l];
    RunFrom(s, l, [], site);
    TaskRowAfter(s, l, site, t);
  }

  /** A QUEUED task can still move, in some run, exactly when it has a lock time or is in some worker's queue. */
  lemma MovesIffNotStranded(s: State, site: Preparation.Config, t: TaskId)
    requires t in s.db.tasks && s.db.tasks[t].status == TaskStatus.Queued
    ensures (exists ls :: Moves(s, ls, site, t)) <==> !Stranded(s, t)
  {
    if Stranded(s, t) {
      forall ls ensures !Moves(s, ls, site, t) { StrandedForever(s, ls, site, t); }
    } else if s.db.tasks[t].queuedAt.Some? {
      var ls := RecoveryReaches(s, site, t);
    } else {
      var w :| t in QueueOf(s, w);
      var i :| 0 <= i < |QueueOf(s, w)| && QueueOf(s, w)[i] == t;
      var ls := QueueReaches(s, site, t, w, i);
    }
  }

  /** A claim strands its task exactly when the PREPARED row has no lock time, which the runner sees, and no worker
      still means to prepare the task, which it does not: the queues are the workers' own. */
  lemma ClaimStrandsIff(s: State, l: Label, site: Preparation.Config)
    requires Enabled(s, l) && l.ClaimWins?
    ensures Stranded(Apply(s, l, site), l.task)
            <==> s.db.tasks[l.task].queuedAt == None && forall w :: l.task !in QueueOf(s, w)
  {
    assert forall w :: QueueOf(Apply(s, l, site), w) == QueueOf(s, w);
  }

  // ----- whose lock a release drops -----

  /** The step takes the task out of its owner's hands: a release, or any stale recovery. */
  ghost predicate Unlocks(s: State, l: Label, site: Preparation.Config, t: TaskId) {
    ChangeOf(s, l, t) == Recovered || Frees(s, l, site, t)
  }

  ghost predicate LocksAgain(s: State, l: Label, w: string) {
    Enabled(s, l) && l.Lock? && l.worker == w
  }

  ghost predicate OwnedBy(s: State, t: TaskId, w: string) {
    t in s.db.tasks && s.db.tasks[t].lockedBy == Some(w)
  }

  lemma OwnerStep(s: State, l: Label, site: Preparation.Config, t: TaskId, w: string)
    requires t in s.db.tasks && !LocksAgain(s, l, w)
    requires OwnedBy(s, t, w) ==> !InBacklog(s, t)
    ensures t in Apply(s, l, site).db.tasks
    ensures OwnedBy(Apply(s, l, site), t, w) <==> OwnedBy(s, t, w) && !Unlocks(s, l, site, t)
  {
    TaskRowAfter(s, l, site, t);
  }

  lemma OwnerNext(s: State, ls: seq<Label>, site: Preparation.Config, t: TaskId, w: string, k: nat)
    requires k < |ls| && t in StateAt(s, ls, k, site).db.tasks && !LocksAgain(StateAt(s, ls, k, site), ls[k], w)
    requires OwnedBy(StateAt(s, ls, k, site), t, w) ==> !InBacklog(StateAt(s, ls, k, site), t)
    ensures t in StateAt(s, ls, k + 1, site).db.tasks
    ensures OwnedBy(StateAt(s, ls, k + 1, site), t, w)
            <==> OwnedBy(StateAt(s, ls, k, site), t, w) && !Unlocks(StateAt(s, ls, k, site), ls[k], site, t)
  {
    NextState(s, ls, k, site);
    OwnerStep(StateAt(s, ls, k, site), ls[k], site, t, w);
  }

  lemma LockerOwns(s: State, l: Label, site: Preparation.Config, t: TaskId)
    requires Locks(s, l, t)
    ensures OwnedBy(Apply(s, l, site), t, l.worker)
  {
    TaskRowAfter(s, l, site, t);
  }

  ghost predicate UnlockedBetween(s: State, ls: seq<Label>, site: Preparation.Config, t: TaskId, i: nat, j: nat)
    requires i <= j <= |ls|
  {
    exists k :: i < k < j && Unlocks(StateAt(s, ls, k, site), ls[k], site, t)
  }

  lemma OneMoreStep(s: State, ls: seq<Label>, site: Preparation.Config, t: TaskId, i: nat, j: nat)
    requires i < j - 1 < |ls|
    ensures UnlockedBetween(s, ls, site, t, i, j)
            <==> UnlockedBetween(s, ls, site, t, i, j - 1) || Unlocks(StateAt(s, ls, j - 1, site), ls[j - 1], site, t)
  {
    if k :| i < k < j && Unlocks(StateAt(s, ls, k, site), ls[k], site, t) {
      assert k == j - 1 || k < j - 1;
    }
  }

  lemma NotUnlockedIsHeld(s: State, ls: seq<Label>, site: Preparation.Config, t: TaskId, i: nat, j: nat)
    requires i < j <= |ls| && Locks(StateAt(s, ls, i, site), ls[i], t) && !UnlockedBetween(s, ls, site, t, i, j)
    ensures t in StateAt(s, ls, j, site).db.tasks && !InBacklog(StateAt(s, ls, j, site), t)
  {
    forall k | i < k < j ensures !Frees(StateAt(s, ls, k, site), ls[k], site, t) {
      assert !Unlocks(StateAt(s, ls, k, site), ls[k], site, t);
    }
    HeldUntilFreed(s, ls, site, t, i, j);
  }

  ghost predicate LockedAgainBetween(s: State, ls: seq<Label>, site: Preparation.Config, w: string, i: nat, j: nat)
    requires i <= j <= |ls|
  {
    exists k :: i < k < j && LocksAgain(StateAt(s, ls, k, site), ls[k], w)
  }

  lemma NotLockedAgain(s: State, ls: seq<Label>, site: Preparation.Config, w: string, i: nat, j: nat)
    requires i < j - 1 < |ls| && !LockedAgainBetween(s, ls, site, w, i, j)
    ensures !LockedAgainBetween(s, ls, site, w, i, j - 1) && !LocksAgain(StateAt(s, ls, j - 1, site), ls[j - 1], w)
  {
  }

  /** After a worker's lock of a task, and until it locks again, the task is that worker's exactly as long as nothing
      has unlocked it. */
  lemma {:induction false} OwnerIffNotUnlocked(s: State, ls: seq<Label>, site: Preparation.Config, t: TaskId, w: string,
                                               i: nat, j: nat)
    requires i < j <= |ls| && Locks(StateAt(s, ls, i, site), ls[i], t) && ls[i].worker == w
    requires !LockedAgainBetween(s, ls, site, w, i, j)
    ensures t in StateAt(s, ls, j, site).db.tasks
    ensures OwnedBy(StateAt(s, ls, j, site), t, w) <==> !UnlockedBetween(s, ls, site, t, i, j)
  {
    if i == j - 1 {
      NextState(s, ls, i, site);
      LockerOwns(StateAt(s, ls, i, site), ls[i], site, t);
    } else {
      NotLockedAgain(s, ls, site, w, i, j);
      OwnerIffNotUnlocked(s, ls, site, t, w, i, j - 1);
      if !UnlockedBetween(s, ls, site, t, i, j - 1) { NotUnlockedIsHeld(s, ls, site, t, i, j - 1); }
      OwnerNext(s, ls, site, t, w, j - 1);
      OneMoreStep(s, ls, site, t, i, j);
    }
  }

  // ----- the worker's queue -----

  /** Any attempt of the worker to lock, won or lost: it fills the worker's queue. */
  ghost predicate TriesLock(s: State, l: Label, w: string) {
    Enabled(s, l) && ((l.Lock? && l.worker == w) || (l.LockFails? && l.worker == w))
  }

  ghost predicate LatestTry(s: State, ls: seq<Label>, site: Preparation.Config, w: string, i: nat, j: nat)
    requires i < j <= |ls|
  {
    TriesLock(StateAt(s, ls, i, site), ls[i], w)
    && forall k :: i < k < j ==> !TriesLock(StateAt(s, ls, k, site), ls[k], w)
  }

  lemma QueueStep(s: State, l: Label, site: Preparation.Config, w: string, t: TaskId)
    requires t in QueueOf(Apply(s, l, site), w) && !TriesLock(s, l, w)
    ensures t in QueueOf(s, w)
  {
  }

  lemma LatestTryExtends(s: State, ls: seq<Label>, site: Preparation.Config, w: string, i: nat, j: nat)
    requires i < j < |ls| && LatestTry(s, ls, site, w, i, j) && !TriesLock(StateAt(s, ls, j, site), ls[j], w)
    ensures LatestTry(s, ls, site, w, i, j + 1)
  {
  }

  lemma QueueBefore(ls: seq<Label>, site: Preparation.Config, w: string, t: TaskId, k: nat)
    requires k < |ls| && t in QueueOf(StateAt(INITIAL, ls, k + 1, site), w)
    requires !TriesLock(StateAt(INITIAL, ls, k, site), ls[k], w)
    ensures t in QueueOf(StateAt(INITIAL, ls, k, site), w)
  {
    NextState(INITIAL, ls, k, site);
    QueueStep(StateAt(INITIAL, ls, k, site), ls[k], site, w, t);
  }

  /** What a worker means to prepare comes from its latest attempt to lock. */
  lemma {:induction false} QueueComesFromTry(ls: seq<Label>, site: Preparation.Config, w: string, t: TaskId, j: nat)
    returns (i: nat)
    requires j <= |ls| && t in QueueOf(StateAt(INITIAL, ls, j, site), w)
    ensures i < j && LatestTry(INITIAL, ls, site, w, i, j) && t in QueueOf(StateAt(INITIAL, ls, i + 1, site), w)
  {
    if j == 0 {
      assert false;
    } else if TriesLock(StateAt(INITIAL, ls, j - 1, site), ls[j - 1], w) {
      i := j - 1;
    } else {
      QueueBefore(ls, site, w, t, j - 1);
      i := QueueComesFromTry(ls, site, w, t, j - 1);
      LatestTryExtends(INITIAL, ls, site, w, i, j - 1);
    }
  }

  lemma NotOwnedStep(s: State, l: Label, site: Preparation.Config, t: TaskId, w: string)
    requires !OwnedBy(s, t, w) && !LocksAgain(s, l, w)
    ensures !OwnedBy(Apply(s, l, site), t, w)
  {
    TaskRowAfter(s, l, site, t);
  }

  lemma {:induction false} StaysUnowned(s: State, ls: seq<Label>, site: Preparation.Config, t: TaskId, w: string,
                                        i: nat, j: nat)
    requires i <= j <= |ls| && !OwnedBy(StateAt(s, ls, i, site), t, w)
    requires forall k :: i <= k < j ==> !LocksAgain(StateAt(s, ls, k, site), ls[k], w)
    ensures !OwnedBy(StateAt(s, ls, j, site), t, w)
  {
    if i < j {
      StaysUnowned(s, ls, site, t, w, i, j - 1);
      NextState(s, ls, j - 1, site);
      NotOwnedStep(StateAt(s, ls, j - 1, site), ls[j - 1], site, t, w);
    }
  }

  /** After a lost race, and until it locks again, a worker owns none of the tasks it goes on with. */
  lemma LoserOwnsNothing(ls: seq<Label>, site: Preparation.Config, t: TaskId, i: nat, j: nat)
    requires i < j <= |ls| && ls[i].LockFails? && LatestTry(INITIAL, ls, site, ls[i].worker, i, j)
    requires t in QueueOf(StateAt(INITIAL, ls, i + 1, site), ls[i].worker)
    ensures !OwnedBy(StateAt(INITIAL, ls, j, site), t, ls[i].worker)
  {
    var s, w := StateAt(INITIAL, ls, i, site), ls[i].worker;
    NextState(INITIAL, ls, i, site);
    Locking.FreeIdsMembers(s.db.tasks, ls[i].ids, t);
    RunKeepsTable(ls[..i], site);
    assert t in s.db.tasks ==> RowInvariant(t, s.db.tasks[t], site);
    StaysUnowned(INITIAL, ls, site, t, w, i, j);
  }

  /** The worker's latest attempt to lock took the task, and nothing has unlocked it since. */
  ghost predicate HoldsByLatestTry(ls: seq<Label>, site: Preparation.Config, t: TaskId, w: string, i: nat, j: nat)
    requires i < j <= |ls|
  {
    && LatestTry(INITIAL, ls, site, w, i, j)
    && Locks(StateAt(INITIAL, ls, i, site), ls[i], t)
    && !UnlockedBetween(INITIAL, ls, site, t, i, j)
  }

  lemma OwnerByTry(ls: seq<Label>, site: Preparation.Config, t: TaskId, w: string, i: nat, j: nat)
    requires i < j <= |ls| && LatestTry(INITIAL, ls, site, w, i, j) && Locks(StateAt(INITIAL, ls, i, site), ls[i], t)
    ensures OwnedBy(StateAt(INITIAL, ls, j, site), t, w) <==> !UnlockedBetween(INITIAL, ls, site, t, i, j)
  {
    forall k | i < k < j ensures !LocksAgain(StateAt(INITIAL, ls, k, site), ls[k], w) {
      assert !TriesLock(StateAt(INITIAL, ls, k, site), ls[k], w);
    }
    OwnerIffNotUnlocked(INITIAL, ls, site, t, w, i, j);
  }

  /** A worker that is about to prepare a task owns it exactly when its latest attempt to lock was a won one that took
      the task, and nothing has unlocked it since. So its release drops its own lock then, and no one's or another
      worker's lock otherwise. */
  lemma PreparesOwnIff(ls: seq<Label>, site: Preparation.Config, w: string, t: TaskId, j: nat)
    requires j <= |ls| && t in QueueOf(StateAt(INITIAL, ls, j, site), w)
    ensures OwnedBy(StateAt(INITIAL, ls, j, site), t, w)
            <==> exists i :: 0 <= i < j && HoldsByLatestTry(ls, site, t, w, i, j)
  {
    var i := QueueComesFromTry(ls, site, w, t, j);
    if ls[i].LockFails? {
      LoserOwnsNothing(ls, site, t, i, j);
    } else {
      NextState(INITIAL, ls, i, site);
      assert Locks(StateAt(INITIAL, ls, i, site), ls[i], t);
    }
    forall k | 0 <= k < j && HoldsByLatestTry(ls, site, t, w, k, j)
      ensures OwnedBy(StateAt(INITIAL, ls, j, site), t, w)
    {
      OwnerByTry(ls, site, t, w, k, j);
    }
    if OwnedBy(StateAt(INITIAL, ls, j, site), t, w) {
      OwnerByTry(ls, site, t, w, i, j);
      assert HoldsByLatestTry(ls, site, t, w, i, j);
    }
  }

  // ----- what a step needs -----

  /** Worker w turns to the next plan only after it has worked off the last one. */
  lemma TriesOnlyWhenDone(s: State, l: Label, w: string)
    requires TriesLock(s, l, w)
    ensures QueueOf(s, w) == []
  {
  }

  lemma CheckedStep(s: State, l: Label, site: Preparation.Config, r: string, t: TaskId)
    requires (r, t) in Apply(s, l, site).checked
    ensures (r, t) in s.checked || (l == Check(r, t) && Enabled(s, l))
  {
  }

  lemma {:induction false} CheckedBefore(ls: seq<Label>, site: Preparation.Config, r: string, t: TaskId, k: nat)
    returns (i: nat)
    requires k <= |ls| && (r, t) in StateAt(INITIAL, ls, k, site).checked
    ensures i < k && ls[i] == Check(r, t) && !HasActive(StateAt(INITIAL, ls, i, site).db.executions, t)
  {
    if k == 0 {
      assert false;
    } else {
      NextState(INITIAL, ls, k - 1, site);
      CheckedStep(StateAt(INITIAL, ls, k - 1, site), ls[k - 1], site, r, t);
      if (r, t) in StateAt(INITIAL, ls, k - 1, site).checked {
        i := CheckedBefore(ls, site, r, t, k - 1);
      } else {
        i := k - 1;
      }
    }
  }

  /** In every run a claim is won only by a runner that has checked that very task before, at a moment when it had no
      active execution. */
  lemma ClaimsAreChecked(ls: seq<Label>, site: Preparation.Config, t: TaskId, k: nat) returns (i: nat)
    requires k < |ls| && ChangeOf(StateAt(INITIAL, ls, k, site), ls[k], t) == ClaimedNow
    ensures i < k && ls[i] == Check(ls[k].runner, t) && !HasActive(StateAt(INITIAL, ls, i, site).db.executions, t)
  {
    i := CheckedBefore(ls, site, ls[k].runner, t, k);
  }
}
