/** Runs that show what can go wrong. In each of them every step is enabled, time does not go back, a lock is lost
    only when some row is taken, and a sweep picks only what the stale query selects under the default thresholds. */
module ProtocolWitnesses {
  import opened Prelude
  import opened Tables
  import opened Protocol
  import opened ProtocolGaps
  import Preparation
  import QueuedRecovery
  import Claim
  import Locking
  import Stale
  import ExecutionRecovery
  import ProtocolTasks

  const SITE: Preparation.Config := Preparation.Config("worker", 10, "/worktrees", "/repo")

  /** The default age at which a queued task counts as stale: 30 minutes. */
  const QUEUED_TIMEOUT: Time := 1800.0

  // ----- plausible runs -----

  function TimeOf(l: Label): Option<Time> {
    match l
    case Lock(_, _, _, now) => Some(now)
    case RecoverQueued(policy) => Some(policy.cutoff + QUEUED_TIMEOUT)
    case ClaimWins(_, _, _, now) => Some(now)
    case DispatchPrompt(_, _, now) => Some(now)
    case StalePick(_, _, now) => Some(now)
    case HandleError(_, _, _, _, _, now) => Some(now)
    case _ => None
  }

  /** The latest time that any step carries. */
  function Clock(ls: seq<Label>): Time {
    if ls == [] then 0.0 else
      var last := TimeOf(ls[|ls| - 1]);
      if last.Some? then last.value else Clock(ls[..|ls| - 1])
  }

  ghost predicate PlausibleStep(s: State, l: Label, clock: Time) {
    && Enabled(s, l)
    && (TimeOf(l).Some? ==> clock <= TimeOf(l).value)
    && (l.LockFails? ==> !Locking.AllDistinctBacklog(s.db.tasks, l.ids))
    && (l.StalePick? ==> Stale.IsSelected(s.db.executions[l.execution], Stale.DEFAULT_THRESHOLDS, l.now))
  }

  ghost predicate Plausible(ls: seq<Label>) {
    ls != [] ==>
      var n := |ls| - 1;
      Plausible(ls[..n]) && PlausibleStep(Run(INITIAL, ls[..n], SITE), ls[n], Clock(ls[..n]))
  }

  /** A plausible run to a state, and the time at its end. */
  ghost predicate Reaches(ls: seq<Label>, s: State, clock: Time) {
    Plausible(ls) && Run(INITIAL, ls, SITE) == s && Clock(ls) == clock
  }

  lemma Then(ls: seq<Label>, s: State, clock: Time, l: Label) returns (longer: seq<Label>)
    requires Reaches(ls, s, clock) && PlausibleStep(s, l, clock)
    ensures longer == ls + [l]
    ensures Reaches(longer, Apply(s, l, SITE), if TimeOf(l).Some? then TimeOf(l).value else clock)
  {
    longer := ls + [l];
    assert longer[..|ls|] == ls;
  }

  // ----- states with one task -----

  function Snapshot(task: Task, executions: map<ExecutionId, TaskExecution>, queues: map<string, seq<TaskId>>,
                    checked: set<(string, TaskId)>): State
  {
    State(Tables(map[0 := task], executions), queues, checked)
  }

  function NewTask(kind: TaskType): Task {
    Task(1, kind, Details(None, None, None), None, 0.0, TaskStatus.Backlog, None, None, None, 0, None, None, None, None,
         None)
  }

  function LockBy(w: string, now: Time): Label {
    Lock(w, [0], None, now)
  }

  function RecoverAt(now: Time): Label {
    RecoverQueued(QueuedRecovery.Policy(now - QUEUED_TIMEOUT, "", 3, _ => Preparation.Recoverable))
  }

  function PrepareBy(w: string): Label {
    Prepare(w, Preparation.Ready("commit"))
  }

  function Prepared(task: Task): Task {
    task.(status := TaskStatus.Prepared, contextVersion := Some(Preparation.CONTEXT_VERSION))
  }

  function TakenBack(task: Task): Task {
    task.(status := TaskStatus.Backlog, queuedAt := None, lockedBy := None)
  }

  lemma AddTask(kind: TaskType) returns (ls: seq<Label>)
    ensures Reaches(ls, Snapshot(NewTask(kind), map[], map[], {}), 0.0)
  {
    var none: seq<Label> := [];
    assert Reaches(none, INITIAL, 0.0);
    ls := Then(none, INITIAL, 0.0, Intake(0, NewTask(kind)));
    assert Apply(INITIAL, Intake(0, NewTask(kind)), SITE) == Snapshot(NewTask(kind), map[], map[], {});
  }

  // Each of the following lemmas takes a plausible run one step further.

  lemma LockNext(ls: seq<Label>, s: State, clock: Time, w: string, now: Time) returns (longer: seq<Label>)
    requires Reaches(ls, s, clock) && clock <= now
    requires s.db.tasks.Keys == {0} && s.db.tasks[0].status == TaskStatus.Backlog && QueueOf(s, w) == []
    ensures Reaches(longer, Snapshot(Locking.LockedRow(s.db.tasks[0], w, None, now), s.db.executions,
                                     s.queues[w := [0]], s.checked), now)
  {
    assert Locking.AllDistinctBacklog(s.db.tasks, [0]);
    assert 0 in ToSet([0]);
    longer := Then(ls, s, clock, LockBy(w, now));
  }

  lemma PrepareNext(ls: seq<Label>, s: State, clock: Time, w: string) returns (longer: seq<Label>)
    requires Reaches(ls, s, clock)
    requires s.db.tasks.Keys == {0} && QueueOf(s, w) == [0]
    requires s.db.tasks[0].number == 1 && s.db.tasks[0].kind == Analysis
    requires s.db.tasks[0].details == Details(None, None, None)
    ensures Reaches(longer, Snapshot(Prepared(s.db.tasks[0]), s.db.executions, s.queues[w := []], s.checked), clock)
  {
    PreparesAnalysis(s.db.tasks[0]);
    var next := Apply(s, PrepareBy(w), SITE);
    assert QueueOf(s, w)[0] == 0 && QueueOf(s, w)[1..] == [];
    assert next.queues == s.queues[w := []];
    assert next.db.tasks == s.db.tasks[0 := Prepared(s.db.tasks[0])] == map[0 := Prepared(s.db.tasks[0])];
    assert next == Snapshot(Prepared(s.db.tasks[0]), s.db.executions, s.queues[w := []], s.checked);
    longer := Then(ls, s, clock, PrepareBy(w));
  }

  lemma PreparesAnalysis(task: Task)
    requires task.number == 1 && task.kind == Analysis && task.details == Details(None, None, None)
    ensures Preparation.PreparedRow(0, task, Preparation.Ready("commit"), SITE) == Prepared(task)
  {
  }

  lemma RecoverNext(ls: seq<Label>, s: State, clock: Time, now: Time) returns (longer: seq<Label>)
    requires Reaches(ls, s, clock) && clock <= now
    requires s.db.tasks.Keys == {0} && QueuedRecovery.IsStale(s.db.tasks[0], RecoverAt(now).policy)
    requires s.db.tasks[0].attempts == 0 && s.db.tasks[0].lastError == None
    ensures Reaches(longer, Snapshot(TakenBack(s.db.tasks[0]), s.db.executions, s.queues, s.checked), now)
  {
    assert 0 in QueuedRecovery.StaleTasks(s.db.tasks, RecoverAt(now).policy);
    longer := Then(ls, s, clock, RecoverAt(now));
  }

  lemma CheckNext(ls: seq<Label>, s: State, clock: Time, runner: string) returns (longer: seq<Label>)
    requires Reaches(ls, s, clock) && s.db.executions == map[]
    ensures Reaches(longer, s.(checked := s.checked + {(runner, 0)}), clock)
  {
    longer := Then(ls, s, clock, Check(runner, 0));
  }

  lemma ClaimNext(ls: seq<Label>, s: State, clock: Time, runner: string, now: Time) returns (longer: seq<Label>)
    requires Reaches(ls, s, clock) && clock <= now
    requires s.db.tasks.Keys == {0} && s.db.tasks[0].status == TaskStatus.Prepared
    requires s.db.executions == map[] && (runner, 0) in s.checked
    ensures Reaches(longer, Snapshot(s.db.tasks[0].(status := TaskStatus.Queued),
                                     map[0 := Claim.NewExecution(0, runner, now)], s.queues, s.checked - {(runner, 0)}),
                    now)
  {
    longer := Then(ls, s, clock, ClaimWins(runner, 0, 0, now));
  }

  lemma PickNext(ls: seq<Label>, s: State, clock: Time, now: Time) returns (longer: seq<Label>)
    requires Reaches(ls, s, clock) && clock <= now
    requires s.db.executions.Keys == {0} && Stale.IsSelected(s.db.executions[0], Stale.DEFAULT_THRESHOLDS, now)
    ensures Reaches(longer, s.(db := s.db.(executions := map[0 := Picked(s.db.executions[0], now)])), now)
  {
    longer := Then(ls, s, clock, StalePick(0, 0.5, now));
    assert Apply(s, StalePick(0, 0.5, now), SITE).db.executions == map[0 := Picked(s.db.executions[0], now)];
  }

  function Picked(row: TaskExecution, now: Time): TaskExecution {
    ExecutionRecovery.AfterStalePick(row, 0.5, now)
  }

  // ----- the check alone -----

  function LockedTask(kind: TaskType, w: string, now: Time): Task {
    Locking.LockedRow(NewTask(kind), w, None, now)
  }

  function FirstExecution(now: Time): map<ExecutionId, TaskExecution> {
    map[0 := Claim.NewExecution(0, "first", now)]
  }

  /** A slow preparation ends just before the lock counts as stale. */
  lemma PreparedJustInTime() returns (ls: seq<Label>)
    ensures Reaches(ls, Snapshot(Prepared(LockedTask(Analysis, "worker", 0.0)), map[], map["worker" := []], {}), 0.0)
  {
    ls := AddTask(Analysis);
    ls := LockNext(ls, Snapshot(NewTask(Analysis), map[], map[], {}), 0.0, "worker", 0.0);
    var locked := LockedTask(Analysis, "worker", 0.0);
    ls := PrepareNext(ls, Snapshot(locked, map[], map["worker" := [0]], {}), 0.0, "worker");
  }

  /** Two runners pass the check, one claims. */
  lemma ClaimJustInTime() returns (ls: seq<Label>)
    ensures Reaches(ls, Snapshot(Prepared(LockedTask(Analysis, "worker", 0.0)).(status := TaskStatus.Queued),
                                 FirstExecution(1797.0), map["worker" := []], {("second", 0)}), 1797.0)
  {
    ls := PreparedJustInTime();
    var s := Snapshot(Prepared(LockedTask(Analysis, "worker", 0.0)), map[], map["worker" := []], {});
    ls := CheckNext(ls, s, 0.0, "first");
    ls := CheckNext(ls, s.(checked := {} + {("first", 0)}), 0.0, "second");
    var both := {} + {("first", 0)} + {("second", 0)};
    ls := ClaimNext(ls, s.(checked := both), 0.0, "first", 1797.0);
    assert both - {("first", 0)} == {("second", 0)};
  }

  /** The task comes back to PREPARED within seconds, its first execution still active. */
  lemma PreparedAgain() returns (ls: seq<Label>, s: State)
    ensures Reaches(ls, s, 1801.0) && s.db.tasks.Keys == {0} && s.db.tasks[0].status == TaskStatus.Prepared
    ensures s.db.executions == FirstExecution(1797.0) && s.checked == {("second", 0)}
  {
    ls := ClaimJustInTime();
    var executions, second := FirstExecution(1797.0), {("second", 0)};
    var task := Prepared(LockedTask(Analysis, "worker", 0.0)).(status := TaskStatus.Queued);
    ls := RecoverNext(ls, Snapshot(task, executions, map["worker" := []], second), 1797.0, 1800.0);
    task := TakenBack(task);
    ls := LockNext(ls, Snapshot(task, executions, map["worker" := []], second), 1800.0, "worker", 1801.0);
    task := Locking.LockedRow(task, "worker", None, 1801.0);
    var queues := map["worker" := []]["worker" := [0]];
    ls := PrepareNext(ls, Snapshot(task, executions, queues, second), 1801.0, "worker");
    s := Snapshot(Prepared(task), executions, queues["worker" := []], second);
  }

  /** The check alone does not protect: seconds after the first claim, the second runner, whose check has passed,
      finds the task PREPARED again although an execution is active, so that only the index stops its insert. */
  lemma CheckIsNotEnough() returns (ls: seq<Label>)
    ensures Plausible(ls) && Clock(ls) == 1801.0
    ensures var s := Run(INITIAL, ls, SITE);
            && ("second", 0) in s.checked
            && 0 in s.db.tasks && s.db.tasks[0].status == TaskStatus.Prepared
            && HasActive(s.db.executions, 0)
            && forall e, now :: e !in s.db.executions ==>
                 && !Enabled(s, ClaimWins("second", 0, e, now))
                 && !OneActivePerTask(Claim.Claimed(s.db, 0, "second", e, now).executions)
  {
    var s;
    ls, s := PreparedAgain();
    SecondInsertFails(s);
  }

  lemma SecondInsertFails(s: State)
    requires s.db.tasks.Keys == {0} && s.db.executions == map[0 := Claim.NewExecution(0, "first", 1797.0)]
    ensures HasActive(s.db.executions, 0)
    ensures forall e, now :: e !in s.db.executions ==>
              && !Enabled(s, ClaimWins("second", 0, e, now))
              && !OneActivePerTask(Claim.Claimed(s.db, 0, "second", e, now).executions)
  {
    assert IsActive(s.db.executions[0]) && s.db.executions[0].taskId == 0;
    forall e, now | e !in s.db.executions
      ensures !OneActivePerTask(Claim.Claimed(s.db, 0, "second", e, now).executions)
    {
      InsertKeepsIndexIff(s.db, 0, "second", e, now);
    }
  }

  // ----- a stranded task -----

  /** A worker slower than the stale timeout prepares a task that recovery has taken back. */
  lemma LatePreparation() returns (ls: seq<Label>)
    ensures Reaches(ls, Snapshot(Prepared(TakenBack(LockedTask(Analysis, "worker", 0.0))), map[],
                                 map["worker" := [0]]["worker" := []], {}), 1800.0)
  {
    ls := AddTask(Analysis);
    ls := LockNext(ls, Snapshot(NewTask(Analysis), map[], map[], {}), 0.0, "worker", 0.0);
    var locked, queues := LockedTask(Analysis, "worker", 0.0), map["worker" := [0]];
    ls := RecoverNext(ls, Snapshot(locked, map[], queues, {}), 0.0, 1800.0);
    ls := PrepareNext(ls, Snapshot(TakenBack(locked), map[], queues, {}), 1800.0, "worker");
  }

  lemma LateClaim() returns (ls: seq<Label>, task: Task)
    ensures task.status == TaskStatus.Queued && task.queuedAt == None
    ensures Reaches(ls, Snapshot(task, FirstExecution(1810.0), map["worker" := []], {}), 1810.0)
  {
    ls := LatePreparation();
    var s := Snapshot(Prepared(TakenBack(LockedTask(Analysis, "worker", 0.0))), map[], map["worker" := []], {});
    assert map["worker" := [0]]["worker" := []] == s.queues;
    ls := CheckNext(ls, s, 1800.0, "first");
    ls := ClaimNext(ls, s.(checked := {} + {("first", 0)}), 1800.0, "first", 1810.0);
    assert {} + {("first", 0)} - {("first", 0)} == {};
    task := s.db.tasks[0].(status := TaskStatus.Queued);
  }

  /** Left alone, the execution is selected after each ten minutes without an update, and the third pick fails it. */
  lemma PicksOfAnIdleExecution()
    ensures var row := Claim.NewExecution(0, "first", 1810.0);
            var once := Picked(row, 2410.0);
            var twice := Picked(once, 3010.0);
            && Stale.IsSelected(row, Stale.DEFAULT_THRESHOLDS, 2410.0)
            && Stale.IsSelected(once, Stale.DEFAULT_THRESHOLDS, 3010.0)
            && Stale.IsSelected(twice, Stale.DEFAULT_THRESHOLDS, 3610.0)
            && Picked(twice, 3610.0).status == ExecutionStatus.Failed
  {
    var once := Picked(Claim.NewExecution(0, "first", 1810.0), 2410.0);
    assert once.attempt == 2 && once.maxAttempts == 3 && once.phase == None && once.updatedAt == 2410.0;
    var twice := Picked(once, 3010.0);
    assert twice.attempt == 3 && twice.maxAttempts == 3 && twice.phase == None && twice.updatedAt == 3010.0;
  }

  lemma StrandedAtLast(task: Task, row: TaskExecution, s: State)
    requires task.status == TaskStatus.Queued && task.queuedAt == None && IsFinal(row.status)
    requires s == Snapshot(task, map[0 := row], map["worker" := []], {})
    ensures Stranded(s, 0) && !HasActive(s.db.executions, 0)
  {
  }

  /** Once the execution of such a task has failed, the task is stranded: an hour after its lock nothing is left that
      could move it. */
  lemma SlowWorkerStrands() returns (ls: seq<Label>)
    ensures Plausible(ls) && Clock(ls) == 3610.0
    ensures Stranded(Run(INITIAL, ls, SITE), 0)
    ensures !HasActive(Run(INITIAL, ls, SITE).db.executions, 0)
  {
    var task;
    ls, task := LateClaim();
    PicksOfAnIdleExecution();
    var row := Claim.NewExecution(0, "first", 1810.0);
    var queues: map<string, seq<TaskId>> := map["worker" := []];
    ls := PickNext(ls, Snapshot(task, map[0 := row], queues, {}), 1810.0, 2410.0);
    row := Picked(row, 2410.0);
    ls := PickNext(ls, Snapshot(task, map[0 := row], queues, {}), 2410.0, 3010.0);
    row := Picked(row, 3010.0);
    ls := PickNext(ls, Snapshot(task, map[0 := row], queues, {}), 3010.0, 3610.0);
    row := Picked(row, 3610.0);
    StrandedAtLast(task, row, Snapshot(task, map[0 := row], queues, {}));
  }

  // ----- a release of another worker's lock -----

  /** A fast worker has locked a task that recovery took from a slow one, which still means to prepare it. */
  lemma LockedByAnother() returns (ls: seq<Label>, s: State)
    ensures Reaches(ls, s, 1801.0) && s.db.tasks.Keys == {0}
    ensures s.db.tasks[0] == Locking.LockedRow(TakenBack(LockedTask(Execution, "slow", 0.0)), "fast", None, 1801.0)
    ensures QueueOf(s, "slow") == [0] && QueueOf(s, "fast") == [0]
  {
    ls := AddTask(Execution);
    ls := LockNext(ls, Snapshot(NewTask(Execution), map[], map[], {}), 0.0, "slow", 0.0);
    var locked, queues := LockedTask(Execution, "slow", 0.0), map["slow" := [0]];
    ls := RecoverNext(ls, Snapshot(locked, map[], queues, {}), 0.0, 1800.0);
    ls := LockNext(ls, Snapshot(TakenBack(locked), map[], queues, {}), 1800.0, "fast", 1801.0);
    s := Snapshot(Locking.LockedRow(TakenBack(locked), "fast", None, 1801.0), map[], queues["fast" := [0]], {});
  }

  /** A slow worker whose preparation fails releases the lock that a faster worker has taken in the meantime. */
  lemma ForeignRelease() returns (ls: seq<Label>, release: Label)
    ensures Plausible(ls) && release.Prepare? && release.worker == "slow"
    ensures var s := Run(INITIAL, ls, SITE);
            && PlausibleStep(s, release, Clock(ls))
            && OwnedBy(s, 0, "fast")
            && ProtocolTasks.Frees(s, release, SITE, 0)
            && QueueOf(Apply(s, release, SITE), "fast") == [0]
            && ProtocolTasks.InBacklog(Apply(s, release, SITE), 0)
  {
    var s;
    ls, s := LockedByAnother();
    release := Prepare("slow", Preparation.GitFails(Preparation.Recoverable, "worktree busy", false));
    TaskRowAfter(s, release, SITE, 0);
  }

  // ----- a lost race -----

  function SecondTask(kind: TaskType): Task {
    NewTask(kind).(number := 2)
  }

  function Pair(first: Task, second: Task, executions: map<ExecutionId, TaskExecution>,
                queues: map<string, seq<TaskId>>, checked: set<(string, TaskId)>): State
  {
    State(Tables(map[0 := first, 1 := second], executions), queues, checked)
  }

  lemma TwoTasks(kind: TaskType) returns (ls: seq<Label>)
    ensures Reaches(ls, Pair(NewTask(kind), SecondTask(kind), map[], map[], {}), 0.0)
  {
    ls := AddTask(kind);
    ls := Then(ls, Snapshot(NewTask(kind), map[], map[], {}), 0.0, Intake(1, SecondTask(kind)));
    assert map[0 := NewTask(kind)][1 := SecondTask(kind)] == map[0 := NewTask(kind), 1 := SecondTask(kind)];
  }

  lemma FirstTaken(kind: TaskType) returns (ls: seq<Label>)
    ensures Reaches(ls, Pair(LockedTask(kind, "first", 0.0), SecondTask(kind), map[], map["first" := [0]], {}), 0.0)
  {
    ls := TwoTasks(kind);
    var s := Pair(NewTask(kind), SecondTask(kind), map[], map[], {});
    assert Locking.AllDistinctBacklog(s.db.tasks, [0]) && ToSet([0]) == {0};
    LockFirst(NewTask(kind), SecondTask(kind), "first", 0.0);
    ls := Then(ls, s, 0.0, LockBy("first", 0.0));
  }

  lemma LockFirst(first: Task, second: Task, w: string, now: Time)
    ensures Locking.LockRows(map[0 := first, 1 := second], {0}, w, None, now)
         == map[0 := Locking.LockedRow(first, w, None, now), 1 := second]
  {
  }

  /** A worker that plans two tasks finds one of them taken, and goes on with the other, which it has not locked. */
  lemma LostRace(kind: TaskType) returns (ls: seq<Label>)
    ensures Reaches(ls, Pair(LockedTask(kind, "first", 0.0), SecondTask(kind), map[],
                             map["first" := [0], "loser" := [1]], {}), 0.0)
  {
    ls := FirstTaken(kind);
    var s := Pair(LockedTask(kind, "first", 0.0), SecondTask(kind), map[], map["first" := [0]], {});
    FreeOfTwo(s.db.tasks);
    assert !Locking.IsBacklog(s.db.tasks, 0) && 0 in [0, 1];
    ls := Then(ls, s, 0.0, LockFails("loser", [0, 1]));
  }

  lemma FreeOfTwo(tasks: map<TaskId, Task>)
    requires tasks.Keys == {0, 1}
    requires tasks[0].status != TaskStatus.Backlog && tasks[1].status == TaskStatus.Backlog
    ensures Locking.FreeIds(tasks, [0, 1]) == [1]
  {
    assert [0, 1][..1] == [0] && [0][..0] == [];
    assert Locking.FreeIds(tasks, [0]) == [];
  }

  /** All at one moment: a third worker locks the task, and the loser's failing preparation drops that lock. */
  lemma LoserReleases() returns (ls: seq<Label>, release: Label)
    ensures Plausible(ls) && Clock(ls) == 0.0 && release.Prepare? && release.worker == "loser"
    ensures var s := Run(INITIAL, ls, SITE);
            && PlausibleStep(s, release, 0.0)
            && OwnedBy(s, 1, "third")
            && ProtocolTasks.Frees(s, release, SITE, 1)
            && ProtocolTasks.InBacklog(Apply(s, release, SITE), 1)
  {
    ls := LostRace(Execution);
    var s := Pair(LockedTask(Execution, "first", 0.0), SecondTask(Execution), map[],
                  map["first" := [0], "loser" := [1]], {});
    assert Locking.AllDistinctBacklog(s.db.tasks, [1]) && ToSet([1]) == {1};
    ls := Then(ls, s, 0.0, Lock("third", [1], None, 0.0));
    var taken := Apply(s, Lock("third", [1], None, 0.0), SITE);
    assert QueueOf(taken, "loser") == [1];
    release := Prepare("loser", Preparation.GitFails(Preparation.Recoverable, "worktree busy", false));
    TaskRowAfter(taken, release, SITE, 1);
  }

  lemma LoserPrepares() returns (ls: seq<Label>)
    ensures Reaches(ls, Pair(LockedTask(Analysis, "first", 0.0), Prepared(SecondTask(Analysis)), map[],
                             map["first" := [0], "loser" := []], {}), 0.0)
  {
    ls := LostRace(Analysis);
    var s := Pair(LockedTask(Analysis, "first", 0.0), SecondTask(Analysis), map[],
                  map["first" := [0], "loser" := [1]], {});
    ls := Then(ls, s, 0.0, PrepareBy("loser"));
    assert s.queues["loser" := []] == map["first" := [0], "loser" := []];
  }

  /** The loser prepares the task it never locked; the row has no lock time, so the next claim strands it. */
  lemma LoserStrands() returns (ls: seq<Label>)
    ensures Plausible(ls) && Clock(ls) == 0.0
    ensures Stranded(Run(INITIAL, ls, SITE), 1)
  {
    ls := LoserPrepares();
    var ready := Pair(LockedTask(Analysis, "first", 0.0), Prepared(SecondTask(Analysis)), map[],
                      map["first" := [0], "loser" := []], {});
    ls := Then(ls, ready, 0.0, Check("runner", 1));
    var checked := ready.(checked := {} + {("runner", 1)});
    ls := Then(ls, checked, 0.0, ClaimWins("runner", 1, 0, 0.0));
    ClaimStrandsIff(checked, ClaimWins("runner", 1, 0, 0.0), SITE);
  }
}
