/** execqueue/orchestrator/classification.py, TaskClassifier. */
module Classification {
  import opened Prelude
  import opened Rendering
  import opened Tables

  datatype RunnerMode = ReadOnly | Write

  datatype ParallelizationMode = Sequential | Parallel

  datatype TaskClassification = TaskClassification(
    taskId: TaskId,
    number: nat,
    parallelization: ParallelizationMode,
    mode: RunnerMode,
    conflictKey: Option<string>)

  /** An explicit setting wins; without one, execution tasks and unknown types write. */
  predicate RequiresWrite(task: Task) {
    match task.details.requiresWriteAccess
    case Some(explicit) => explicit
    case None => task.kind.Execution? || task.kind.Other?
  }

  function WriteKey(task: Task): string {
    match task.details.branchName
    case Some(name) => if name != "" then "branch:" + name else "task:" + Decimal(task.number)
    case None => "task:" + Decimal(task.number)
  }

  /** What the classifier decides, in one step. */
  function Classified(id: TaskId, task: Task): TaskClassification {
    TaskClassification(
      id,
      task.number,
      if task.details.parallelizationMode == Some("parallel") then Parallel else Sequential,
      if RequiresWrite(task) then Write else ReadOnly,
      if RequiresWrite(task) then Some(WriteKey(task)) else None)
  }

  method Classify(id: TaskId, task: Task) returns (c: TaskClassification)
    ensures c == Classified(id, task)
    ensures c.taskId == id && c.number == task.number
    ensures c.mode == Write <==> task.details.requiresWriteAccess == Some(true)
                                 || (task.details.requiresWriteAccess == None
                                     && (task.kind.Execution? || task.kind.Other?))
    ensures c.parallelization == Parallel <==> task.details.parallelizationMode == Some("parallel")
    ensures c.mode == ReadOnly ==> c.conflictKey == None
    ensures c.mode == Write && task.details.branchName in {None, Some("")} ==>
              c.conflictKey == Some("task:" + Decimal(task.number))
    ensures c.mode == Write && task.details.branchName !in {None, Some("")} ==>
              c.conflictKey == Some("branch:" + task.details.branchName.value)
  {
    var explicit := task.details.requiresWriteAccess;
    var requiresWrite: bool;
    match task.kind {
      case Execution => requiresWrite := true;
      case Planning => requiresWrite := false;
      case Analysis => requiresWrite := false;
      case Requirement => requiresWrite := if explicit.Some? then explicit.value else false;
      case Other(_) => requiresWrite := true;
    }
    if explicit.Some? {
      requiresWrite := explicit.value;
    }

    var parallelization := Sequential;
    if task.details.parallelizationMode == Some("parallel") {
      parallelization := Parallel;
    }

    var conflictKey: Option<string> := None;
    if requiresWrite {
      var branch := task.details.branchName;
      if branch.Some? && branch.value != "" {
        conflictKey := Some("branch:" + branch.value);
      } else {
        conflictKey := Some("task:" + Decimal(task.number));
      }
    }
    c := TaskClassification(id, task.number, parallelization, if requiresWrite then Write else ReadOnly, conflictKey);
  }

  function ClassifiedAll(ids: seq<TaskId>, tasks: map<TaskId, Task>): (cs: seq<TaskClassification>)
    requires forall t :: t in ids ==> t in tasks
    ensures |cs| == |ids|
  {
    seq(|ids|, i requires 0 <= i < |ids| => Classified(ids[i], tasks[ids[i]]))
  }

  method ClassifyBatch(ids: seq<TaskId>, tasks: map<TaskId, Task>) returns (cs: seq<TaskClassification>)
    requires forall t :: t in ids ==> t in tasks
    ensures cs == ClassifiedAll(ids, tasks)
  {
    cs := [];
    for i := 0 to |ids|
      invariant cs == ClassifiedAll(ids, tasks)[..i]
    {
      var c := Classify(ids[i], tasks[ids[i]]);
      cs := cs + [c];
    }
  }

  lemma SamePrefix(p: string, x: string, y: string)
    requires p + x == p + y
    ensures x == y
  {
    assert x == (p + x)[|p|..] && y == (p + y)[|p|..];
  }

  predicate NamesBranch(task: Task, name: string) {
    name != "" && task.details.branchName == Some(name)
  }

  /** Two write tasks with different numbers conflict exactly when they name the same branch. */
  lemma ConflictMeansSameBranch(a: TaskId, s: Task, b: TaskId, t: Task)
    requires RequiresWrite(s) && RequiresWrite(t) && s.number != t.number
    ensures Classified(a, s).conflictKey == Classified(b, t).conflictKey
            <==> exists name :: NamesBranch(s, name) && NamesBranch(t, name)
  {
    var j, k := WriteKey(s), WriteKey(t);
    if j == k {
      assert j[0] == 'b' <==> exists name :: NamesBranch(s, name) by {
        if j[0] == 'b' { assert NamesBranch(s, s.details.branchName.value); }
      }
      if j[0] == 'b' {
        SamePrefix("branch:", s.details.branchName.value, t.details.branchName.value);
        assert NamesBranch(t, s.details.branchName.value);
      } else {
        SamePrefix("task:", Decimal(s.number), Decimal(t.number));
        DecimalInjective(s.number, t.number);
      }
    }
  }

  /** What a task's own details say wins; by default execution tasks and unknown types write, and nothing else does. */
  lemma WritesIff(task: Task)
    ensures RequiresWrite(task)
            <==> task.details.requiresWriteAccess == Some(true)
                 || (task.details.requiresWriteAccess == None && (task.kind.Execution? || task.kind.Other?))
  {
  }
}
