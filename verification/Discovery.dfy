/** execqueue/orchestrator/candidate_discovery.py */
module Discovery {
  import opened Prelude
  import opened Tables

  predicate IsSupported(kind: TaskType) {
    kind in {Planning, Execution, Analysis}
  }

  predicate IsEligible(task: Task) {
    task.status == TaskStatus.Backlog && IsSupported(task.kind)
  }

  function Eligible(tasks: map<TaskId, Task>): set<TaskId> {
    set t | t in tasks && IsEligible(tasks[t])
  }

  /** ORDER BY execution_order NULLS LAST, created_at, task_number */
  predicate Before(a: Task, b: Task) {
    if a.executionOrder != b.executionOrder then
      a.executionOrder.Some? && (b.executionOrder.Some? ==> a.executionOrder.value < b.executionOrder.value)
    else if a.createdAt != b.createdAt then a.createdAt < b.createdAt
    else a.number < b.number
  }

  lemma BeforeIsTransitive(a: Task, b: Task, c: Task)
    requires Before(a, b) && Before(b, c)
    ensures Before(a, c)
  {
  }

  predicate IsLeast(tasks: map<TaskId, Task>, ids: set<TaskId>, x: TaskId)
    requires ids <= tasks.Keys
  {
    x in ids && forall y :: y in ids && y != x ==> Before(tasks[x], tasks[y])
  }

  lemma {:induction false} LeastExists(tasks: map<TaskId, Task>, ids: set<TaskId>)
    requires UniqueNumbers(tasks) && ids <= tasks.Keys && ids != {}
    ensures exists x :: IsLeast(tasks, ids, x)
    decreases ids
  {
    var y :| y in ids;
    if ids == {y} {
      assert IsLeast(tasks, ids, y);
    } else {
      LeastExists(tasks, ids - {y});
      var z :| IsLeast(tasks, ids - {y}, z);
      var x := if Before(tasks[y], tasks[z]) then y else z;
      forall w | w in ids && w != x ensures Before(tasks[x], tasks[w]) {
        if x == y && w != z { BeforeIsTransitive(tasks[y], tasks[z], tasks[w]); }
      }
      assert IsLeast(tasks, ids, x);
    }
  }

  function Least(tasks: map<TaskId, Task>, ids: set<TaskId>): (x: TaskId)
    requires UniqueNumbers(tasks) && ids <= tasks.Keys && ids != {}
    ensures IsLeast(tasks, ids, x)
  {
    LeastExists(tasks, ids);
    var x :| x in ids && IsLeast(tasks, ids, x);
    x
  }

  function InOrder(tasks: map<TaskId, Task>, ids: set<TaskId>): (q: seq<TaskId>)
    requires UniqueNumbers(tasks) && ids <= tasks.Keys
    ensures |q| == |ids|
    decreases ids
  {
    if ids == {} then [] else
      var x := Least(tasks, ids);
      [x] + InOrder(tasks, ids - {x})
  }

  function FindCandidates(tasks: map<TaskId, Task>, limit: nat): seq<TaskId>
    requires UniqueNumbers(tasks)
  {
    Take(InOrder(tasks, Eligible(tasks)), limit)
  }

  ghost predicate Sorted(tasks: map<TaskId, Task>, q: seq<TaskId>)
    requires forall t :: t in q ==> t in tasks
  {
    forall i, j :: 0 <= i < j < |q| ==> Before(tasks[q[i]], tasks[q[j]])
  }

  lemma {:induction false} InOrderHolds(tasks: map<TaskId, Task>, ids: set<TaskId>, t: TaskId)
    requires UniqueNumbers(tasks) && ids <= tasks.Keys
    ensures t in InOrder(tasks, ids) <==> t in ids
    decreases ids
  {
    if ids != {} {
      var x := Least(tasks, ids);
      InOrderHolds(tasks, ids - {x}, t);
      ConcatKeeps([x], InOrder(tasks, ids - {x}), t);
    }
  }

  lemma ConsSorted(tasks: map<TaskId, Task>, x: TaskId, rest: seq<TaskId>)
    requires x in tasks && (forall t :: t in rest ==> t in tasks && t != x && Before(tasks[x], tasks[t]))
    requires Sorted(tasks, rest) && NoDuplicates(rest)
    ensures Sorted(tasks, [x] + rest) && NoDuplicates([x] + rest)
  {
  }

  lemma {:induction false} InOrderIsSorted(tasks: map<TaskId, Task>, ids: set<TaskId>)
    requires UniqueNumbers(tasks) && ids <= tasks.Keys
    ensures ToSet(InOrder(tasks, ids)) == ids
    ensures forall t :: t in InOrder(tasks, ids) ==> t in ids
    ensures Sorted(tasks, InOrder(tasks, ids)) && NoDuplicates(InOrder(tasks, ids))
    decreases ids
  {
    forall t ensures t in InOrder(tasks, ids) <==> t in ids { InOrderHolds(tasks, ids, t); }
    if ids != {} {
      var x := Least(tasks, ids);
      InOrderIsSorted(tasks, ids - {x});
      ConsSorted(tasks, x, InOrder(tasks, ids - {x}));
    }
  }

  /** The order leaves no choice: one sorted list per set of tasks. */
  lemma {:induction false} SortedIsUnique(tasks: map<TaskId, Task>, q: seq<TaskId>)
    requires UniqueNumbers(tasks) && forall t :: t in q ==> t in tasks
    requires Sorted(tasks, q)
    ensures InOrder(tasks, ToSet(q)) == q
  {
    if q != [] {
      var ids := ToSet(q);
      assert q[0] in ids;
      var x := Least(tasks, ids);
      assert x == q[0] by {
        var i :| 0 <= i < |q| && q[i] == x;
        assert i > 0 ==> Before(tasks[q[0]], tasks[x]);
      }
      assert q == [q[0]] + q[1..];
      assert ids - {x} == ToSet(q[1..]) by {
        forall j | 0 < j < |q| ensures q[j] != x { assert Before(tasks[q[0]], tasks[q[j]]); }
      }
      SortedIsUnique(tasks, q[1..]);
    }
  }

  /** The candidates are the eligible tasks that come first, in order, and as many as the limit allows. */
  lemma CandidatesAreTheFirstEligible(tasks: map<TaskId, Task>, limit: nat)
    requires UniqueNumbers(tasks)
    ensures var q := FindCandidates(tasks, limit);
            && NoDuplicates(q)
            && (forall t :: t in q ==> t in Eligible(tasks))
            && Sorted(tasks, q)
            && (forall t, u :: t in q && u in Eligible(tasks) && u !in q ==> Before(tasks[t], tasks[u]))
            && |q| == if |Eligible(tasks)| < limit then |Eligible(tasks)| else limit
  {
    var all, q := InOrder(tasks, Eligible(tasks)), FindCandidates(tasks, limit);
    InOrderIsSorted(tasks, Eligible(tasks));
    forall t, u | t in q && u in Eligible(tasks) && u !in q ensures Before(tasks[t], tasks[u]) {
      assert u in ToSet(all);
      var i :| 0 <= i < |q| && q[i] == t;
      var j :| 0 <= j < |all| && all[j] == u;
      assert q == all[..|q|];
    }
  }

  // ----- on the fields of the rows -----

  /** With room for all, the candidates are the backlog tasks of the three supported types. */
  lemma CandidateIff(tasks: map<TaskId, Task>, limit: nat, t: TaskId)
    requires UniqueNumbers(tasks) && limit >= |tasks|
    ensures t in FindCandidates(tasks, limit)
            <==> t in tasks && tasks[t].status == TaskStatus.Backlog
                 && (tasks[t].kind.Planning? || tasks[t].kind.Execution? || tasks[t].kind.Analysis?)
  {
    InOrderIsSorted(tasks, Eligible(tasks));
    InOrderHolds(tasks, Eligible(tasks), t);
    SubsetSize(Eligible(tasks), tasks.Keys);
    assert |tasks.Keys| == |tasks|;
  }

  /** A smaller execution order comes first, one without it last; then the older task, then the smaller number. */
  ghost predicate GoesFirst(a: Task, b: Task) {
    || (exists m, n :: a.executionOrder == Some(m) && b.executionOrder == Some(n) && m < n)
    || (a.executionOrder != None && b.executionOrder == None)
    || (a.executionOrder == b.executionOrder && a.createdAt < b.createdAt)
    || (a.executionOrder == b.executionOrder && a.createdAt == b.createdAt && a.number < b.number)
  }

  /** Of two eligible tasks the one that goes first is a candidate before the other, or instead of it. */
  lemma EarlierComesFirst(tasks: map<TaskId, Task>, limit: nat, t: TaskId, u: TaskId, j: nat)
    requires UniqueNumbers(tasks) && t in tasks && IsEligible(tasks[t]) && u in tasks && GoesFirst(tasks[t], tasks[u])
    requires j < |FindCandidates(tasks, limit)| && FindCandidates(tasks, limit)[j] == u
    ensures exists i :: 0 <= i < j && FindCandidates(tasks, limit)[i] == t
  {
    var q := FindCandidates(tasks, limit);
    CandidatesAreTheFirstEligible(tasks, limit);
    assert t in Eligible(tasks) && u in q && !Before(tasks[u], tasks[t]);
    var i :| 0 <= i < |q| && q[i] == t;
    assert i != j && !(j < i);
  }
}
