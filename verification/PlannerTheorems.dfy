/** What a batch plan guarantees, whatever the tasks are. */
module PlannerTheorems {
  import opened Prelude
  import opened Tables
  import opened Classification
  import opened BatchPlanning

  // ----- every position of the input has one verdict -----

  datatype Verdict = Scheduled | Rejected(reason: Reason) | PassedOver

  /** A planner that looks at one task and at what came before it (and, for one reason, at the rest). */
  function VerdictOf(max: nat, cs: seq<TaskClassification>, i: nat): Verdict
    requires i < |cs|
  {
    var c, seen := cs[i], Writes(cs[..i]);
    if c.mode == ReadOnly then
      if |Reads(cs[..i])| < max then Scheduled else Rejected(ExceededReadOnly)
    else if c.conflictKey in Keys(seen) then
      if c.conflictKey.Some? then Rejected(BlockedByKey(c.conflictKey.value)) else PassedOver
    else if |Keys(seen)| < max then Scheduled
    else if c.conflictKey.Some? && |WithKey(Writes(cs), c.conflictKey)| > 1 then
      Rejected(ConflictWithBranch(c.conflictKey.value))
    else Rejected(ExceededWrite)
  }

  lemma {:induction false} PositionOfRead(cs: seq<TaskClassification>, i: nat)
    requires i < |cs| && cs[i].mode == ReadOnly
    ensures |Reads(cs[..i])| < |Reads(cs)| && Reads(cs)[|Reads(cs[..i])|] == cs[i]
  {
    var n := |cs| - 1;
    if i < n {
      PositionOfRead(cs[..n], i);
      assert cs[..n][..i] == cs[..i];
    }
  }

  lemma {:induction false} PositionOfWrite(cs: seq<TaskClassification>, i: nat)
    requires i < |cs| && cs[i].mode != ReadOnly
    ensures |Writes(cs[..i])| < |Writes(cs)|
    ensures Writes(cs)[|Writes(cs[..i])|] == cs[i]
    ensures Writes(cs)[..|Writes(cs[..i])|] == Writes(cs[..i])
  {
    var n := |cs| - 1;
    if i < n {
      PositionOfWrite(cs[..n], i);
      assert cs[..n][..i] == cs[..i];
    }
  }

  lemma {:induction false} PositionInGroup(ws: seq<TaskClassification>, p: nat)
    requires p < |ws|
    ensures var g, q := WithKey(ws, ws[p].conflictKey), |WithKey(ws[..p], ws[p].conflictKey)|;
            q < |g| && g[q] == ws[p]
  {
    var n := |ws| - 1;
    if p < n {
      PositionInGroup(ws[..n], p);
      assert ws[..n][..p] == ws[..p];
    }
  }

  lemma {:induction false} PositionInFirsts(ws: seq<TaskClassification>, p: nat)
    requires p < |ws| && ws[p].conflictKey !in Keys(ws[..p])
    ensures |Firsts(ws[..p])| < |Firsts(ws)| && Firsts(ws)[|Firsts(ws[..p])|] == ws[p]
  {
    var n := |ws| - 1;
    if p < n {
      assert ws[..n][..p] == ws[..p];
      PositionInFirsts(ws[..n], p);
    }
  }

  lemma GroupOf(ws: seq<TaskClassification>, p: nat) returns (j: nat)
    requires p < |ws|
    ensures j < |Groups(ws)| && Groups(ws)[j] == Group(ws[p].conflictKey, WithKey(ws, ws[p].conflictKey))
  {
    FirstsBasics(ws);
    KeysOfMembers(ws, p);
    j := IndexOfKey(Firsts(ws), ws[p].conflictKey);
  }

  lemma {:induction false} IndexOfKey(cs: seq<TaskClassification>, key: Option<string>) returns (j: nat)
    requires key in Keys(cs)
    ensures j < |cs| && cs[j].conflictKey == key
  {
    var n := |cs| - 1;
    if cs[n].conflictKey == key { j := n; } else { j := IndexOfKey(cs[..n], key); }
  }

  lemma GroupExclusionsKept(max: nat, gs: seq<Group>, j: nat, x: Exclusion)
    requires j < |gs| && x in GroupExclusions(gs[j].key, gs[j].tasks, j >= max)
    ensures x in WriteExclusions(max, gs)
  {
    PartInConcat(Contributions(max, gs), j, x);
  }

  lemma {:induction false} KeyCount(ws: seq<TaskClassification>)
    ensures |Firsts(ws)| == |Keys(ws)|
  {
    if ws != [] {
      KeyCount(ws[..|ws| - 1]);
      assert ws[|ws| - 1].conflictKey in Keys(ws[..|ws| - 1]) ==> Keys(ws) == Keys(ws[..|ws| - 1]);
    }
  }

  lemma ReadVerdict(max: nat, cs: seq<TaskClassification>, i: nat)
    requires i < |cs| && cs[i].mode == ReadOnly
    ensures VerdictOf(max, cs, i) == Scheduled ==> cs[i] in Included(max, cs)
    ensures VerdictOf(max, cs, i).Rejected?
            ==> Exclusion(cs[i].taskId, VerdictOf(max, cs, i).reason) in Exclusions(max, cs)
  {
    PositionOfRead(cs, i);
    var r := |Reads(cs[..i])|;
    if r < max {
      assert Take(Reads(cs), max)[r] == cs[i];
    } else {
      assert Drop(Reads(cs), max)[r - max] == cs[i];
      assert ReadExclusions(Drop(Reads(cs), max))[r - max] == Exclusion(cs[i].taskId, ExceededReadOnly);
    }
  }

  lemma LaterIsBlocked(max: nat, ws: seq<TaskClassification>, p: nat, key: string)
    requires p < |ws| && ws[p].conflictKey == Some(key) && Some(key) in Keys(ws[..p])
    ensures Exclusion(ws[p].taskId, BlockedByKey(key)) in WriteExclusions(max, Groups(ws))
  {
    var j := GroupOf(ws, p);
    var g, q := Groups(ws)[j].tasks, |WithKey(ws[..p], Some(key))|;
    PositionInGroup(ws, p);
    GroupNonempty(ws[..p], Some(key));
    var x := Exclusion(ws[p].taskId, BlockedByKey(key));
    assert Blocked(key, g[1..])[q - 1] == x;
    assert x in GroupExclusions(Some(key), g, j >= max);
    GroupExclusionsKept(max, Groups(ws), j, x);
  }

  lemma FirstPastCap(max: nat, ws: seq<TaskClassification>, j: nat)
    requires max <= j < |Firsts(ws)|
    ensures var c := Firsts(ws)[j];
            Exclusion(c.taskId,
                      if c.conflictKey.Some? && |WithKey(ws, c.conflictKey)| > 1
                      then ConflictWithBranch(c.conflictKey.value) else ExceededWrite)
            in WriteExclusions(max, Groups(ws))
  {
    GroupHead(ws, j);
    var c := Firsts(ws)[j];
    var x := Exclusion(c.taskId,
                       if c.conflictKey.Some? && |WithKey(ws, c.conflictKey)| > 1
                       then ConflictWithBranch(c.conflictKey.value) else ExceededWrite);
    assert GroupExclusions(c.conflictKey, WithKey(ws, c.conflictKey), true)[0] == x;
    GroupExclusionsKept(max, Groups(ws), j, x);
  }

  lemma WriteVerdict(max: nat, cs: seq<TaskClassification>, i: nat)
    requires i < |cs| && cs[i].mode != ReadOnly
    ensures VerdictOf(max, cs, i) == Scheduled ==> cs[i] in Included(max, cs)
    ensures VerdictOf(max, cs, i).Rejected?
            ==> Exclusion(cs[i].taskId, VerdictOf(max, cs, i).reason) in Exclusions(max, cs)
  {
    var ws, p := Writes(cs), |Writes(cs[..i])|;
    PositionOfWrite(cs, i);
    KeyCount(ws[..p]);
    if ws[p].conflictKey in Keys(ws[..p]) {
      if ws[p].conflictKey.Some? {
        LaterIsBlocked(max, ws, p, ws[p].conflictKey.value);
      }
    } else {
      PositionInFirsts(ws, p);
      var j := |Firsts(ws[..p])|;
      if j < max {
        assert Take(Firsts(ws), max)[j] == cs[i];
      } else {
        FirstPastCap(max, ws, j);
      }
    }
  }

  /** The grouping planner does to every task what the one-pass planner says. */
  lemma PlannerFollowsVerdicts(max: nat, cs: seq<TaskClassification>, i: nat)
    requires i < |cs|
    ensures VerdictOf(max, cs, i) == Scheduled ==> cs[i] in Included(max, cs)
    ensures VerdictOf(max, cs, i).Rejected?
            ==> Exclusion(cs[i].taskId, VerdictOf(max, cs, i).reason) in Exclusions(max, cs)
  {
    if cs[i].mode == ReadOnly { ReadVerdict(max, cs, i); } else { WriteVerdict(max, cs, i); }
  }

  // ----- conservation -----

  function Flatten(gs: seq<Group>): seq<TaskClassification> {
    if gs == [] then [] else Flatten(gs[..|gs| - 1]) + gs[|gs| - 1].tasks
  }

  lemma FlattenSnoc(init: seq<Group>, g: Group)
    ensures Flatten(init + [g]) == Flatten(init) + g.tasks
  {
    assert (init + [g])[..|init|] == init;
  }

  lemma {:induction false} FlattenUpdate(gs: seq<Group>, j: nat, c: TaskClassification)
    requires j < |gs|
    ensures multiset(Flatten(gs[j := Group(gs[j].key, gs[j].tasks + [c])])) == multiset(Flatten(gs)) + multiset{c}
  {
    var n := |gs| - 1;
    var grown := Group(gs[j].key, gs[j].tasks + [c]);
    assert gs == gs[..n] + [gs[n]];
    FlattenSnoc(gs[..n], gs[n]);
    if j < n {
      assert gs[j := grown] == gs[..n][j := grown] + [gs[n]];
      FlattenSnoc(gs[..n][j := grown], gs[n]);
      FlattenUpdate(gs[..n], j, c);
      SameTail(Flatten(gs[..n][j := grown]), Flatten(gs[..n]), gs[n].tasks, c);
    } else {
      assert gs[j := grown] == gs[..n] + [grown];
      FlattenSnoc(gs[..n], grown);
      ConcatAssociates(Flatten(gs[..n]), gs[n].tasks, [c]);
    }
  }

  lemma OtherGroupsStay(init: seq<TaskClassification>, w: TaskClassification, t: nat)
    requires t < |Firsts(init)| && Firsts(init)[t].conflictKey != w.conflictKey
    ensures t < |Groups(init + [w])| && Groups(init + [w])[t] == Groups(init)[t]
  {
    FirstsSnoc(init, w);
    WithKeySnoc(init, w, Firsts(init)[t].conflictKey);
  }

  lemma JoinsGroup(init: seq<TaskClassification>, w: TaskClassification) returns (j: nat)
    requires w.conflictKey in Keys(init)
    ensures j < |Groups(init)|
    ensures Groups(init + [w]) == Groups(init)[j := Group(Groups(init)[j].key, Groups(init)[j].tasks + [w])]
  {
    var ws, fs := init + [w], Firsts(init);
    FirstsBasics(init);
    j := IndexOfKey(fs, w.conflictKey);
    FirstsSnoc(init, w);
    WithKeySnoc(init, w, w.conflictKey);
    forall t | 0 <= t < |fs| && t != j ensures Groups(ws)[t] == Groups(init)[t] {
      assert fs[t].conflictKey != w.conflictKey;
      OtherGroupsStay(init, w, t);
    }
  }

  lemma NewKeyIsNew(init: seq<TaskClassification>, key: Option<string>, t: nat)
    requires key !in Keys(init) && t < |Firsts(init)|
    ensures Firsts(init)[t].conflictKey != key
  {
    FirstsBasics(init);
    KeysOfMembers(Firsts(init), t);
  }

  lemma NewGroup(init: seq<TaskClassification>, w: TaskClassification)
    requires w.conflictKey !in Keys(init)
    ensures |Groups(init + [w])| == |Groups(init)| + 1
    ensures Groups(init + [w])[|Groups(init)|] == Group(w.conflictKey, [w])
  {
    FirstsSnoc(init, w);
    GroupNonempty(init, w.conflictKey);
    WithKeySnoc(init, w, w.conflictKey);
  }

  lemma OpensGroup(init: seq<TaskClassification>, w: TaskClassification)
    requires w.conflictKey !in Keys(init)
    ensures Groups(init + [w]) == Groups(init) + [Group(w.conflictKey, [w])]
  {
    var gs, was := Groups(init + [w]), Groups(init);
    NewGroup(init, w);
    forall t | 0 <= t < |was| ensures gs[t] == was[t] {
      NewKeyIsNew(init, w.conflictKey, t);
      OtherGroupsStay(init, w, t);
    }
    SnocByElements(gs, was, Group(w.conflictKey, [w]));
  }

  lemma GroupingSnoc(init: seq<TaskClassification>, w: TaskClassification)
    ensures multiset(Flatten(Groups(init + [w]))) == multiset(Flatten(Groups(init))) + multiset{w}
  {
    if w.conflictKey in Keys(init) {
      var j := JoinsGroup(init, w);
      FlattenUpdate(Groups(init), j, w);
    } else {
      OpensGroup(init, w);
      FlattenSnoc(Groups(init), Group(w.conflictKey, [w]));
    }
  }

  /** Grouping by key loses no task and adds none. */
  lemma {:induction false} GroupingPermutes(ws: seq<TaskClassification>)
    ensures multiset(Flatten(Groups(ws))) == multiset(ws)
  {
    if ws != [] {
      var init, w := ws[..|ws| - 1], ws[|ws| - 1];
      SplitLast(ws);
      GroupingPermutes(init);
      GroupingSnoc(init, w);
    }
  }

  function Lost(g: Group): seq<TaskId> {
    if g.key.None? then Ids(Drop(g.tasks, 1)) else []
  }

  function Losses(gs: seq<Group>): (parts: seq<seq<TaskId>>)
    ensures |parts| == |gs|
  {
    seq(|gs|, j requires 0 <= j < |gs| => Lost(gs[j]))
  }

  /** The write tasks without key that the planner passes over in silence. */
  function Dropped(gs: seq<Group>): seq<TaskId> {
    Concat(Losses(gs))
  }

  lemma ExcludedOfGroup(g: Group, full: bool)
    requires g.tasks != []
    ensures ExcludedIds(GroupExclusions(g.key, g.tasks, full))
         == (if full then [g.tasks[0].taskId] else []) + (if g.key.Some? then Ids(g.tasks[1..]) else [])
  {
  }

  lemma HeadAndRest(tasks: seq<TaskClassification>)
    requires tasks != []
    ensures multiset(Ids(tasks)) == multiset{tasks[0].taskId} + multiset(Ids(tasks[1..]))
  {
    assert Ids(tasks) == [tasks[0].taskId] + Ids(tasks[1..]);
  }

  lemma OneGroupConserves(g: Group, full: bool)
    requires g.tasks != []
    ensures multiset(ExcludedIds(GroupExclusions(g.key, g.tasks, full)))
          + (if full then multiset{} else multiset{g.tasks[0].taskId})
          + multiset(Lost(g))
         == multiset(Ids(g.tasks))
  {
    ExcludedOfGroup(g, full);
    HeadAndRest(g.tasks);
  }

  lemma ExcludedIdsConcat(a: seq<Exclusion>, b: seq<Exclusion>)
    ensures ExcludedIds(a + b) == ExcludedIds(a) + ExcludedIds(b)
  {
  }

  lemma ExclusionsSnoc(max: nat, init: seq<Group>, g: Group)
    ensures ExcludedIds(WriteExclusions(max, init + [g]))
         == ExcludedIds(WriteExclusions(max, init)) + ExcludedIds(GroupExclusions(g.key, g.tasks, |init| >= max))
  {
    WriteExclusionsSnoc(max, init, g);
    ExcludedIdsConcat(WriteExclusions(max, init), GroupExclusions(g.key, g.tasks, |init| >= max));
  }

  lemma DroppedSnoc(init: seq<Group>, g: Group)
    ensures Dropped(init + [g]) == Dropped(init) + Lost(g)
  {
    assert Losses(init + [g]) == Losses(init) + [Lost(g)];
    ConcatSnoc(Losses(init), Lost(g));
  }

  lemma FlattenedIdsSnoc(init: seq<Group>, g: Group)
    ensures Ids(Flatten(init + [g])) == Ids(Flatten(init)) + Ids(g.tasks)
  {
    FlattenSnoc(init, g);
    IdsConcat(Flatten(init), g.tasks);
  }

  lemma {:induction false} GroupsConserve(max: nat, gs: seq<Group>)
    requires forall g :: g in gs ==> g.tasks != []
    ensures multiset(Heads(Take(gs, max))) + multiset(ExcludedIds(WriteExclusions(max, gs))) + multiset(Dropped(gs))
         == multiset(Ids(Flatten(gs)))
  {
    if gs != [] {
      var n := |gs| - 1;
      var init, g := gs[..n], gs[n];
      assert gs == init + [g];
      ExclusionsSnoc(max, init, g);
      DroppedSnoc(init, g);
      FlattenedIdsSnoc(init, g);
      HeadsSnoc(max, gs, n);
      assert gs[..n + 1] == gs;
      OneGroupConserves(g, n >= max);
      GroupsConserve(max, init);
    }
  }

  lemma {:induction false} ModesPartition(cs: seq<TaskClassification>)
    ensures multiset(Ids(Reads(cs))) + multiset(Ids(Writes(cs))) == multiset(Ids(cs))
  {
    if cs != [] {
      var n := |cs| - 1;
      ModesPartition(cs[..n]);
      assert Ids(cs) == Ids(cs[..n]) + [cs[n].taskId];
      IdsConcat(Reads(cs[..n]), [cs[n]]);
      IdsConcat(Writes(cs[..n]), [cs[n]]);
      assert Ids([cs[n]]) == [cs[n].taskId];
      assert Reads(cs[..n]) + [] == Reads(cs[..n]) && Writes(cs[..n]) + [] == Writes(cs[..n]);
    }
  }

  lemma RemoveAt(b: seq<TaskClassification>, i: nat)
    requires i < |b|
    ensures multiset(Ids(b)) == multiset(Ids(b[..i] + b[i + 1..])) + multiset{b[i].taskId}
  {
    assert b == b[..i] + [b[i]] + b[i + 1..];
    assert Ids(b) == Ids(b[..i]) + [b[i].taskId] + Ids(b[i + 1..]);
    IdsConcat(b[..i], b[i + 1..]);
  }

  lemma {:induction false} SamePermutedIds(a: seq<TaskClassification>, b: seq<TaskClassification>)
    requires multiset(a) == multiset(b)
    ensures multiset(Ids(a)) == multiset(Ids(b))
  {
    if a != [] {
      var i := WithoutHead(a, b);
      HeadAndRest(a);
      RemoveAt(b, i);
      SamePermutedIds(a[1..], b[..i] + b[i + 1..]);
    } else {
      EmptyMultiset(b);
    }
  }

  /** Included, excluded and dropped ids are, together, the input ids, each as often as it occurs there. */
  lemma Conservation(max: nat, cs: seq<TaskClassification>)
    ensures multiset(Ids(Included(max, cs))) + multiset(ExcludedIds(Exclusions(max, cs)))
          + multiset(Dropped(Groups(Writes(cs))))
         == multiset(Ids(cs))
  {
    var rs, ws := Reads(cs), Writes(cs);
    var gs := Groups(ws);
    ModesPartition(cs);
    GroupingPermutes(ws);
    SamePermutedIds(Flatten(gs), ws);
    HeadsOfGroups(ws, max);
    GroupsConserve(max, gs);
    IdsConcat(Take(rs, max), Take(Firsts(ws), max));
    IdsConcat(Take(rs, max), Drop(rs, max));
    ExcludedIdsConcat(ReadExclusions(Drop(rs, max)), WriteExclusions(max, gs));
    assert ExcludedIds(ReadExclusions(Drop(rs, max))) == Ids(Drop(rs, max));
  }

  lemma PlannedIsNotExcluded(max: nat, cs: seq<TaskClassification>, x: Exclusion)
    requires NoDuplicates(Ids(cs)) && x in Exclusions(max, cs)
    ensures x.taskId !in Ids(Included(max, cs))
  {
    var xs := Exclusions(max, cs);
    var i :| 0 <= i < |xs| && xs[i] == x;
    assert ExcludedIds(xs)[i] == x.taskId;
    assert multiset(ExcludedIds(xs))[x.taskId] >= 1;
    Conservation(max, cs);
    CountInDistinct(Ids(cs), x.taskId);
    assert multiset(Ids(Included(max, cs)))[x.taskId] == 0;
  }

  /** Of two write tasks with one key the later is never planned. */
  lemma LaterOfKeyNotIncluded(max: nat, cs: seq<TaskClassification>, i: nat, j: nat)
    requires NoDuplicates(Ids(cs)) && i < j < |cs|
    requires cs[i].mode == cs[j].mode == Write && cs[i].conflictKey == cs[j].conflictKey && cs[i].conflictKey.Some?
    ensures cs[j].taskId !in Ids(Included(max, cs))
  {
    var seen := cs[..j];
    assert seen[i] == cs[i] && seen[..i] == cs[..i];
    PositionOfWrite(seen, i);
    KeysOfMembers(Writes(seen), |Writes(cs[..i])|);
    PlannerFollowsVerdicts(max, cs, j);
    PlannedIsNotExcluded(max, cs, Exclusion(cs[j].taskId, BlockedByKey(cs[j].conflictKey.value)));
  }

  lemma {:induction false} KeylessGroupAt(gs: seq<Group>, ws: seq<TaskClassification>)
    requires forall j :: 0 <= j < |gs| ==> gs[j].tasks == WithKey(ws, gs[j].key)
    requires forall i, j :: 0 <= i < j < |gs| ==> gs[i].key != gs[j].key
    ensures |Dropped(gs)| == if (exists g :: g in gs && g.key == None) && WithKey(ws, None) != []
                             then |WithKey(ws, None)| - 1 else 0
  {
    if gs != [] {
      var n := |gs| - 1;
      KeylessGroupAt(gs[..n], ws);
      assert gs == gs[..n] + [gs[n]];
      DroppedSnoc(gs[..n], gs[n]);
    }
  }

  /** The planner passes over every write task without key except the first. */
  lemma DroppedCount(ws: seq<TaskClassification>)
    ensures |Dropped(Groups(ws))| == if WithKey(ws, None) == [] then 0 else |WithKey(ws, None)| - 1
  {
    FirstsBasics(ws);
    KeylessGroupAt(Groups(ws), ws);
    GroupNonempty(ws, None);
    if WithKey(ws, None) != [] {
      var j := IndexOfKey(Firsts(ws), None);
      assert Groups(ws)[j].key == None;
    }
  }

  /** Included and excluded ids are together the input ids exactly when at most one write task lacks a key. */
  lemma PartitionsIffOneKeyless(max: nat, cs: seq<TaskClassification>)
    ensures multiset(Ids(Included(max, cs))) + multiset(ExcludedIds(Exclusions(max, cs))) == multiset(Ids(cs))
            <==> |WithKey(Writes(cs), None)| <= 1
  {
    Conservation(max, cs);
    DroppedCount(Writes(cs));
    NothingMore(multiset(Ids(Included(max, cs))) + multiset(ExcludedIds(Exclusions(max, cs))),
                Dropped(Groups(Writes(cs))), multiset(Ids(cs)));
  }

  lemma NothingMore(a: multiset<TaskId>, dropped: seq<TaskId>, all: multiset<TaskId>)
    requires a + multiset(dropped) == all
    ensures a == all <==> |dropped| == 0
  {
    assert |a| + |multiset(dropped)| == |all|;
    assert |multiset(dropped)| == |dropped|;
  }

  ghost predicate AllWritesKeyed(cs: seq<TaskClassification>) {
    forall c :: c in cs ==> (c.mode == Write <==> c.conflictKey.Some?)
  }

  lemma {:induction false} WritesAreWrites(cs: seq<TaskClassification>)
    ensures forall c :: c in Writes(cs) ==> c in cs && c.mode == Write
  {
    if cs != [] { WritesAreWrites(cs[..|cs| - 1]); }
  }

  /** With the classifier's keys no write task lacks one: the plan partitions its input. */
  lemma PlanPartitions(max: nat, cs: seq<TaskClassification>)
    requires AllWritesKeyed(cs)
    ensures multiset(Ids(Included(max, cs))) + multiset(ExcludedIds(Exclusions(max, cs))) == multiset(Ids(cs))
  {
    if WithKey(Writes(cs), None) != [] {
      WritesAreWrites(cs);
      GroupSharesKey(Writes(cs), None, 0);
    }
    PartitionsIffOneKeyless(max, cs);
  }

  // ----- verdicts are exact -----

  lemma PassedOverIsDropped(max: nat, cs: seq<TaskClassification>, i: nat)
    requires i < |cs| && VerdictOf(max, cs, i) == PassedOver
    ensures cs[i].taskId in Dropped(Groups(Writes(cs)))
  {
    var ws, p := Writes(cs), |Writes(cs[..i])|;
    PositionOfWrite(cs, i);
    var j := GroupOf(ws, p);
    var q := |WithKey(ws[..p], None)|;
    PositionInGroup(ws, p);
    GroupNonempty(ws[..p], None);
    assert Ids(Drop(Groups(ws)[j].tasks, 1))[q - 1] == cs[i].taskId;
    PartInConcat(Losses(Groups(ws)), j, cs[i].taskId);
  }

  /** With distinct ids a task is in one of the three lists, and in that one once. */
  lemma OneListEach(a: seq<TaskId>, b: seq<TaskId>, d: seq<TaskId>, all: seq<TaskId>, id: TaskId)
    requires multiset(a) + multiset(b) + multiset(d) == multiset(all) && NoDuplicates(all)
    ensures !(id in a && id in b) && !(id in a && id in d) && !(id in b && id in d)
    ensures NoDuplicates(b)
  {
    CountInDistinct(all, id);
    assert id in a ==> id in multiset(a);
    assert id in b ==> id in multiset(b);
    assert id in d ==> id in multiset(d);
    assert multiset(b) <= multiset(all);
    PartOfDistinct(b, all);
  }

  lemma ListedIds(xs: seq<Exclusion>, x: Exclusion)
    requires x in xs
    ensures x.taskId in ExcludedIds(xs)
  {
    var i :| 0 <= i < |xs| && xs[i] == x;
    assert ExcludedIds(xs)[i] == x.taskId;
  }

  lemma OneReasonEach(xs: seq<Exclusion>, x: Exclusion, y: Exclusion)
    requires NoDuplicates(ExcludedIds(xs)) && x in xs && y in xs && x.taskId == y.taskId
    ensures x == y
  {
    var i :| 0 <= i < |xs| && xs[i] == x;
    var j :| 0 <= j < |xs| && xs[j] == y;
    assert ExcludedIds(xs)[i] == ExcludedIds(xs)[j];
  }

  /** With distinct ids the verdict tells exactly which list a task ends up in, and with which reason. */
  lemma VerdictsAreExact(max: nat, cs: seq<TaskClassification>, i: nat)
    requires i < |cs| && NoDuplicates(Ids(cs))
    ensures VerdictOf(max, cs, i) == Scheduled <==> cs[i].taskId in Ids(Included(max, cs))
    ensures forall r ::
              VerdictOf(max, cs, i) == Rejected(r) <==> Exclusion(cs[i].taskId, r) in Exclusions(max, cs)
    ensures VerdictOf(max, cs, i) == PassedOver <==> cs[i].taskId in Dropped(Groups(Writes(cs)))
  {
    var v, id, xs := VerdictOf(max, cs, i), cs[i].taskId, Exclusions(max, cs);
    Conservation(max, cs);
    OneListEach(Ids(Included(max, cs)), ExcludedIds(xs), Dropped(Groups(Writes(cs))), Ids(cs), id);
    PlannerFollowsVerdicts(max, cs, i);
    match v {
      case Scheduled =>
        var k :| 0 <= k < |Included(max, cs)| && Included(max, cs)[k] == cs[i];
        assert Ids(Included(max, cs))[k] == id;
      case Rejected(reason) => ListedIds(xs, Exclusion(id, reason));
      case PassedOver => PassedOverIsDropped(max, cs, i);
    }
    forall r | Exclusion(id, r) in xs ensures v == Rejected(r) {
      ListedIds(xs, Exclusion(id, r));
      OneReasonEach(xs, Exclusion(id, r), Exclusion(id, v.reason));
    }
  }

  // ----- verdicts on the input itself -----

  /** An earlier write task of the input has this key. */
  ghost predicate EarlierHas(cs: seq<TaskClassification>, i: nat, key: Option<string>)
    requires i <= |cs|
  {
    exists k :: 0 <= k < i && cs[k].mode == Write && cs[k].conflictKey == key
  }

  ghost predicate LaterHas(cs: seq<TaskClassification>, i: nat, key: Option<string>) {
    exists k :: i < k < |cs| && cs[k].mode == Write && cs[k].conflictKey == key
  }

  lemma WritesSnoc(init: seq<TaskClassification>, c: TaskClassification)
    ensures Writes(init + [c]) == Writes(init) + if c.mode == Write then [c] else []
  {
    assert (init + [c])[..|init|] == init;
  }

  lemma KeysOfWritesSnoc(init: seq<TaskClassification>, c: TaskClassification, key: Option<string>)
    ensures key in Keys(Writes(init + [c])) <==> key in Keys(Writes(init)) || (c.mode == Write && c.conflictKey == key)
  {
    WritesSnoc(init, c);
    if c.mode == Write { KeysSnoc(Writes(init), c); } else { assert Writes(init) + [] == Writes(init); }
  }

  lemma GroupOfWritesSnoc(init: seq<TaskClassification>, c: TaskClassification, key: Option<string>)
    ensures |WithKey(Writes(init + [c]), key)|
         == |WithKey(Writes(init), key)| + if c.mode == Write && c.conflictKey == key then 1 else 0
  {
    WritesSnoc(init, c);
    if c.mode == Write { WithKeySnoc(Writes(init), c, key); } else { assert Writes(init) + [] == Writes(init); }
  }

  lemma EarlierSnoc(cs: seq<TaskClassification>, n: nat, key: Option<string>)
    requires n < |cs|
    ensures EarlierHas(cs, n + 1, key) <==> EarlierHas(cs, n, key) || (cs[n].mode == Write && cs[n].conflictKey == key)
  {
  }

  lemma {:induction false} KeysBefore(cs: seq<TaskClassification>, i: nat, key: Option<string>)
    requires i <= |cs|
    ensures key in Keys(Writes(cs[..i])) <==> EarlierHas(cs, i, key)
  {
    if i == 0 {
      assert cs[..0] == [];
    } else {
      var n := i - 1;
      KeysBefore(cs, n, key);
      assert cs[..i] == cs[..n] + [cs[n]];
      KeysOfWritesSnoc(cs[..n], cs[n], key);
      EarlierSnoc(cs, n, key);
    }
  }

  lemma KeysSnoc(init: seq<TaskClassification>, c: TaskClassification)
    ensures Keys(init + [c]) == Keys(init) + {c.conflictKey}
  {
    assert (init + [c])[..|init|] == init;
  }

  lemma LaterSnoc(init: seq<TaskClassification>, c: TaskClassification, i: nat, key: Option<string>)
    requires i < |init|
    ensures LaterHas(init + [c], i, key) <==> LaterHas(init, i, key) || (c.mode == Write && c.conflictKey == key)
    ensures EarlierHas(init + [c], i, key) <==> EarlierHas(init, i, key)
  {
    var cs := init + [c];
    assert cs[|init|] == c;
    if k :| i < k < |init| && init[k].mode == Write && init[k].conflictKey == key { assert cs[k] == init[k]; }
    if k :| i < k < |cs| && cs[k].mode == Write && cs[k].conflictKey == key { assert k < |init| ==> init[k] == cs[k]; }
    if k :| 0 <= k < i && init[k].mode == Write && init[k].conflictKey == key { assert cs[k] == init[k]; }
    if k :| 0 <= k < i && cs[k].mode == Write && cs[k].conflictKey == key { assert init[k] == cs[k]; }
  }

  /** The group of a first task has more members exactly when a later task has its key. */
  lemma {:induction false} GroupGrowsLater(cs: seq<TaskClassification>, i: nat)
    requires i < |cs| && cs[i].mode == Write && !EarlierHas(cs, i, cs[i].conflictKey)
    ensures |WithKey(Writes(cs), cs[i].conflictKey)| > 1 <==> LaterHas(cs, i, cs[i].conflictKey)
    ensures |WithKey(Writes(cs), cs[i].conflictKey)| >= 1
  {
    var n, key := |cs| - 1, cs[i].conflictKey;
    var init := cs[..n];
    assert cs == init + [cs[n]];
    GroupOfWritesSnoc(init, cs[n], key);
    if i == n {
      KeysBefore(cs, n, key);
      GroupNonempty(Writes(init), key);
    } else {
      assert init[i] == cs[i];
      LaterSnoc(init, cs[n], i, key);
      GroupGrowsLater(init, i);
    }
  }

  /** What each verdict says about the input: which tasks before and after the task decide. */
  lemma VerdictsMean(max: nat, cs: seq<TaskClassification>, i: nat)
    requires i < |cs|
    ensures var c, v := cs[i], VerdictOf(max, cs, i);
            var first := !EarlierHas(cs, i, c.conflictKey);
            var room := |Keys(Writes(cs[..i]))| < max;
            && (v == Rejected(ExceededReadOnly) <==> c.mode == ReadOnly && |Reads(cs[..i])| >= max)
            && (forall k :: v == Rejected(BlockedByKey(k)) <==> c.mode == Write && c.conflictKey == Some(k) && !first)
            && (forall k :: v == Rejected(ConflictWithBranch(k))
                  <==> c.mode == Write && c.conflictKey == Some(k) && first && !room && LaterHas(cs, i, c.conflictKey))
            && (v == Rejected(ExceededWrite)
                <==> c.mode == Write && first && !room && (c.conflictKey == None || !LaterHas(cs, i, c.conflictKey)))
            && (v == PassedOver <==> c.mode == Write && c.conflictKey == None && !first)
            && (v == Scheduled
                <==> if c.mode == ReadOnly then |Reads(cs[..i])| < max else first && room)
  {
    KeysBefore(cs, i, cs[i].conflictKey);
    if cs[i].mode == Write && !EarlierHas(cs, i, cs[i].conflictKey) { GroupGrowsLater(cs, i); }
  }

  // ----- inside a cycle -----

  lemma {:induction false} ModeCounts(cs: seq<TaskClassification>)
    ensures |Reads(cs)| + |Writes(cs)| == |cs|
  {
    if cs != [] { ModeCounts(cs[..|cs| - 1]); }
  }

  lemma OnlyBlockedBelowCap(max: nat, gs: seq<Group>)
    requires |gs| <= max
    ensures forall x :: x in WriteExclusions(max, gs) ==> x.reason.BlockedByKey?
  {
    forall x | x in WriteExclusions(max, gs) ensures x.reason.BlockedByKey? {
      InSomePart(Contributions(max, gs), x);
      var j :| 0 <= j < |gs| && x in Contributions(max, gs)[j];
      assert x in GroupExclusions(gs[j].key, gs[j].tasks, false);
    }
  }

  /** Discovery returns at most as many tasks as the planner admits, so only a conflict key can exclude. */
  lemma CapNeverExcludes(max: nat, cs: seq<TaskClassification>)
    requires |cs| <= max
    ensures forall x :: x in Exclusions(max, cs) ==> x.reason.BlockedByKey?
    ensures Included(max, cs) == Reads(cs) + Firsts(Writes(cs))
  {
    ModeCounts(cs);
    FirstsBasics(Writes(cs));
    OnlyBlockedBelowCap(max, Groups(Writes(cs)));
  }

  // ----- optimality -----

  ghost predicate KeyDistinct(s: set<TaskClassification>) {
    forall c, d :: c in s && d in s && c != d ==> c.conflictKey != d.conflictKey
  }

  lemma DistinctKeysCount(choice: set<TaskClassification>, ws: seq<TaskClassification>)
    requires choice <= ToSet(ws) && KeyDistinct(choice)
    ensures |choice| <= |Keys(ws)|
  {
    var keyOf := (c: TaskClassification) => c.conflictKey;
    var image := set c | c in choice :: keyOf(c);
    InjectiveImageSize(choice, keyOf, image);
    forall k | k in image ensures k in Keys(ws) {
      var c :| c in choice && keyOf(c) == k;
      var p :| 0 <= p < |ws| && ws[p] == c;
      KeysOfMembers(ws, p);
    }
    SubsetSize(image, Keys(ws));
  }

  lemma FirstsAreDistinct(ws: seq<TaskClassification>, max: nat)
    ensures KeyDistinct(ToSet(Take(Firsts(ws), max)))
    ensures NoDuplicates(Take(Firsts(ws), max))
  {
    var fs := Take(Firsts(ws), max);
    assert forall i, j :: 0 <= i < j < |fs| ==> fs[i].conflictKey != fs[j].conflictKey by { FirstsBasics(ws); }
    forall c, d | c in fs && d in fs && c != d ensures c.conflictKey != d.conflictKey {
      var i :| 0 <= i < |fs| && fs[i] == c;
      var j :| 0 <= j < |fs| && fs[j] == d;
      assert if i < j then fs[i].conflictKey != fs[j].conflictKey else fs[j].conflictKey != fs[i].conflictKey;
    }
  }

  /** No conflict-free choice of write tasks within the cap is larger than the planner's. */
  lemma PlannerIsOptimal(max: nat, ws: seq<TaskClassification>, choice: set<TaskClassification>)
    requires choice <= ToSet(ws) && KeyDistinct(choice) && |choice| <= max
    ensures |choice| <= |Take(Firsts(ws), max)|
    ensures KeyDistinct(ToSet(Take(Firsts(ws), max)))
    ensures |ToSet(Take(Firsts(ws), max))| == |Take(Firsts(ws), max)|
  {
    KeyCount(ws);
    DistinctKeysCount(choice, ws);
    FirstsAreDistinct(ws, max);
    SetSizeVersusLength(Take(Firsts(ws), max));
  }

  // ----- the label -----

  ghost predicate KeysDiffer(ws: seq<TaskClassification>) {
    forall i, j :: 0 <= i < j < |ws| ==> ws[i].conflictKey != ws[j].conflictKey
  }

  lemma {:induction false} KeyedIsKeys(ws: seq<TaskClassification>)
    requires forall c :: c in ws ==> HasKey(c)
    ensures |Keyed(ws)| == |ws|
    ensures forall i :: 0 <= i < |ws| ==> Some(Keyed(ws)[i]) == ws[i].conflictKey
  {
    if ws != [] { KeyedIsKeys(ws[..|ws| - 1]); }
  }

  lemma {:induction false} DistinctMeansAllFirst(ws: seq<TaskClassification>)
    requires KeysDiffer(ws)
    ensures Firsts(ws) == ws
  {
    if ws != [] {
      var n := |ws| - 1;
      DistinctMeansAllFirst(ws[..n]);
      if ws[n].conflictKey in Keys(ws[..n]) {
        var i := IndexOfKey(ws[..n], ws[n].conflictKey);
        assert false;
      }
    }
  }

  lemma KeyedTellsKeysApart(ws: seq<TaskClassification>)
    requires forall c :: c in ws ==> HasKey(c)
    ensures NoDuplicates(Keyed(ws)) <==> KeysDiffer(ws)
  {
    KeyedIsKeys(ws);
    var ks := Keyed(ws);
    forall i, j | 0 <= i < j < |ws| ensures ks[i] == ks[j] <==> ws[i].conflictKey == ws[j].conflictKey {
      assert Some(ks[i]) == ws[i].conflictKey && Some(ks[j]) == ws[j].conflictKey;
    }
  }

  /** The test behind "isolated" holds exactly when no write task has to wait for another's key. */
  lemma IsolatedMeansNoConflict(ws: seq<TaskClassification>)
    requires forall c :: c in ws ==> HasKey(c)
    ensures NoDuplicates(Keyed(ws)) <==> Firsts(ws) == ws
  {
    KeyedTellsKeysApart(ws);
    FirstsBasics(ws);
    if KeysDiffer(ws) { DistinctMeansAllFirst(ws); }
  }

  /** A plan with keys on all write tasks and room for at least one is labelled isolated iff something is written,
      more than one task is included, and no two write tasks share a key. */
  lemma LabelIsExact(plan: BatchPlan, max: nat, cs: seq<TaskClassification>)
    requires IsPlanFor(plan, max, cs)
    requires max >= 1 && forall c :: c in Writes(cs) ==> HasKey(c)
    ensures plan.batchType == WriteParallelIsolated
            <==> Writes(cs) != [] && |plan.taskIds| > 1 && KeysDiffer(Writes(cs))
    ensures plan.batchType == WriteSequential
            <==> Writes(cs) != [] && (|plan.taskIds| == 1 || !KeysDiffer(Writes(cs)))
    ensures plan.batchType == WriteParallelIsolated ==>
              plan.taskIds == Ids(Take(Reads(cs), max) + Take(Writes(cs), max))
  {
    var ws := Writes(cs);
    KeyedTellsKeysApart(ws);
    IsolatedMeansNoConflict(ws);
    if ws != [] {
      KeysOfMembers(ws, 0);
      KeyCount(ws);
      assert |Take(Firsts(ws), max)| >= 1;
    }
  }

  /** The keys that the label compares are the keys of the write tasks except the empty one. */
  lemma {:induction false} KeyedMembers(ws: seq<TaskClassification>, key: string)
    ensures key in Keyed(ws) <==> key != "" && Some(key) in Keys(ws)
  {
    if ws != [] { KeyedMembers(ws[..|ws| - 1], key); }
  }
}
