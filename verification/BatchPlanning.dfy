/** execqueue/orchestrator/classification.py, BatchPlanner. */
module BatchPlanning {
  import opened Prelude
  import opened Tables
  import opened Classification

  datatype BatchType = ReadonlyParallel | WriteParallelIsolated | WriteSequential

  datatype Reason =
    | ExceededReadOnly
    | ExceededWrite
    | ConflictWithBranch(key: string)
    | BlockedByKey(key: string)

  datatype Exclusion = Exclusion(taskId: TaskId, reason: Reason)

  datatype BatchPlan = BatchPlan(
    batchId: string,
    batchType: BatchType,
    taskIds: seq<TaskId>,
    excludedIds: seq<TaskId>,
    reasons: map<TaskId, Reason>)

  // ----- the reference: a one-pass filter -----

  function Ids(cs: seq<TaskClassification>): (ids: seq<TaskId>)
    ensures |ids| == |cs|
    ensures forall i :: 0 <= i < |cs| ==> ids[i] == cs[i].taskId
  {
    seq(|cs|, i requires 0 <= i < |cs| => cs[i].taskId)
  }

  lemma IdsConcat(a: seq<TaskClassification>, b: seq<TaskClassification>)
    ensures Ids(a + b) == Ids(a) + Ids(b)
  {
  }

  function Reads(cs: seq<TaskClassification>): seq<TaskClassification> {
    if cs == [] then [] else
      var n := |cs| - 1;
      Reads(cs[..n]) + if cs[n].mode == ReadOnly then [cs[n]] else []
  }

  function Writes(cs: seq<TaskClassification>): seq<TaskClassification> {
    if cs == [] then [] else
      var n := |cs| - 1;
      Writes(cs[..n]) + if cs[n].mode == ReadOnly then [] else [cs[n]]
  }

  function Keys(cs: seq<TaskClassification>): set<Option<string>> {
    if cs == [] then {} else Keys(cs[..|cs| - 1]) + {cs[|cs| - 1].conflictKey}
  }

  /** The tasks whose key no earlier task of the list has: a filter with a set of seen keys. */
  function Firsts(ws: seq<TaskClassification>): seq<TaskClassification> {
    if ws == [] then [] else
      var n := |ws| - 1;
      Firsts(ws[..n]) + if ws[n].conflictKey in Keys(ws[..n]) then [] else [ws[n]]
  }

  function Included(max: nat, cs: seq<TaskClassification>): seq<TaskClassification> {
    Take(Reads(cs), max) + Take(Firsts(Writes(cs)), max)
  }

  // ----- the grouping that the planner builds -----

  function WithKey(ws: seq<TaskClassification>, key: Option<string>): seq<TaskClassification> {
    if ws == [] then [] else
      var n := |ws| - 1;
      WithKey(ws[..n], key) + if ws[n].conflictKey == key then [ws[n]] else []
  }

  lemma {:induction false} GroupNonempty(ws: seq<TaskClassification>, key: Option<string>)
    ensures WithKey(ws, key) != [] <==> key in Keys(ws)
  {
    if ws != [] { GroupNonempty(ws[..|ws| - 1], key); }
  }

  lemma {:induction false} GroupSharesKey(ws: seq<TaskClassification>, key: Option<string>, i: nat)
    requires i < |WithKey(ws, key)|
    ensures WithKey(ws, key)[i].conflictKey == key && WithKey(ws, key)[i] in ws
  {
    var n := |ws| - 1;
    if i < |WithKey(ws[..n], key)| { GroupSharesKey(ws[..n], key, i); }
  }

  lemma {:induction false} KeysOfMembers(ws: seq<TaskClassification>, i: nat)
    requires i < |ws|
    ensures ws[i].conflictKey in Keys(ws)
  {
    if i < |ws| - 1 { KeysOfMembers(ws[..|ws| - 1], i); }
  }

  /** The first task of each key: no two with one key, every key present, all from the list. */
  lemma {:induction false} FirstsBasics(ws: seq<TaskClassification>)
    ensures |Firsts(ws)| <= |ws|
    ensures Keys(Firsts(ws)) == Keys(ws)
    ensures forall j :: 0 <= j < |Firsts(ws)| ==> Firsts(ws)[j] in ws
    ensures forall i, j :: 0 <= i < j < |Firsts(ws)| ==> Firsts(ws)[i].conflictKey != Firsts(ws)[j].conflictKey
  {
    if ws != [] {
      var n := |ws| - 1;
      var fs := Firsts(ws[..n]);
      FirstsBasics(ws[..n]);
      if ws[n].conflictKey in Keys(ws[..n]) {
        assert Firsts(ws) == fs;
        assert Keys(ws) == Keys(ws[..n]);
      } else {
        assert (fs + [ws[n]])[..|fs|] == fs;
        forall i | 0 <= i < |fs| ensures fs[i].conflictKey != ws[n].conflictKey {
          KeysOfMembers(fs, i);
        }
      }
    }
  }

  /** The head of each group is the first task with that key. */
  lemma {:induction false} GroupHead(ws: seq<TaskClassification>, j: nat)
    requires j < |Firsts(ws)|
    ensures Firsts(ws)[j].conflictKey in Keys(ws)
    ensures WithKey(ws, Firsts(ws)[j].conflictKey) != []
    ensures WithKey(ws, Firsts(ws)[j].conflictKey)[0] == Firsts(ws)[j]
  {
    var n := |ws| - 1;
    if j < |Firsts(ws[..n])| {
      GroupHead(ws[..n], j);
    } else {
      GroupNonempty(ws[..n], ws[n].conflictKey);
    }
  }

  function Blocked(key: string, group: seq<TaskClassification>): (xs: seq<Exclusion>)
    ensures |xs| == |group|
  {
    seq(|group|, i requires 0 <= i < |group| => Exclusion(group[i].taskId, BlockedByKey(key)))
  }

  function FirstReason(key: Option<string>, size: nat): Reason {
    if key.None? || size == 1 then ExceededWrite else ConflictWithBranch(key.value)
  }

  /** What one conflict group contributes to the exclusions; `full` says the write cap is reached. */
  function GroupExclusions(key: Option<string>, group: seq<TaskClassification>, full: bool): seq<Exclusion> {
    if group == [] then [] else
      (if full then [Exclusion(group[0].taskId, FirstReason(key, |group|))] else [])
      + (if key.Some? then Blocked(key.value, group[1..]) else [])
  }

  /** An entry of the dictionary conflict_groups. */
  datatype Group = Group(key: Option<string>, tasks: seq<TaskClassification>)

  /** The entries of conflict_groups in insertion order. */
  function Groups(ws: seq<TaskClassification>): (gs: seq<Group>)
    ensures |gs| == |Firsts(ws)|
  {
    var fs := Firsts(ws);
    seq(|fs|, j requires 0 <= j < |fs| => Group(fs[j].conflictKey, WithKey(ws, fs[j].conflictKey)))
  }

  /** What each group contributes; the groups past the first `max` come when the cap is reached. */
  function Contributions(max: nat, gs: seq<Group>): (parts: seq<seq<Exclusion>>)
    ensures |parts| == |gs|
  {
    seq(|gs|, j requires 0 <= j < |gs| => GroupExclusions(gs[j].key, gs[j].tasks, j >= max))
  }

  function WriteExclusions(max: nat, gs: seq<Group>): seq<Exclusion> {
    Concat(Contributions(max, gs))
  }

  function ReadExclusions(rs: seq<TaskClassification>): (xs: seq<Exclusion>)
    ensures |xs| == |rs|
  {
    seq(|rs|, i requires 0 <= i < |rs| => Exclusion(rs[i].taskId, ExceededReadOnly))
  }

  function Exclusions(max: nat, cs: seq<TaskClassification>): seq<Exclusion> {
    ReadExclusions(Drop(Reads(cs), max)) + WriteExclusions(max, Groups(Writes(cs)))
  }

  function ExcludedIds(xs: seq<Exclusion>): (ids: seq<TaskId>)
    ensures |ids| == |xs|
  {
    seq(|xs|, i requires 0 <= i < |xs| => xs[i].taskId)
  }

  /** The dictionary that results from recording the exclusions in order. */
  function ReasonMap(xs: seq<Exclusion>): (m: map<TaskId, Reason>)
    ensures m.Keys == set x | x in xs :: x.taskId
  {
    if xs == [] then map[] else
      var n := |xs| - 1;
      assert xs == xs[..n] + [xs[n]];
      ReasonMap(xs[..n])[xs[n].taskId := xs[n].reason]
  }

  // ----- the planner -----

  /** A write task's key that Python treats as true. */
  predicate HasKey(c: TaskClassification) {
    c.conflictKey.Some? && c.conflictKey.value != ""
  }

  function Keyed(ws: seq<TaskClassification>): seq<string> {
    if ws == [] then [] else
      var n := |ws| - 1;
      Keyed(ws[..n]) + if HasKey(ws[n]) then [ws[n].conflictKey.value] else []
  }

  method Separate(cs: seq<TaskClassification>)
    returns (readonlyTasks: seq<TaskClassification>, writeTasks: seq<TaskClassification>)
    ensures readonlyTasks == Reads(cs) && writeTasks == Writes(cs)
  {
    readonlyTasks, writeTasks := [], [];
    for i := 0 to |cs|
      invariant readonlyTasks == Reads(cs[..i]) && writeTasks == Writes(cs[..i])
    {
      assert cs[..i + 1][..i] == cs[..i];
      if cs[i].mode == ReadOnly {
        readonlyTasks := readonlyTasks + [cs[i]];
      } else {
        writeTasks := writeTasks + [cs[i]];
      }
    }
    assert cs[..|cs|] == cs;
  }

  function KeyOrder(fs: seq<TaskClassification>): (ks: seq<Option<string>>)
    ensures |ks| == |fs|
  {
    seq(|fs|, j requires 0 <= j < |fs| => fs[j].conflictKey)
  }

  ghost predicate IsGrouping(groups: map<Option<string>, seq<TaskClassification>>, ws: seq<TaskClassification>) {
    groups.Keys == Keys(ws) && forall k :: k in groups ==> groups[k] == WithKey(ws, k)
  }

  lemma WithKeySnoc(init: seq<TaskClassification>, w: TaskClassification, key: Option<string>)
    ensures WithKey(init + [w], key) == WithKey(init, key) + if w.conflictKey == key then [w] else []
  {
  }

  lemma FirstsSnoc(init: seq<TaskClassification>, w: TaskClassification)
    ensures Firsts(init + [w]) == Firsts(init) + if w.conflictKey in Keys(init) then [] else [w]
  {
  }

  lemma ExtendKeyOrder(init: seq<TaskClassification>, w: TaskClassification)
    ensures KeyOrder(Firsts(init + [w]))
         == KeyOrder(Firsts(init)) + if w.conflictKey in Keys(init) then [] else [w.conflictKey]
  {
  }

  lemma ExtendGrouping(groups: map<Option<string>, seq<TaskClassification>>, init: seq<TaskClassification>,
                       w: TaskClassification)
    requires IsGrouping(groups, init)
    ensures IsGrouping(
              groups[w.conflictKey := (if w.conflictKey in groups then groups[w.conflictKey] else []) + [w]],
              init + [w])
  {
    assert Keys(init + [w]) == Keys(init) + {w.conflictKey} by { assert (init + [w])[..|init|] == init; }
    GroupNonempty(init, w.conflictKey);
    forall k | k in Keys(init + [w])
      ensures WithKey(init + [w], k) == WithKey(init, k) + if w.conflictKey == k then [w] else []
    {
      WithKeySnoc(init, w, k);
    }
  }

  /** The insertion-ordered dictionary conflict_groups: its keys in order, and the group of each. */
  method GroupByKey(ws: seq<TaskClassification>)
    returns (keyOrder: seq<Option<string>>, groups: map<Option<string>, seq<TaskClassification>>)
    ensures keyOrder == KeyOrder(Firsts(ws))
    ensures IsGrouping(groups, ws)
  {
    keyOrder, groups := [], map[];
    for i := 0 to |ws|
      invariant keyOrder == KeyOrder(Firsts(ws[..i]))
      invariant IsGrouping(groups, ws[..i])
    {
      ExtendKeyOrder(ws[..i], ws[i]);
      ExtendGrouping(groups, ws[..i], ws[i]);
      assert ws[..i + 1] == ws[..i] + [ws[i]];
      var key := ws[i].conflictKey;
      if key !in groups {
        keyOrder := keyOrder + [key];
        groups := groups[key := []];
      }
      groups := groups[key := groups[key] + [ws[i]]];
    }
    assert ws[..|ws|] == ws;
  }

  lemma RecordOne(xs: seq<Exclusion>, x: Exclusion)
    ensures ExcludedIds(xs + [x]) == ExcludedIds(xs) + [x.taskId]
    ensures ReasonMap(xs + [x]) == ReasonMap(xs)[x.taskId := x.reason]
  {
  }

  method BlockOthers(key: string, others: seq<TaskClassification>, excludedBefore: seq<TaskId>,
                     reasonsBefore: map<TaskId, Reason>, ghost before: seq<Exclusion>)
    returns (excluded: seq<TaskId>, reasons: map<TaskId, Reason>)
    requires excludedBefore == ExcludedIds(before) && reasonsBefore == ReasonMap(before)
    ensures excluded == ExcludedIds(before + Blocked(key, others))
    ensures reasons == ReasonMap(before + Blocked(key, others))
  {
    excluded, reasons := excludedBefore, reasonsBefore;
    ghost var blocked := Blocked(key, others);
    assert before + blocked[..0] == before;
    for i := 0 to |others|
      invariant excluded == ExcludedIds(before + blocked[..i]) && reasons == ReasonMap(before + blocked[..i])
    {
      RecordOne(before + blocked[..i], blocked[i]);
      assert before + blocked[..i + 1] == before + blocked[..i] + [blocked[i]];
      excluded := excluded + [others[i].taskId];
      reasons := reasons[others[i].taskId := BlockedByKey(key)];
    }
    assert blocked[..|others|] == blocked;
  }

  lemma GroupExclusionsFrom(before: seq<Exclusion>, key: Option<string>, group: seq<TaskClassification>, full: bool,
                            first: seq<Exclusion>)
    requires group != []
    requires first == if full then before + [Exclusion(group[0].taskId, FirstReason(key, |group|))] else before
    ensures before + GroupExclusions(key, group, full)
         == if key.Some? then first + Blocked(key.value, group[1..]) else first
  {
    var head := if full then [Exclusion(group[0].taskId, FirstReason(key, |group|))] else [];
    var rest := if key.Some? then Blocked(key.value, group[1..]) else [];
    assert first == before + head;
    ConcatAssociates(before, head, rest);
    assert first + [] == first;
  }

  /** One pass of the loop over conflict_groups. */
  method PlanGroup(max: nat, key: Option<string>, group: seq<TaskClassification>, count: nat,
                   excludedBefore: seq<TaskId>, reasonsBefore: map<TaskId, Reason>, ghost before: seq<Exclusion>)
    returns (included: seq<TaskId>, writeCount: nat, excluded: seq<TaskId>, reasons: map<TaskId, Reason>)
    requires group != []
    requires excludedBefore == ExcludedIds(before) && reasonsBefore == ReasonMap(before)
    ensures included == if count < max then [group[0].taskId] else []
    ensures writeCount == if count < max then count + 1 else count
    ensures excluded == ExcludedIds(before + GroupExclusions(key, group, count >= max))
    ensures reasons == ReasonMap(before + GroupExclusions(key, group, count >= max))
  {
    included, writeCount := [], count;
    excluded, reasons := excludedBefore, reasonsBefore;
    ghost var first := before;
    if count < max {
      included := [group[0].taskId];
      writeCount := count + 1;
    } else {
      var reason := FirstReason(key, |group|);
      RecordOne(before, Exclusion(group[0].taskId, reason));
      excluded := excluded + [group[0].taskId];
      reasons := reasons[group[0].taskId := reason];
      first := before + [Exclusion(group[0].taskId, reason)];
    }
    if key.Some? {
      excluded, reasons := BlockOthers(key.value, group[1..], excluded, reasons, first);
    }
    GroupExclusionsFrom(before, key, group, count >= max, first);
  }

  /** batch_type: the set of keys is compared with the list of keyed tasks by size. */
  method ChooseType(writeTasks: seq<TaskClassification>, included: nat) returns (batchType: BatchType)
    ensures batchType == ReadonlyParallel <==> writeTasks == []
    ensures batchType == WriteParallelIsolated
            <==> writeTasks != [] && included != 1 && NoDuplicates(Keyed(writeTasks))
  {
    if writeTasks == [] {
      batchType := ReadonlyParallel;
    } else if included == 1 {
      batchType := WriteSequential;
    } else {
      var keyed := Keyed(writeTasks);
      SetSizeVersusLength(keyed);
      if |ToSet(keyed)| >= |keyed| {
        batchType := WriteParallelIsolated;
      } else {
        batchType := WriteSequential;
      }
    }
  }

  method ExcludeOverflow(overflow: seq<TaskClassification>)
    returns (excluded: seq<TaskId>, reasons: map<TaskId, Reason>)
    ensures excluded == ExcludedIds(ReadExclusions(overflow))
    ensures reasons == ReasonMap(ReadExclusions(overflow))
  {
    excluded, reasons := [], map[];
    ghost var all := ReadExclusions(overflow);
    for i := 0 to |overflow|
      invariant excluded == ExcludedIds(all[..i]) && reasons == ReasonMap(all[..i])
    {
      RecordOne(all[..i], all[i]);
      assert all[..i + 1] == all[..i] + [all[i]];
      excluded := excluded + [overflow[i].taskId];
      reasons := reasons[overflow[i].taskId := ExceededReadOnly];
    }
    assert all[..|overflow|] == all;
  }

  /** conflict_groups.items() */
  method Items(ws: seq<TaskClassification>) returns (gs: seq<Group>)
    ensures gs == Groups(ws)
  {
    var keyOrder, groups := GroupByKey(ws);
    gs := [];
    for j := 0 to |keyOrder|
      invariant gs == Groups(ws)[..j]
    {
      GroupHead(ws, j);
      gs := gs + [Group(keyOrder[j], groups[keyOrder[j]])];
    }
  }

  function Heads(gs: seq<Group>): (ids: seq<TaskId>)
    requires forall g :: g in gs ==> g.tasks != []
    ensures |ids| == |gs|
  {
    seq(|gs|, j requires 0 <= j < |gs| => gs[j].tasks[0].taskId)
  }

  lemma WriteExclusionsSnoc(max: nat, init: seq<Group>, g: Group)
    ensures WriteExclusions(max, init + [g])
         == WriteExclusions(max, init) + GroupExclusions(g.key, g.tasks, |init| >= max)
  {
    var last := GroupExclusions(g.key, g.tasks, |init| >= max);
    assert Contributions(max, init + [g]) == Contributions(max, init) + [last];
    ConcatSnoc(Contributions(max, init), last);
  }

  lemma NextGroup(max: nat, gs: seq<Group>, j: nat, before: seq<Exclusion>)
    requires j < |gs|
    ensures before + WriteExclusions(max, gs[..j]) + GroupExclusions(gs[j].key, gs[j].tasks, j >= max)
         == before + WriteExclusions(max, gs[..j + 1])
  {
    assert gs[..j + 1] == gs[..j] + [gs[j]];
    WriteExclusionsSnoc(max, gs[..j], gs[j]);
    ConcatAssociates(before, WriteExclusions(max, gs[..j]), GroupExclusions(gs[j].key, gs[j].tasks, j >= max));
  }

  lemma HeadsSnoc(max: nat, gs: seq<Group>, j: nat)
    requires j < |gs| && forall g :: g in gs ==> g.tasks != []
    ensures |Heads(Take(gs[..j], max))| == if j < max then j else max
    ensures Heads(Take(gs[..j + 1], max))
         == Heads(Take(gs[..j], max)) + if j < max then [gs[j].tasks[0].taskId] else []
  {
  }

  /** What the loop over conflict_groups has recorded before group j. */
  ghost predicate PlannedSoFar(max: nat, gs: seq<Group>, j: nat, before: seq<Exclusion>, included: seq<TaskId>,
                               writeCount: nat, excluded: seq<TaskId>, reasons: map<TaskId, Reason>)
    requires j <= |gs| && forall g :: g in gs ==> g.tasks != []
  {
    && included == Heads(Take(gs[..j], max)) && writeCount == |included|
    && excluded == ExcludedIds(before + WriteExclusions(max, gs[..j]))
    && reasons == ReasonMap(before + WriteExclusions(max, gs[..j]))
  }

  method PlanNext(max: nat, gs: seq<Group>, j: nat, includedBefore: seq<TaskId>, count: nat,
                  excludedBefore: seq<TaskId>, reasonsBefore: map<TaskId, Reason>, ghost before: seq<Exclusion>)
    returns (included: seq<TaskId>, writeCount: nat, excluded: seq<TaskId>, reasons: map<TaskId, Reason>)
    requires j < |gs| && forall g :: g in gs ==> g.tasks != []
    requires PlannedSoFar(max, gs, j, before, includedBefore, count, excludedBefore, reasonsBefore)
    ensures PlannedSoFar(max, gs, j + 1, before, included, writeCount, excluded, reasons)
  {
    HeadsSnoc(max, gs, j);
    NextGroup(max, gs, j, before);
    var ids;
    ids, writeCount, excluded, reasons :=
      PlanGroup(max, gs[j].key, gs[j].tasks, count, excludedBefore, reasonsBefore,
                before + WriteExclusions(max, gs[..j]));
    included := includedBefore + ids;
  }

  method PlanWrites(max: nat, gs: seq<Group>, excludedBefore: seq<TaskId>,
                    reasonsBefore: map<TaskId, Reason>, ghost before: seq<Exclusion>)
    returns (included: seq<TaskId>, excluded: seq<TaskId>, reasons: map<TaskId, Reason>)
    requires forall g :: g in gs ==> g.tasks != []
    requires excludedBefore == ExcludedIds(before) && reasonsBefore == ReasonMap(before)
    ensures included == Heads(Take(gs, max))
    ensures excluded == ExcludedIds(before + WriteExclusions(max, gs))
    ensures reasons == ReasonMap(before + WriteExclusions(max, gs))
  {
    included, excluded, reasons := [], excludedBefore, reasonsBefore;
    var writeCount := 0;
    assert before + WriteExclusions(max, gs[..0]) == before;
    for j := 0 to |gs|
      invariant PlannedSoFar(max, gs, j, before, included, writeCount, excluded, reasons)
    {
      included, writeCount, excluded, reasons :=
        PlanNext(max, gs, j, included, writeCount, excluded, reasons, before);
    }
    assert gs[..|gs|] == gs;
  }

  lemma HeadsOfGroups(ws: seq<TaskClassification>, max: nat)
    ensures forall g :: g in Groups(ws) ==> g.tasks != []
    ensures Heads(Take(Groups(ws), max)) == Ids(Take(Firsts(ws), max))
  {
    forall j | 0 <= j < |Groups(ws)|
      ensures Groups(ws)[j].tasks != [] && Groups(ws)[j].tasks[0] == Firsts(ws)[j]
    {
      GroupHead(ws, j);
    }
  }

  /** What the planner promises about a plan for these tasks. */
  ghost predicate IsPlanFor(plan: BatchPlan, max: nat, cs: seq<TaskClassification>) {
    && plan.taskIds == Ids(Included(max, cs))
    && plan.excludedIds == ExcludedIds(Exclusions(max, cs))
    && plan.reasons == ReasonMap(Exclusions(max, cs))
    && (plan.batchType == ReadonlyParallel <==> Writes(cs) == [])
    && (plan.batchType == WriteParallelIsolated
        <==> Writes(cs) != [] && |plan.taskIds| != 1 && NoDuplicates(Keyed(Writes(cs))))
  }

  method CreateBatchPlan(max: nat, cs: seq<TaskClassification>, batchId: string) returns (plan: BatchPlan)
    ensures plan.batchId == batchId && IsPlanFor(plan, max, cs)
  {
    var readonlyTasks, writeTasks := Separate(cs);
    var readonlyBatch := Take(readonlyTasks, max);
    var overflow := Drop(readonlyTasks, max);
    var excluded, reasons := ExcludeOverflow(overflow);
    var writeIds;
    HeadsOfGroups(writeTasks, max);
    var conflictGroups := Items(writeTasks);
    writeIds, excluded, reasons := PlanWrites(max, conflictGroups, excluded, reasons, ReadExclusions(overflow));
    var included := Ids(readonlyBatch) + writeIds;
    IdsConcat(readonlyBatch, Take(Firsts(writeTasks), max));
    var batchType := ChooseType(writeTasks, |included|);
    plan := BatchPlan(batchId, batchType, included, excluded, reasons);
  }
}
