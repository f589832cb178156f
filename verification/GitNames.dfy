/** execqueue/orchestrator/git_context.py: the names that isolate one task's work from another's. */
module GitNames {
  import opened Rendering
  import opened Tables

  const BRANCH_PREFIX: string := "execqueue/task"

  predicate IsRefChar(c: char) {
    'a' <= c <= 'z' || 'A' <= c <= 'Z' || '0' <= c <= '9' || c in "_-/"
  }

  predicate AllRefChars(s: string) {
    forall i :: 0 <= i < |s| ==> IsRefChar(s[i])
  }

  /** re.match with a final `$`: the pattern also matches before a newline that ends the text. */
  predicate MatchesRefPattern(s: string) {
    && s != []
    && (AllRefChars(s) || (|s| > 1 && s[|s| - 1] == '\n' && AllRefChars(s[..|s| - 1])))
  }

  predicate ContainsDotDot(s: string) {
    exists i :: 0 <= i < |s| - 1 && s[i] == '.' && s[i + 1] == '.'
  }

  predicate ValidateRefName(name: string) {
    if name == "" || |name| > 255 then false
    else if !MatchesRefPattern(name) then false
    else if name[0] == '/' || name[|name| - 1] == '/' then false
    else if ContainsDotDot(name) then false
    else true
  }

  /** The ".." test never decides, and a single trailing newline is accepted. */
  lemma WhatValidationAccepts(name: string)
    ensures ValidateRefName(name)
            <==> 1 <= |name| <= 255 && name[0] != '/' && name[|name| - 1] != '/' && MatchesRefPattern(name)
    ensures ValidateRefName(name) && name[|name| - 1] != '\n' ==> AllRefChars(name)
    ensures ValidateRefName(name) && |name| < 255 && name[|name| - 1] != '\n' ==> ValidateRefName(name + "\n")
  {
  }

  /** id.hex[:8]: the first eight of the 32 hexadecimal digits. */
  function ShortId(id: TaskId): (s: string)
    ensures |s| == 8 && forall i :: 0 <= i < 8 ==> IsHexDigit(s[i])
  {
    Hex(id, 32)[..8]
  }

  function NumberedName(prefix: string, number: nat, id: TaskId): string {
    prefix + "-" + Decimal(number) + "-" + ShortId(id)
  }

  function GenerateBranchName(number: nat, id: TaskId): string {
    var name := NumberedName(BRANCH_PREFIX, number, id);
    if ValidateRefName(name) then name else BRANCH_PREFIX + "-" + Decimal(number)
  }

  function WorktreeName(number: nat, id: TaskId): string {
    NumberedName("task", number, id)
  }

  /** Every name of this shape is built from allowed characters, with a letter first and a digit of the id last. */
  lemma NameShape(number: nat, id: TaskId)
    ensures var name := NumberedName(BRANCH_PREFIX, number, id);
            && |name| == 24 + |Decimal(number)| && AllRefChars(name)
            && name[0] == 'e' && IsHexDigit(name[|name| - 1])
  {
  }

  /** The fallback is needed exactly for numbers of more than 231 digits. */
  lemma FallbackOnlyForHugeNumbers(number: nat, id: TaskId)
    ensures ValidateRefName(NumberedName(BRANCH_PREFIX, number, id)) <==> number < PowerOfTen(231)
  {
    NameShape(number, id);
    WhatValidationAccepts(NumberedName(BRANCH_PREFIX, number, id));
    DecimalLength(number, 231);
  }

  /** Text that starts with digits and a non-digit determines the digits. */
  lemma {:induction false} DigitsDelimited(d: string, x: string, e: string, y: string)
    requires forall i :: 0 <= i < |d| ==> IsDigit(d[i])
    requires forall i :: 0 <= i < |e| ==> IsDigit(e[i])
    requires x == "" || !IsDigit(x[0])
    requires y == "" || !IsDigit(y[0])
    requires d + x == e + y
    ensures d == e && x == y
  {
    var s := d + x;
    assert d == s[..|d|] && e == (e + y)[..|e|];
    assert x == s[|d|..] && y == (e + y)[|e|..];
  }

  lemma NumberedNameInjective(prefix: string, m: nat, a: TaskId, n: nat, b: TaskId)
    requires NumberedName(prefix, m, a) == NumberedName(prefix, n, b)
    ensures m == n && ShortId(a) == ShortId(b)
  {
    var p := prefix + "-";
    var x, y := "-" + ShortId(a), "-" + ShortId(b);
    assert NumberedName(prefix, m, a) == p + (Decimal(m) + x);
    assert NumberedName(prefix, n, b) == p + (Decimal(n) + y);
    assert Decimal(m) + x == (p + (Decimal(m) + x))[|p|..] == (p + (Decimal(n) + y))[|p|..] == Decimal(n) + y;
    DigitsDelimited(Decimal(m), x, Decimal(n), y);
    DecimalInjective(m, n);
    assert ShortId(a) == x[1..] && ShortId(b) == y[1..];
  }

  /** Tasks with different numbers never share a branch or a worktree, fallback or not. */
  lemma NamesIsolate(m: nat, a: TaskId, n: nat, b: TaskId)
    ensures GenerateBranchName(m, a) == GenerateBranchName(n, b) ==> m == n
    ensures WorktreeName(m, a) == WorktreeName(n, b) <==> m == n && ShortId(a) == ShortId(b)
    ensures m < PowerOfTen(231) && GenerateBranchName(m, a) == GenerateBranchName(n, b) ==> ShortId(a) == ShortId(b)
  {
    if WorktreeName(m, a) == WorktreeName(n, b) {
      NumberedNameInjective("task", m, a, n, b);
    }
    if GenerateBranchName(m, a) == GenerateBranchName(n, b) {
      var x := BranchTail(m, a);
      var y := BranchTail(n, b);
      var p := BRANCH_PREFIX + "-";
      assert Decimal(m) + x == (p + (Decimal(m) + x))[|p|..] == (p + (Decimal(n) + y))[|p|..] == Decimal(n) + y;
      DigitsDelimited(Decimal(m), x, Decimal(n), y);
      DecimalInjective(m, n);
      if m < PowerOfTen(231) {
        FallbackOnlyForHugeNumbers(m, a);
        FallbackOnlyForHugeNumbers(n, b);
        NumberedNameInjective(BRANCH_PREFIX, m, a, n, b);
      }
    }
  }

  lemma BranchTail(n: nat, id: TaskId) returns (x: string)
    ensures x == "" || x == "-" + ShortId(id)
    ensures GenerateBranchName(n, id) == BRANCH_PREFIX + "-" + (Decimal(n) + x)
  {
    if ValidateRefName(NumberedName(BRANCH_PREFIX, n, id)) {
      x := "-" + ShortId(id);
      assert BRANCH_PREFIX + "-" + (Decimal(n) + x) == NumberedName(BRANCH_PREFIX, n, id);
    } else {
      x := "";
      assert Decimal(n) + x == Decimal(n);
    }
  }

  /** The texts themselves. */
  lemma NameTexts(number: nat, id: TaskId)
    ensures ShortId(id) == Hex(id, 32)[..8]
    ensures WorktreeName(number, id) == "task-" + Decimal(number) + "-" + ShortId(id)
    ensures number < PowerOfTen(231) ==>
              GenerateBranchName(number, id) == "execqueue/task-" + Decimal(number) + "-" + ShortId(id)
    ensures number >= PowerOfTen(231) ==> GenerateBranchName(number, id) == "execqueue/task-" + Decimal(number)
  {
    FallbackOnlyForHugeNumbers(number, id);
    assert BRANCH_PREFIX + "-" == "execqueue/task-";
    assert "task" + "-" == "task-";
  }

  /** The names of one character: letters, digits, underscore and hyphen. */
  lemma ShortestNames(c: char)
    ensures ValidateRefName([c])
            <==> 'a' <= c <= 'z' || 'A' <= c <= 'Z' || '0' <= c <= '9' || c == '_' || c == '-'
  {
    assert AllRefChars([c]) <==> IsRefChar([c][0]);
  }
}
