/** Options, results and the facts about sequences and finite sets that the other modules share. */
module Prelude {

  datatype Option<+T> = None | Some(value: T)

  datatype Result<+T, +E> = Ok(value: T) | Err(error: E)

  /** The first n elements, or all of them when there are fewer: Python's s[:n]. */
  function Take<T>(s: seq<T>, n: nat): (r: seq<T>)
    ensures r <= s
    ensures |r| == if |s| < n then |s| else n
  {
    if |s| <= n then s else s[..n]
  }

  /** Everything past the first n elements: Python's s[n:]. */
  function Drop<T>(s: seq<T>, n: nat): (r: seq<T>)
    ensures Take(s, n) + r == s
  {
    if |s| <= n then [] else s[n..]
  }

  lemma ConcatAssociates<T>(a: seq<T>, b: seq<T>, c: seq<T>)
    ensures a + (b + c) == a + b + c
  {
  }

  lemma ConcatKeeps<T>(a: seq<T>, b: seq<T>, x: T)
    ensures x in a + b <==> x in a || x in b
  {
  }

  /** All parts, one after the other. */
  function Concat<T>(parts: seq<seq<T>>): seq<T> {
    if parts == [] then [] else parts[0] + Concat(parts[1..])
  }

  lemma {:induction false} ConcatSnoc<T>(init: seq<seq<T>>, last: seq<T>)
    ensures Concat(init + [last]) == Concat(init) + last
  {
    if init == [] {
      assert Concat([last]) == last + Concat([]);
    } else {
      assert (init + [last])[1..] == init[1..] + [last];
      ConcatSnoc(init[1..], last);
    }
  }

  lemma {:induction false} PartInConcat<T>(parts: seq<seq<T>>, j: nat, x: T)
    requires j < |parts| && x in parts[j]
    ensures x in Concat(parts)
  {
    ConcatKeeps(parts[0], Concat(parts[1..]), x);
    if j > 0 { PartInConcat(parts[1..], j - 1, x); }
  }

  lemma {:induction false} InSomePart<T>(parts: seq<seq<T>>, x: T)
    requires x in Concat(parts)
    ensures exists j :: 0 <= j < |parts| && x in parts[j]
  {
    ConcatKeeps(parts[0], Concat(parts[1..]), x);
    if x in parts[0] {
      assert 0 < |parts|;
    } else {
      InSomePart(parts[1..], x);
      var j :| 0 <= j < |parts[1..]| && x in parts[1..][j];
      assert x in parts[j + 1];
    }
  }

  lemma SnocByElements<T>(s: seq<T>, init: seq<T>, last: T)
    requires |s| == |init| + 1 && s[|init|] == last
    requires forall i :: 0 <= i < |init| ==> s[i] == init[i]
    ensures s == init + [last]
  {
  }

  lemma SplitLast<T>(s: seq<T>)
    requires s != []
    ensures s == s[..|s| - 1] + [s[|s| - 1]]
    ensures multiset(s) == multiset(s[..|s| - 1]) + multiset{s[|s| - 1]}
  {
  }

  lemma SameTail<T>(a: seq<T>, b: seq<T>, tail: seq<T>, x: T)
    requires multiset(a) == multiset(b) + multiset{x}
    ensures multiset(a + tail) == multiset(b + tail) + multiset{x}
  {
  }

  lemma EmptyMultiset<T>(s: seq<T>)
    requires multiset(s) == multiset{}
    ensures s == []
  {
    assert |multiset(s)| == |s|;
  }

  /** Of two permutations, the second without the first's head is a permutation of the first's tail. */
  lemma WithoutHead<T>(a: seq<T>, b: seq<T>) returns (i: nat)
    requires multiset(a) == multiset(b) && a != []
    ensures i < |b| && b[i] == a[0] && multiset(a[1..]) == multiset(b[..i] + b[i + 1..])
  {
    assert a[0] in multiset(b);
    i :| 0 <= i < |b| && b[i] == a[0];
    assert a == [a[0]] + a[1..];
    assert b == b[..i] + [b[i]] + b[i + 1..];
    assert multiset(a[1..]) == multiset(a) - multiset{a[0]};
    assert multiset(b[..i] + b[i + 1..]) == multiset(b) - multiset{b[i]};
  }

  function ToSet<T>(s: seq<T>): (r: set<T>) {
    set x | x in s
  }

  predicate NoDuplicates<T(==)>(s: seq<T>) {
    forall i, j :: 0 <= i < j < |s| ==> s[i] != s[j]
  }

  lemma ToSetSnoc<T>(s: seq<T>, x: T)
    ensures ToSet(s + [x]) == ToSet(s) + {x}
  {
  }

  /** A list is as long as its set of elements exactly when nothing in it repeats. */
  lemma {:induction false} SetSizeVersusLength<T>(s: seq<T>)
    ensures |ToSet(s)| <= |s|
    ensures |ToSet(s)| == |s| <==> NoDuplicates(s)
  {
    if s != [] {
      var n := |s| - 1;
      var init, last := s[..n], s[n];
      SetSizeVersusLength(init);
      assert s == init + [last];
      ToSetSnoc(init, last);
      if last in init {
        assert ToSet(s) == ToSet(init);
        var i :| 0 <= i < n && init[i] == last;
        assert s[i] == s[n];
      } else {
        assert NoDuplicates(s) <==> NoDuplicates(init);
      }
    }
  }

  lemma SubsetSize<T>(a: set<T>, b: set<T>)
    requires a <= b
    ensures |a| <= |b|
    ensures |a| == |b| ==> a == b
  {
    assert b == a + (b - a);
    assert |b| == |a| + |b - a|;
  }

  /** An injective image has as many elements as its source. */
  lemma {:induction false} InjectiveImageSize<A, B>(s: set<A>, f: A -> B, image: set<B>)
    requires forall x, y :: x in s && y in s && x != y ==> f(x) != f(y)
    requires image == set x | x in s :: f(x)
    ensures |image| == |s|
    decreases s
  {
    if s != {} {
      var x :| x in s;
      var rest := s - {x};
      var restImage := set y | y in rest :: f(y);
      InjectiveImageSize(rest, f, restImage);
      assert image == restImage + {f(x)};
    }
  }

  lemma {:induction false} CountInDistinct<T>(s: seq<T>, x: T)
    requires NoDuplicates(s)
    ensures multiset(s)[x] == if x in s then 1 else 0
  {
    if s != [] {
      var n := |s| - 1;
      assert s == s[..n] + [s[n]];
      CountInDistinct(s[..n], x);
    }
  }

  /** Part of a list without repetitions has none. */
  lemma PartOfDistinct<T>(part: seq<T>, whole: seq<T>)
    requires NoDuplicates(whole) && multiset(part) <= multiset(whole)
    ensures NoDuplicates(part) && forall x :: x in part ==> x in whole
  {
    forall x | x in part ensures x in whole {
      assert x in multiset(part) && x in multiset(whole);
    }
    forall i, j | 0 <= i < j < |part| ensures part[i] != part[j] {
      CountInDistinct(whole, part[j]);
      assert part == part[..j] + [part[j]] + part[j + 1..];
      assert multiset(part) == multiset(part[..j]) + multiset{part[j]} + multiset(part[j + 1..]);
      assert part[i] in multiset(part[..j]) by { assert part[..j][i] == part[i]; }
    }
  }

  /** Some list of the elements of a finite set: the rows of a query without ORDER BY. */
  method SomeOrder<T(==)>(s: set<T>) returns (q: seq<T>)
    ensures NoDuplicates(q) && ToSet(q) == s
  {
    q := [];
    var rest := s;
    while rest != {}
      invariant NoDuplicates(q) && ToSet(q) + rest == s && ToSet(q) !! rest
      decreases rest
    {
      var x :| x in rest;
      assert x !in q by { assert x !in ToSet(q); }
      ToSetSnoc(q, x);
      q := q + [x];
      rest := rest - {x};
    }
  }
}
