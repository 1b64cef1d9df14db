/** Sequence facts shared by the HLT tables: position maps built by
    "later index overwrites earlier", order-preserving subsequences, and the
    lexicographic order and sort that `std::sort` applies to `std::string`. */
module Sequences {

  // ---------------------------------------------------------------------------
  // Position maps: `index[names[i]] = i` for i = 0, 1, ..., n-1
  // ---------------------------------------------------------------------------

  /** `i` is the last position at which `x` occurs in `s`. */
  predicate IsLastIndex<T(==)>(s: seq<T>, i: int, x: T) {
    0 <= i < |s| && s[i] == x && forall j :: i < j < |s| ==> s[j] != x
  }

  /** `index` maps exactly the elements of `s`, each to its last position in `s`. */
  ghost predicate IsLastIndexMap<T(!new)>(index: map<T, nat>, s: seq<T>) {
    && (forall x :: x in index <==> x in s)
    && (forall x :: x in index ==> IsLastIndex(s, index[x], x))
  }

  /** The map that `index[names[i]] = i` for i = 0, 1, ..., n-1 leaves in an
      initially empty `std::map`: later positions overwrite earlier ones. */
  function LastIndexMap<T>(names: seq<T>): map<T, nat>
    decreases |names|
  {
    if names == [] then map[]
    else LastIndexMap(names[..|names| - 1])[names[|names| - 1] := |names| - 1]
  }

  /** Every name is found, at the last position it occupies, and nothing else is. */
  lemma {:induction false} LastIndexMapFinds<T(!new)>(names: seq<T>)
    ensures IsLastIndexMap(LastIndexMap(names), names)
    decreases |names|
  {
    if names != [] {
      var init := names[..|names| - 1];
      LastIndexMapFinds(init);
      assert names == init + [names[|names| - 1]];
    }
  }

  /** The loop that fills a position map. */
  method BuildIndex<T>(names: seq<T>) returns (index: map<T, nat>)
    ensures index == LastIndexMap(names)
  {
    index := map[];
    for i := 0 to |names|
      invariant index == LastIndexMap(names[..i])
    {
      assert names[..i + 1][..i] == names[..i];
      index := index[names[i] := i];
    }
    assert names[..|names|] == names;
  }

  /** A loop that pushes `f(x)` for each `x` of `xs` onto an empty vector. */
  method MapEach<A, B>(xs: seq<A>, f: A -> B) returns (ys: seq<B>)
    ensures |ys| == |xs|
    ensures forall i :: 0 <= i < |xs| ==> ys[i] == f(xs[i])
  {
    ys := [];
    for i := 0 to |xs|
      invariant |ys| == i
      invariant forall j :: 0 <= j < i ==> ys[j] == f(xs[j])
    {
      ys := ys + [f(xs[i])];
    }
  }

  /** With distinct names, the position map is the inverse of the sequence. */
  lemma {:induction false} LastIndexOfDistinct<T(!new)>(index: map<T, nat>, s: seq<T>, i: nat)
    requires IsLastIndexMap(index, s)
    requires Distinct(s)
    requires i < |s|
    ensures s[i] in index && index[s[i]] == i
  {
    assert IsLastIndex(s, index[s[i]], s[i]);
    assert s[index[s[i]]] == s[i];
  }

  // ---------------------------------------------------------------------------
  // Distinctness and subsequences
  // ---------------------------------------------------------------------------

  predicate Distinct<T(==)>(s: seq<T>) {
    forall i, j :: 0 <= i < j < |s| ==> s[i] != s[j]
  }

  /** A sequence is distinct exactly when no element occurs twice in its multiset. */
  lemma {:induction false} DistinctIffSingleOccurrences<T(!new)>(s: seq<T>)
    ensures Distinct(s) <==> forall x :: multiset(s)[x] <= 1
  {
    if s != [] {
      var t := s[1..];
      assert s == [s[0]] + t;
      DistinctIffSingleOccurrences(t);
      assert multiset(s) == multiset{s[0]} + multiset(t);
      if Distinct(s) {
        assert Distinct(t) by {
          forall i, j | 0 <= i < j < |t| ensures t[i] != t[j] {
            assert t[i] == s[i + 1] && t[j] == s[j + 1];
          }
        }
        assert s[0] !in t by {
          forall j | 0 <= j < |t| ensures t[j] != s[0] {
            assert t[j] == s[j + 1];
          }
        }
        forall x ensures multiset(s)[x] <= 1 {
          if x == s[0] {
            assert multiset(t)[x] == 0;
          }
        }
      } else {
        var i, j :| 0 <= i < j < |s| && s[i] == s[j];
        if i == 0 {
          assert s[j] in t by { assert t[j - 1] == s[j]; }
          assert multiset(s)[s[0]] >= 2;
        } else {
          assert !Distinct(t) by { assert t[i - 1] == s[i] && t[j - 1] == s[j]; }
          var x :| multiset(t)[x] > 1;
          assert multiset(s)[x] > 1;
        }
      }
    }
  }

  /** Reordering keeps distinctness. */
  lemma DistinctPermutation<T(!new)>(r: seq<T>, s: seq<T>)
    requires multiset(r) == multiset(s)
    requires Distinct(s)
    ensures Distinct(r)
  {
    DistinctIffSingleOccurrences(s);
    DistinctIffSingleOccurrences(r);
  }

  /** `sub` is obtained from `s` by deleting elements, keeping the order. */
  predicate IsSubsequence<T(==)>(sub: seq<T>, s: seq<T>)
    decreases |s|
  {
    if s == [] then sub == []
    else
      || IsSubsequence(sub, s[..|s| - 1])
      || (sub != [] && sub[|sub| - 1] == s[|s| - 1] && IsSubsequence(sub[..|sub| - 1], s[..|s| - 1]))
  }

  // ---------------------------------------------------------------------------
  // Lexicographic order of strings and sorting (std::sort on std::string)
  // ---------------------------------------------------------------------------

  /** `a <= b` in the lexicographic order of `std::string::compare`. */
  predicate LessEq(a: string, b: string) {
    |a| == 0 || (|b| > 0 && (a[0] < b[0] || (a[0] == b[0] && LessEq(a[1..], b[1..]))))
  }

  lemma {:induction false} LessEqReflexive(a: string)
    ensures LessEq(a, a)
  {
    if |a| > 0 {
      LessEqReflexive(a[1..]);
    }
  }

  lemma {:induction false} LessEqTotal(a: string, b: string)
    ensures LessEq(a, b) || LessEq(b, a)
  {
    if |a| > 0 && |b| > 0 && a[0] == b[0] {
      LessEqTotal(a[1..], b[1..]);
    }
  }

  lemma {:induction false} LessEqTransitive(a: string, b: string, c: string)
    requires LessEq(a, b) && LessEq(b, c)
    ensures LessEq(a, c)
  {
    if |a| > 0 && |b| > 0 && |c| > 0 && a[0] == b[0] && b[0] == c[0] {
      LessEqTransitive(a[1..], b[1..], c[1..]);
    }
  }

  lemma {:induction false} LessEqAntisymmetric(a: string, b: string)
    requires LessEq(a, b) && LessEq(b, a)
    ensures a == b
  {
    if |a| > 0 && |b| > 0 {
      LessEqAntisymmetric(a[1..], b[1..]);
      assert a == [a[0]] + a[1..] && b == [b[0]] + b[1..];
    }
  }

  predicate Sorted(s: seq<string>) {
    forall i, j :: 0 <= i < j < |s| ==> LessEq(s[i], s[j])
  }

  /** Sorted with no repeated element: each name strictly precedes the next. */
  predicate StrictlySorted(s: seq<string>) {
    forall i, j :: 0 <= i < j < |s| ==> LessEq(s[i], s[j]) && s[i] != s[j]
  }

  /** Insert `x` into a sorted sequence, before the first element not below it. */
  function Insert(x: string, s: seq<string>): (r: seq<string>)
    requires Sorted(s)
    ensures Sorted(r)
    ensures multiset(r) == multiset(s) + multiset{x}
  {
    if s == [] then [x]
    else if LessEq(x, s[0]) then
      InsertFront(x, s);
      [x] + s
    else
      var rest := Insert(x, s[1..]);
      LessEqTotal(x, s[0]);
      assert s == [s[0]] + s[1..];
      InsertBehind(s[0], x, s[1..], rest);
      [s[0]] + rest
  }

  lemma InsertFront(x: string, s: seq<string>)
    requires Sorted(s) && s != [] && LessEq(x, s[0])
    ensures Sorted([x] + s)
  {
    var r := [x] + s;
    forall i, j | 0 <= i < j < |r| ensures LessEq(r[i], r[j]) {
      if i == 0 && j > 1 {
        LessEqTransitive(x, s[0], s[j - 1]);
      }
    }
  }

  lemma InsertBehind(y: string, x: string, t: seq<string>, rest: seq<string>)
    requires Sorted([y] + t) && LessEq(y, x)
    requires Sorted(rest) && multiset(rest) == multiset(t) + multiset{x}
    ensures Sorted([y] + rest)
  {
    var r := [y] + rest;
    forall k | 0 <= k < |rest| ensures LessEq(y, rest[k]) {
      assert rest[k] in multiset(rest);
      if rest[k] != x {
        assert rest[k] in multiset(t);
        var m :| 0 <= m < |t| && t[m] == rest[k];
        var yt := [y] + t;
        assert yt[0] == y && yt[m + 1] == t[m];
        assert LessEq(yt[0], yt[m + 1]);
      }
    }
    forall i, j | 0 <= i < j < |r| ensures LessEq(r[i], r[j]) {
      if i > 0 {
        assert r[i] == rest[i - 1] && r[j] == rest[j - 1];
      }
    }
  }

  /** `std::sort` on a vector of strings: a sorted permutation of the input. */
  function SortStrings(s: seq<string>): (r: seq<string>)
    ensures Sorted(r)
    ensures multiset(r) == multiset(s)
    ensures |r| == |s|
  {
    if s == [] then []
    else
      assert s == [s[0]] + s[1..];
      Insert(s[0], SortStrings(s[1..]))
  }

  /** Sorting distinct names gives a strictly increasing sequence with the same elements. */
  lemma SortDistinct(s: seq<string>)
    requires Distinct(s)
    ensures StrictlySorted(SortStrings(s))
    ensures forall x :: x in SortStrings(s) <==> x in s
  {
    var r := SortStrings(s);
    DistinctPermutation(r, s);
    forall x ensures x in r <==> x in s {
      assert x in r <==> x in multiset(r);
      assert x in s <==> x in multiset(s);
    }
  }

  /** The first element of a sorted sequence is below every element of it. */
  lemma SortedHeadIsLeast(a: seq<string>, x: string)
    requires Sorted(a) && x in multiset(a)
    ensures LessEq(a[0], x)
  {
    var k :| 0 <= k < |a| && a[k] == x;
    if k == 0 {
      LessEqReflexive(x);
    }
  }

  /** Removing the first element of a sequence removes one occurrence of it. */
  lemma MultisetOfTail<T>(a: seq<T>)
    requires a != []
    ensures multiset(a[1..]) == multiset(a) - multiset{a[0]}
  {
    assert a == [a[0]] + a[1..];
  }

  /** Two sorted arrangements of the same multiset are equal: the outcome of a
      sort does not depend on the order the names came in. */
  lemma {:induction false} SortedPermutationUnique(a: seq<string>, b: seq<string>)
    requires Sorted(a) && Sorted(b) && multiset(a) == multiset(b)
    ensures a == b
  {
    if a != [] {
      assert a[0] in multiset(a);
      assert b != [];
      assert b[0] in multiset(b);
      SortedHeadIsLeast(b, a[0]);
      SortedHeadIsLeast(a, b[0]);
      LessEqAntisymmetric(a[0], b[0]);
      MultisetOfTail(a);
      MultisetOfTail(b);
      SortedPermutationUnique(a[1..], b[1..]);
      assert a == [a[0]] + a[1..] && b == [b[0]] + b[1..];
    }
  }
}
