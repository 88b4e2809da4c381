/**
 Sums, filters and flattenings of sequences, and the one fact every rollup of the
 evaluation engine rests on: they depend on a sequence only through its multiset.
 */
module Sums {

  function Sum<T>(s: seq<T>, f: T -> real): real {
    if s == [] then 0.0 else f(s[0]) + Sum(s[1..], f)
  }

  function SumInt<T>(s: seq<T>, f: T -> int): int {
    if s == [] then 0 else f(s[0]) + SumInt(s[1..], f)
  }

  function FlatMap<T, U>(s: seq<T>, f: T -> seq<U>): seq<U> {
    if s == [] then [] else f(s[0]) + FlatMap(s[1..], f)
  }

  function Filter<T>(s: seq<T>, p: T -> bool): seq<T> {
    if s == [] then [] else (if p(s[0]) then [s[0]] else []) + Filter(s[1..], p)
  }

  function Map<T, U>(s: seq<T>, f: T -> U): (r: seq<U>)
    ensures |r| == |s|
    ensures forall i :: 0 <= i < |s| ==> r[i] == f(s[i])
  {
    if s == [] then [] else [f(s[0])] + Map(s[1..], f)
  }

  /** How many elements of `s` satisfy `p`. */
  function Count<T>(s: seq<T>, p: T -> bool): nat { |Filter(s, p)| }

  /** The same elements, each as often, in any order. */
  ghost predicate Permutes<T>(a: seq<T>, b: seq<T>) { multiset(a) == multiset(b) }

  ghost predicate Distinct<T>(s: seq<T>) {
    forall i, j :: 0 <= i < j < |s| ==> s[i] != s[j]
  }

  // ---- Concatenation ----

  lemma {:induction false} SumAppend<T>(a: seq<T>, b: seq<T>, f: T -> real)
    ensures Sum(a + b, f) == Sum(a, f) + Sum(b, f)
  {
    if a == [] {
      assert a + b == b;
    } else {
      assert (a + b)[1..] == a[1..] + b;
      SumAppend(a[1..], b, f);
    }
  }

  lemma {:induction false} SumIntAppend<T>(a: seq<T>, b: seq<T>, f: T -> int)
    ensures SumInt(a + b, f) == SumInt(a, f) + SumInt(b, f)
  {
    if a == [] {
      assert a + b == b;
    } else {
      assert (a + b)[1..] == a[1..] + b;
      SumIntAppend(a[1..], b, f);
    }
  }

  lemma {:induction false} FlatMapAppend<T, U>(a: seq<T>, b: seq<T>, f: T -> seq<U>)
    ensures FlatMap(a + b, f) == FlatMap(a, f) + FlatMap(b, f)
  {
    if a == [] {
      assert a + b == b;
    } else {
      assert (a + b)[1..] == a[1..] + b;
      FlatMapAppend(a[1..], b, f);
    }
  }

  lemma {:induction false} FilterAppend<T>(a: seq<T>, b: seq<T>, p: T -> bool)
    ensures Filter(a + b, p) == Filter(a, p) + Filter(b, p)
  {
    if a == [] {
      assert a + b == b;
    } else {
      assert (a + b)[1..] == a[1..] + b;
      FilterAppend(a[1..], b, p);
      var head := if p(a[0]) then [a[0]] else [];
      assert head + (Filter(a[1..], p) + Filter(b, p)) == head + Filter(a[1..], p) + Filter(b, p);
    }
  }

  // ---- One more element on the right: the step of a loop over `s` ----

  lemma SumSnoc<T>(s: seq<T>, i: nat, f: T -> real)
    requires i < |s|
    ensures Sum(s[..i + 1], f) == Sum(s[..i], f) + f(s[i])
  {
    assert s[..i + 1] == s[..i] + [s[i]];
    SumAppend(s[..i], [s[i]], f);
  }

  lemma SumIntSnoc<T>(s: seq<T>, i: nat, f: T -> int)
    requires i < |s|
    ensures SumInt(s[..i + 1], f) == SumInt(s[..i], f) + f(s[i])
  {
    assert s[..i + 1] == s[..i] + [s[i]];
    SumIntAppend(s[..i], [s[i]], f);
  }

  lemma FlatMapSnoc<T, U>(s: seq<T>, i: nat, f: T -> seq<U>)
    requires i < |s|
    ensures FlatMap(s[..i + 1], f) == FlatMap(s[..i], f) + f(s[i])
  {
    assert s[..i + 1] == s[..i] + [s[i]];
    FlatMapAppend(s[..i], [s[i]], f);
    assert FlatMap([s[i]], f) == f(s[i]) + [];
  }

  lemma FilterSnoc<T>(s: seq<T>, i: nat, p: T -> bool)
    requires i < |s|
    ensures Filter(s[..i + 1], p) == Filter(s[..i], p) + (if p(s[i]) then [s[i]] else [])
  {
    assert s[..i + 1] == s[..i] + [s[i]];
    FilterAppend(s[..i], [s[i]], p);
  }

  lemma MapNext<T, U>(s: seq<T>, i: nat, f: T -> U)
    requires i < |s|
    ensures Map(s[..i + 1], f) == Map(s[..i], f) + [f(s[i])]
  {
  }

  lemma SumLast<T>(s: seq<T>, x: T, f: T -> real)
    ensures Sum(s + [x], f) == Sum(s, f) + f(x)
  {
    SumAppend(s, [x], f);
  }

  lemma FlatMapLast<T, U>(s: seq<T>, x: T, f: T -> seq<U>)
    ensures FlatMap(s + [x], f) == FlatMap(s, f) + f(x)
  {
    FlatMapAppend(s, [x], f);
    assert FlatMap([x], f) == f(x) + [];
  }

  lemma {:induction false} FilterMember<T>(s: seq<T>, p: T -> bool, x: T)
    ensures x in Filter(s, p) <==> x in s && p(x)
  {
    if s != [] {
      FilterMember(s[1..], p, x);
      assert x in s <==> x == s[0] || x in s[1..];
    }
  }

  lemma {:induction false} FilterLength<T>(s: seq<T>, p: T -> bool)
    ensures |Filter(s, p)| <= |s|
  {
    if s != [] { FilterLength(s[1..], p); }
  }

  /** Where in a sequence a predicate holds. */
  ghost function Indices<T>(s: seq<T>, p: T -> bool): set<nat> { set i: nat | i < |s| && p(s[i]) }

  lemma {:induction false} CountIsIndices<T>(s: seq<T>, p: T -> bool)
    ensures Count(s, p) == |Indices(s, p)|
  {
    if s != [] {
      var n: nat := |s| - 1;
      var front := s[..n];
      CountIsIndices(front, p);
      FilterSnoc(s, n, p);
      assert s[..n + 1] == s;
      assert Indices(s, p) == Indices(front, p) + if p(s[n]) then {n} else {};
    }
  }

  lemma {:induction false} FlatMapMember<T, U>(s: seq<T>, f: T -> seq<U>, y: U)
    ensures y in FlatMap(s, f) <==> exists i :: 0 <= i < |s| && y in f(s[i])
  {
    if s != [] {
      FlatMapMember(s[1..], f, y);
      if y in f(s[0]) { assert y in f(s[0]); }
      if y in FlatMap(s[1..], f) {
        var i :| 0 <= i < |s[1..]| && y in f(s[1..][i]);
        assert y in f(s[i + 1]);
      }
      if i :| 0 <= i < |s| && y in f(s[i]) {
        if i > 0 { assert s[1..][i - 1] == s[i]; }
      }
    }
  }

  // ---- Order does not matter ----

  /** Where `x` sits in `s`, and what is left of `s` without that occurrence. */
  lemma Extract<T>(s: seq<T>, x: T) returns (i: nat)
    requires x in s
    ensures i < |s| && s[i] == x
    ensures multiset(s[..i] + s[i + 1..]) == multiset(s) - multiset{x}
  {
    i :| 0 <= i < |s| && s[i] == x;
    assert s == s[..i] + [s[i]] + s[i + 1..];
  }

  lemma PermutesTail<T>(a: seq<T>, b: seq<T>) returns (i: nat)
    requires Permutes(a, b) && a != []
    ensures i < |b| && b[i] == a[0]
    ensures Permutes(a[1..], b[..i] + b[i + 1..])
  {
    assert a == [a[0]] + a[1..];
    assert a[0] in multiset(a);
    i := Extract(b, a[0]);
  }

  lemma PermutesLength<T>(a: seq<T>, b: seq<T>)
    requires Permutes(a, b)
    ensures |a| == |b|
  {
    assert |multiset(a)| == |a| && |multiset(b)| == |b|;
  }

  lemma SameMembers<T>(a: seq<T>, b: seq<T>)
    requires Permutes(a, b)
    ensures forall x :: x in a <==> x in b
  {
    forall x
      ensures x in a <==> x in b
    {
      assert x in a <==> x in multiset(a);
      assert x in b <==> x in multiset(b);
    }
  }

  lemma {:induction false} SumPermutes<T>(a: seq<T>, b: seq<T>, f: T -> real)
    requires Permutes(a, b)
    ensures Sum(a, f) == Sum(b, f)
  {
    PermutesLength(a, b);
    if a != [] {
      var i := PermutesTail(a, b);
      SumPermutes(a[1..], b[..i] + b[i + 1..], f);
      SumAppend(b[..i], b[i + 1..], f);
      SumAppend(b[..i], b[i..], f);
      assert b == b[..i] + b[i..] && b[i..][1..] == b[i + 1..];
    }
  }

  lemma {:induction false} SumIntPermutes<T>(a: seq<T>, b: seq<T>, f: T -> int)
    requires Permutes(a, b)
    ensures SumInt(a, f) == SumInt(b, f)
  {
    PermutesLength(a, b);
    if a != [] {
      var i := PermutesTail(a, b);
      SumIntPermutes(a[1..], b[..i] + b[i + 1..], f);
      SumIntAppend(b[..i], b[i + 1..], f);
      SumIntAppend(b[..i], b[i..], f);
      assert b == b[..i] + b[i..] && b[i..][1..] == b[i + 1..];
    }
  }

  lemma {:induction false} FlatMapPermutes<T, U>(a: seq<T>, b: seq<T>, f: T -> seq<U>)
    requires Permutes(a, b)
    ensures Permutes(FlatMap(a, f), FlatMap(b, f))
  {
    PermutesLength(a, b);
    if a != [] {
      var i := PermutesTail(a, b);
      FlatMapPermutes(a[1..], b[..i] + b[i + 1..], f);
      FlatMapAppend(b[..i], b[i + 1..], f);
      FlatMapAppend(b[..i], b[i..], f);
      assert b == b[..i] + b[i..] && b[i..][1..] == b[i + 1..];
    }
  }

  lemma {:induction false} FilterPermutes<T>(a: seq<T>, b: seq<T>, p: T -> bool)
    requires Permutes(a, b)
    ensures Permutes(Filter(a, p), Filter(b, p))
  {
    PermutesLength(a, b);
    if a != [] {
      var i := PermutesTail(a, b);
      FilterPermutes(a[1..], b[..i] + b[i + 1..], p);
      FilterWithout(b, i, p);
    }
  }

  lemma FilterWithout<T>(s: seq<T>, i: nat, p: T -> bool)
    requires i < |s|
    ensures multiset(Filter(s, p))
            == multiset(if p(s[i]) then [s[i]] else []) + multiset(Filter(s[..i] + s[i + 1..], p))
  {
    assert s == s[..i] + ([s[i]] + s[i + 1..]);
    FilterAround(s[..i], s[i], s[i + 1..], p);
  }

  lemma FilterAround<T>(before: seq<T>, x: T, after: seq<T>, p: T -> bool)
    ensures multiset(Filter(before + ([x] + after), p))
            == multiset(if p(x) then [x] else []) + multiset(Filter(before + after, p))
  {
    FilterAppend(before, after, p);
    FilterAppend(before, [x] + after, p);
    FilterAppend([x], after, p);
  }

  lemma CountPermutes<T>(a: seq<T>, b: seq<T>, p: T -> bool)
    requires Permutes(a, b)
    ensures Count(a, p) == Count(b, p)
  {
    FilterPermutes(a, b, p);
    PermutesLength(Filter(a, p), Filter(b, p));
  }

  // ---- Only the values on the elements matter ----

  lemma {:induction false} SumExtensional<T>(s: seq<T>, f: T -> real, g: T -> real)
    requires forall x :: x in s ==> f(x) == g(x)
    ensures Sum(s, f) == Sum(s, g)
  {
    if s != [] { SumExtensional(s[1..], f, g); }
  }

  lemma {:induction false} SumIntExtensional<T>(s: seq<T>, f: T -> int, g: T -> int)
    requires forall x :: x in s ==> f(x) == g(x)
    ensures SumInt(s, f) == SumInt(s, g)
  {
    if s != [] { SumIntExtensional(s[1..], f, g); }
  }

  lemma {:induction false} FilterExtensional<T>(s: seq<T>, p: T -> bool, q: T -> bool)
    requires forall x :: x in s ==> p(x) == q(x)
    ensures Filter(s, p) == Filter(s, q)
  {
    if s != [] { FilterExtensional(s[1..], p, q); }
  }

  // ---- Bounds and exchange ----

  lemma {:induction false} SumBounds<T>(s: seq<T>, f: T -> real)
    requires forall x :: x in s ==> 0.0 <= f(x) <= 1.0
    ensures 0.0 <= Sum(s, f) <= |s| as real
  {
    if s != [] { SumBounds(s[1..], f); }
  }

  lemma {:induction false} SumAdd<T>(s: seq<T>, f: T -> real, g: T -> real, h: T -> real)
    requires forall x :: x in s ==> h(x) == f(x) + g(x)
    ensures Sum(s, h) == Sum(s, f) + Sum(s, g)
  {
    if s != [] { SumAdd(s[1..], f, g, h); }
  }

  // ---- Sequences and the sets of their elements ----

  lemma Associate<T>(a: seq<T>, b: seq<T>, c: seq<T>)
    ensures a + b + c == a + (b + c)
  {
  }

  lemma DistinctAppend<T>(a: seq<T>, b: seq<T>)
    requires Distinct(a) && Distinct(b) && forall x :: x in b ==> x !in a
    ensures Distinct(a + b)
  {
    forall i, j | 0 <= i < j < |a + b|
      ensures (a + b)[i] != (a + b)[j]
    {
      if i < |a| <= j { assert (a + b)[j] == b[j - |a|] && b[j - |a|] in b; }
    }
  }

  lemma {:induction false} FilterDistinct<T>(s: seq<T>, p: T -> bool)
    requires Distinct(s)
    ensures Distinct(Filter(s, p))
  {
    if s != [] {
      FilterDistinct(s[1..], p);
      FilterMember(s[1..], p, s[0]);
    }
  }

  function Elements<T(==)>(s: seq<T>): set<T> { set x | x in s }

  /** A sequence has as many elements as positions exactly when nothing repeats. */
  lemma {:induction false} ElementsSize<T>(s: seq<T>)
    ensures |Elements(s)| <= |s|
    ensures |Elements(s)| == |s| <==> Distinct(s)
  {
    if s != [] {
      ElementsSize(s[1..]);
      assert Elements(s) == Elements(s[1..]) + {s[0]};
      assert s[0] in s[1..] <==> s[0] in Elements(s[1..]);
      if Distinct(s) {
        assert s[0] !in s[1..];
      } else if Distinct(s[1..]) {
        var i, j :| 0 <= i < j < |s| && s[i] == s[j];
        assert i == 0 && s[0] == s[1..][j - 1];
      }
    }
  }

  lemma SubsetSize<T>(a: set<T>, b: set<T>)
    requires a <= b
    ensures |a| <= |b| && (|a| == |b| ==> a == b)
  {
    assert b == a + (b - a);
  }

  // ---- Parts of a sequence, in its order ----

  /** `a` is `b` with some elements left out. */
  ghost predicate Subsequence<T>(a: seq<T>, b: seq<T>) {
    if a == [] then true
    else if b == [] then false
    else
      || (a[|a| - 1] == b[|b| - 1] && Subsequence(a[..|a| - 1], b[..|b| - 1]))
      || Subsequence(a, b[..|b| - 1])
  }

  lemma SubsequenceGrows<T>(a: seq<T>, b: seq<T>, x: T)
    requires Subsequence(a, b)
    ensures Subsequence(a, b + [x]) && Subsequence(a + [x], b + [x])
  {
    assert (b + [x])[..|b|] == b && (a + [x])[..|a|] == a;
  }

  lemma {:induction false} WholeIsSubsequence<T>(s: seq<T>)
    ensures Subsequence(s, s)
  {
    if s != [] { WholeIsSubsequence(s[..|s| - 1]); }
  }

  lemma {:induction false} FilterIsSubsequence<T>(s: seq<T>, p: T -> bool)
    ensures Subsequence(Filter(s, p), s)
  {
    if s == [] {
    } else {
      var n: nat := |s| - 1;
      var front := s[..n];
      FilterIsSubsequence(front, p);
      FilterSnoc(s, n, p);
      assert s[..n + 1] == s && s == front + [s[n]];
      SubsequenceGrows(Filter(front, p), front, s[n]);
      assert Filter(front, p) + [] == Filter(front, p);
    }
  }

  lemma {:induction false} SubsequenceOfPrefix<T>(a: seq<T>, b: seq<T>, c: seq<T>)
    requires Subsequence(a, b) && b <= c
    ensures Subsequence(a, c)
  {
    if |b| < |c| {
      SubsequenceOfPrefix(a, b, c[..|c| - 1]);
    } else {
      assert b == c;
    }
  }

  /** A part is no longer than the whole, has no other elements, and is the whole if it is as long. */
  lemma {:induction false} SubsequenceLength<T>(a: seq<T>, b: seq<T>)
    requires Subsequence(a, b)
    ensures |a| <= |b| && (|a| == |b| ==> a == b)
    ensures forall x :: x in a ==> x in b
    decreases b
  {
    if a != [] {
      if a[|a| - 1] == b[|b| - 1] && Subsequence(a[..|a| - 1], b[..|b| - 1]) {
        SubsequenceLength(a[..|a| - 1], b[..|b| - 1]);
        assert a == a[..|a| - 1] + [a[|a| - 1]] && b == b[..|b| - 1] + [b[|b| - 1]];
      } else {
        SubsequenceLength(a, b[..|b| - 1]);
      }
    }
  }
}
