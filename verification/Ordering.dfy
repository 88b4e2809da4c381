/**
 Sorting, and the order Python gives to strings. Sorting is stable; under a total
 order its result depends on the input only through its multiset.
 */
module Ordering {
  import opened Sums

  // ---- Orders ----

  ghost predicate TotalPreorder<T(!new)>(le: (T, T) -> bool) {
    && (forall x, y :: le(x, y) || le(y, x))
    && (forall x, y, z :: le(x, y) && le(y, z) ==> le(x, z))
  }

  ghost predicate TotalOrder<T(!new)>(le: (T, T) -> bool) {
    && TotalPreorder(le)
    && (forall x, y :: le(x, y) && le(y, x) ==> x == y)
  }

  ghost predicate Sorted<T>(s: seq<T>, le: (T, T) -> bool) {
    forall i, j :: 0 <= i < j < |s| ==> le(s[i], s[j])
  }

  // ---- Insertion sort ----

  function Insert<T>(x: T, s: seq<T>, le: (T, T) -> bool): seq<T> {
    if s == [] then [x]
    else if le(x, s[0]) then [x] + s
    else [s[0]] + Insert(x, s[1..], le)
  }

  /** Python's `sorted`: stable, because an element goes before the later ones it ties with. */
  function Sort<T>(s: seq<T>, le: (T, T) -> bool): seq<T> {
    if s == [] then [] else Insert(s[0], Sort(s[1..], le), le)
  }

  lemma {:induction false} InsertPermutes<T>(x: T, s: seq<T>, le: (T, T) -> bool)
    ensures multiset(Insert(x, s, le)) == multiset{x} + multiset(s)
  {
    if s != [] {
      assert s == [s[0]] + s[1..];
      if !le(x, s[0]) { InsertPermutes(x, s[1..], le); }
    }
  }

  lemma {:induction false} InsertSorted<T(!new)>(x: T, s: seq<T>, le: (T, T) -> bool)
    requires TotalPreorder(le) && Sorted(s, le)
    ensures Sorted(Insert(x, s, le), le)
  {
    if s != [] && !le(x, s[0]) {
      InsertSorted(x, s[1..], le);
      var r := Insert(x, s[1..], le);
      InsertPermutes(x, s[1..], le);
      forall i | 0 <= i < |r|
        ensures le(s[0], r[i])
      {
        assert r[i] in multiset(r);
        if r[i] != x { assert r[i] in s[1..]; }
      }
    }
  }

  lemma {:induction false} SortPermutes<T>(s: seq<T>, le: (T, T) -> bool)
    ensures Permutes(Sort(s, le), s)
    ensures |Sort(s, le)| == |s|
  {
    if s != [] {
      SortPermutes(s[1..], le);
      InsertPermutes(s[0], Sort(s[1..], le), le);
      assert s == [s[0]] + s[1..];
    }
    PermutesLength(Sort(s, le), s);
  }

  lemma {:induction false} SortSorted<T(!new)>(s: seq<T>, le: (T, T) -> bool)
    requires TotalPreorder(le)
    ensures Sorted(Sort(s, le), le)
  {
    if s != [] {
      SortSorted(s[1..], le);
      InsertSorted(s[0], Sort(s[1..], le), le);
    }
  }

  /** Under a total order a multiset has one sorted arrangement. */
  lemma {:induction false} SortedUnique<T(!new)>(a: seq<T>, b: seq<T>, le: (T, T) -> bool)
    requires TotalOrder(le) && Sorted(a, le) && Sorted(b, le) && Permutes(a, b)
    ensures a == b
  {
    PermutesLength(a, b);
    if a != [] {
      assert a[0] in multiset(b) && b[0] in multiset(a);
      assert a[0] in b && b[0] in a;
      assert le(a[0], b[0]) && le(b[0], a[0]);
      assert a == [a[0]] + a[1..] && b == [b[0]] + b[1..];
      assert multiset(a[1..]) == multiset(a) - multiset{a[0]};
      assert multiset(b[1..]) == multiset(b) - multiset{b[0]};
      SortedUnique(a[1..], b[1..], le);
    }
  }

  lemma SortOrderFree<T(!new)>(a: seq<T>, b: seq<T>, le: (T, T) -> bool)
    requires TotalOrder(le) && Permutes(a, b)
    ensures Sort(a, le) == Sort(b, le)
  {
    SortPermutes(a, le);
    SortPermutes(b, le);
    SortSorted(a, le);
    SortSorted(b, le);
    SortedUnique(Sort(a, le), Sort(b, le), le);
  }

  lemma {:induction false} InsertStable<T>(x: T, s: seq<T>, le: (T, T) -> bool, q: T -> bool)
    requires forall y :: y in s && q(x) && q(y) ==> le(x, y)
    ensures Filter(Insert(x, s, le), q) == (if q(x) then [x] else []) + Filter(s, q)
  {
    if s != [] && !le(x, s[0]) { InsertStable(x, s[1..], le, q); }
  }

  /** The elements of a kind tie with one another. */
  ghost predicate Ties<T(!new)>(le: (T, T) -> bool, q: T -> bool) { forall x, y :: q(x) && q(y) ==> le(x, y) }

  /** Elements that tie with one another keep their order. */
  lemma {:induction false} SortStable<T(!new)>(s: seq<T>, le: (T, T) -> bool, q: T -> bool)
    requires Ties(le, q)
    ensures Filter(Sort(s, le), q) == Filter(s, q)
  {
    if s != [] {
      SortStable(s[1..], le, q);
      InsertStable(s[0], Sort(s[1..], le), le, q);
    }
  }

  // ---- Strings ----

  /** Lexicographic order by code point. */
  predicate TextLe(a: string, b: string) {
    a == [] || (b != [] && (a[0] < b[0] || (a[0] == b[0] && TextLe(a[1..], b[1..]))))
  }

  predicate TextLess(a: string, b: string) { TextLe(a, b) && a != b }

  /** Up to i the texts agree, and there `a` has the smaller character. */
  ghost predicate SmallerAt(a: string, b: string, i: nat) {
    i < |a| && i < |b| && a[..i] == b[..i] && a[i] < b[i]
  }

  /** A text comes before those it starts, and otherwise as the first difference says. */
  lemma {:induction false} TextLeExactly(a: string, b: string)
    ensures TextLe(a, b) <==> a <= b || exists i: nat :: SmallerAt(a, b, i)
  {
    if a != [] && b != [] {
      TextLeExactly(a[1..], b[1..]);
      assert a == [a[0]] + a[1..] && b == [b[0]] + b[1..];
      if a[0] < b[0] { assert SmallerAt(a, b, 0); }
      if a[0] == b[0] {
        assert a <= b <==> a[1..] <= b[1..];
        if i: nat :| SmallerAt(a[1..], b[1..], i) { SmallerLater(a, b, i); }
        if i: nat :| SmallerAt(a, b, i) { SmallerEarlier(a, b, i); }
      } else if i: nat :| SmallerAt(a, b, i) {
        assert i > 0 ==> a[..i][0] == b[..i][0];
      }
    }
  }

  lemma SmallerLater(a: string, b: string, i: nat)
    requires a != [] && b != [] && a[0] == b[0] && SmallerAt(a[1..], b[1..], i)
    ensures SmallerAt(a, b, i + 1)
  {
    assert a[..i + 1] == [a[0]] + a[1..][..i] && b[..i + 1] == [b[0]] + b[1..][..i];
  }

  lemma SmallerEarlier(a: string, b: string, i: nat)
    requires a != [] && b != [] && a[0] == b[0] && SmallerAt(a, b, i)
    ensures i > 0 && SmallerAt(a[1..], b[1..], i - 1)
  {
    assert a[1..][..i - 1] == a[..i][1..] && b[1..][..i - 1] == b[..i][1..];
  }

  lemma {:induction false} TextTotal(a: string, b: string)
    ensures TextLe(a, b) || TextLe(b, a)
    ensures TextLe(a, b) && TextLe(b, a) ==> a == b
  {
    if a != [] && b != [] {
      TextTotal(a[1..], b[1..]);
      assert a == [a[0]] + a[1..] && b == [b[0]] + b[1..];
    }
  }

  lemma {:induction false} TextTransitive(a: string, b: string, c: string)
    requires TextLe(a, b) && TextLe(b, c)
    ensures TextLe(a, c)
  {
    if a != [] && a[0] == b[0] == c[0] { TextTransitive(a[1..], b[1..], c[1..]); }
  }

  lemma TextIsTotalOrder()
    ensures TotalOrder(TextLe)
  {
    forall a: string, b: string
      ensures TextLe(a, b) || TextLe(b, a)
      ensures TextLe(a, b) && TextLe(b, a) ==> a == b
    {
      TextTotal(a, b);
    }
    forall a: string, b: string, c: string | TextLe(a, b) && TextLe(b, c)
      ensures TextLe(a, c)
    {
      TextTransitive(a, b, c);
    }
  }

  // ---- Sorted sets ----

  /** The elements of a sequence, each once, keeping its last occurrence. */
  function Dedup<T(==)>(s: seq<T>): seq<T> {
    if s == [] then [] else if s[0] in s[1..] then Dedup(s[1..]) else [s[0]] + Dedup(s[1..])
  }

  lemma {:induction false} DedupProps<T>(s: seq<T>)
    ensures Distinct(Dedup(s))
    ensures forall x :: x in Dedup(s) <==> x in s
  {
    if s != [] {
      DedupProps(s[1..]);
      assert s == [s[0]] + s[1..];
    }
  }

  /** Two sequences of distinct elements with the same members are permutations. */
  lemma {:induction false} DistinctSameMembers<T>(a: seq<T>, b: seq<T>)
    requires Distinct(a) && Distinct(b)
    requires forall x :: x in a <==> x in b
    ensures Permutes(a, b)
  {
    assert b != [] ==> b[0] in a;
    if a != [] {
      assert a[0] in b;
      var i := Extract(b, a[0]);
      var rest := b[..i] + b[i + 1..];
      assert a == [a[0]] + a[1..];
      assert b == b[..i] + [b[i]] + b[i + 1..];
      forall x
        ensures x in a[1..] <==> x in rest
      {
        if x in rest { assert x in b && x in a; }
        if x in a[1..] { assert x in a && x in b; }
      }
      DistinctSameMembers(a[1..], rest);
    }
  }

  /** Python's `sorted(set(s))`. */
  function SortedSet(s: seq<string>): seq<string> { Sort(Dedup(s), TextLe) }

  lemma SortedSetProps(s: seq<string>)
    ensures Distinct(SortedSet(s)) && Sorted(SortedSet(s), TextLe)
    ensures forall x :: x in SortedSet(s) <==> x in s
  {
    TextIsTotalOrder();
    DedupProps(s);
    SortPermutes(Dedup(s), TextLe);
    SortSorted(Dedup(s), TextLe);
    PermutesDistinct(Dedup(s), SortedSet(s));
    SameMembers(SortedSet(s), Dedup(s));
  }

  lemma PermutesDistinct<T>(a: seq<T>, b: seq<T>)
    requires Permutes(a, b) && Distinct(a)
    ensures Distinct(b)
  {
    forall i, j | 0 <= i < j < |b|
      ensures b[i] != b[j]
    {
      if b[i] == b[j] {
        assert b == b[..i] + [b[i]] + b[i + 1..j] + [b[j]] + b[j + 1..];
        assert multiset(b)[b[i]] >= 2;
        DistinctMultiplicity(a, b[i]);
      }
    }
  }

  lemma {:induction false} DistinctMultiplicity<T>(a: seq<T>, x: T)
    requires Distinct(a)
    ensures multiset(a)[x] <= 1
  {
    if a != [] {
      assert a == [a[0]] + a[1..];
      DistinctMultiplicity(a[1..], x);
      if x == a[0] { assert x !in a[1..]; assert x !in multiset(a[1..]); }
    }
  }

  /** `sorted(set(s))` depends only on which strings occur. */
  lemma SortedSetMembersOnly(a: seq<string>, b: seq<string>)
    requires forall x :: x in a <==> x in b
    ensures SortedSet(a) == SortedSet(b)
  {
    DedupProps(a);
    DedupProps(b);
    DistinctSameMembers(Dedup(a), Dedup(b));
    TextIsTotalOrder();
    SortOrderFree(Dedup(a), Dedup(b), TextLe);
  }

  // ---- A set in ascending order, as `ORDER BY` reads it ----

  ghost predicate IsLeast(m: string, s: set<string>) { m in s && forall x :: x in s ==> TextLe(m, x) }

  lemma LeastExists(s: set<string>)
    requires s != {}
    ensures exists m :: IsLeast(m, s)
  {
    var x :| x in s;
    if s - {x} == {} {
      TextTotal(x, x);
      assert s == {x} && IsLeast(x, s);
    } else {
      LeastExists(s - {x});
      var m :| IsLeast(m, s - {x});
      TextTotal(x, m);
      if TextLe(x, m) {
        forall y | y in s
          ensures TextLe(x, y)
        {
          TextTotal(x, x);
          if y != x { TextTransitive(x, m, y); }
        }
        assert IsLeast(x, s);
      } else {
        assert IsLeast(m, s);
      }
    }
  }

  ghost function Least(s: set<string>): (m: string)
    requires s != {}
    ensures IsLeast(m, s)
  {
    LeastExists(s);
    var m :| IsLeast(m, s);
    m
  }

  ghost function Ascending(s: set<string>): (r: seq<string>)
    ensures |r| == |s|
    ensures forall x :: x in r <==> x in s
    ensures Distinct(r) && Sorted(r, TextLe)
  {
    if s == {} then [] else [Least(s)] + Ascending(s - {Least(s)})
  }
}
