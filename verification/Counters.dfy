/**
 Python's `Counter` as a map, together with the order in which its keys were first seen.
 Looking a key up never fails: an absent key counts 0.
 */
module Counters {
  import opened Sums

  function Tally<T(==)>(s: seq<T>): map<T, int> { map x | x in s :: multiset(s)[x] }

  function Bump<T>(counter: map<T, int>, x: T): map<T, int> {
    counter[x := if x in counter then counter[x] + 1 else 1]
  }

  function BumpAll<T>(counter: map<T, int>, xs: seq<T>): map<T, int>
    decreases xs
  {
    if xs == [] then counter else BumpAll(Bump(counter, xs[0]), xs[1..])
  }

  function Lookup<T>(counter: map<T, int>): T -> int { x => if x in counter then counter[x] else 0 }

  function Is<T(==)>(x: T): T -> bool { y => y == x }
  function Among<T(==)>(xs: seq<T>): T -> bool { x => x in xs }

  /** The keys of the counter over `s`, each once, in some order. */
  ghost predicate KeysInOrder<T>(s: seq<T>, order: seq<T>) {
    Distinct(order) && (forall x :: x in order ==> x in s) && (forall x :: x in s ==> x in order)
  }

  lemma KeysInOrderSnoc<T>(s: seq<T>, order: seq<T>, x: T)
    requires KeysInOrder(s, order)
    ensures KeysInOrder(s + [x], if x in order then order else order + [x])
  {
  }

  lemma TallyBump<T>(s: seq<T>, x: T)
    ensures Tally(s + [x]) == Bump(Tally(s), x)
  {
  }

  lemma {:induction false} TallyBumpAll<T>(s: seq<T>, xs: seq<T>)
    ensures Tally(s + xs) == BumpAll(Tally(s), xs)
    decreases xs
  {
    if xs == [] {
      assert s + xs == s;
    } else {
      TallyBump(s, xs[0]);
      TallyBumpAll(s + [xs[0]], xs[1..]);
      assert s + [xs[0]] + xs[1..] == s + xs;
    }
  }

  lemma {:induction false} BumpAllSnoc<T>(counter: map<T, int>, xs: seq<T>, i: nat)
    requires i < |xs|
    ensures BumpAll(counter, xs[..i + 1]) == Bump(BumpAll(counter, xs[..i]), xs[i])
    decreases xs
  {
    if i > 0 {
      assert xs[..i + 1][1..] == xs[1..][..i] && xs[..i][1..] == xs[1..][..i - 1];
      BumpAllSnoc(Bump(counter, xs[0]), xs[1..], i - 1);
    }
  }

  /** `for x in xs: counter[x] += 1`. */
  method CountInto<T(==)>(counter: map<T, int>, xs: seq<T>) returns (r: map<T, int>)
    ensures r == BumpAll(counter, xs)
  {
    r := counter;
    for i := 0 to |xs|
      invariant r == BumpAll(counter, xs[..i])
    {
      r := Bump(r, xs[i]);
      BumpAllSnoc(counter, xs, i);
    }
    assert xs[..|xs|] == xs;
  }

  /** A fresh counter over `s`, and its keys in first-seen order. */
  method CountEach<T(==)>(s: seq<T>) returns (order: seq<T>, counter: map<T, int>)
    ensures KeysInOrder(s, order) && counter == Tally(s)
  {
    order, counter := [], map[];
    for i := 0 to |s|
      invariant KeysInOrder(s[..i], order) && counter == Tally(s[..i])
    {
      assert s[..i + 1] == s[..i] + [s[i]];
      TallyBump(s[..i], s[i]);
      if s[i] !in counter { order := order + [s[i]]; }
      counter := Bump(counter, s[i]);
    }
    assert s[..|s|] == s;
  }

  // ---- Counting by predicate ----

  lemma {:induction false} CountIs<T>(s: seq<T>, x: T)
    ensures Count(s, Is(x)) == multiset(s)[x] == Lookup(Tally(s))(x)
  {
    if s != [] {
      CountIs(s[1..], x);
      assert s == [s[0]] + s[1..];
    }
    if x !in s { assert x !in multiset(s); }
  }

  lemma {:induction false} CountUnion<T>(s: seq<T>, p: T -> bool, q: T -> bool, r: T -> bool)
    requires forall x :: x in s ==> (r(x) <==> p(x) || q(x)) && !(p(x) && q(x))
    ensures Count(s, r) == Count(s, p) + Count(s, q)
  {
    if s != [] { CountUnion(s[1..], p, q, r); }
  }

  lemma {:induction false} CountMonotone<T>(s: seq<T>, p: T -> bool, q: T -> bool)
    requires forall x :: x in s && p(x) ==> q(x)
    ensures Count(s, p) <= Count(s, q)
  {
    if s != [] { CountMonotone(s[1..], p, q); }
  }

  lemma CountPositive<T>(s: seq<T>, p: T -> bool)
    ensures Count(s, p) > 0 <==> exists x :: x in s && p(x)
  {
    if Count(s, p) > 0 {
      var x := Filter(s, p)[0];
      FilterMember(s, p, x);
    }
    if x :| x in s && p(x) {
      FilterMember(s, p, x);
    }
  }

  lemma {:induction false} CountAll<T>(s: seq<T>, p: T -> bool)
    requires forall x :: x in s ==> p(x)
    ensures Count(s, p) == |s|
  {
    if s != [] { CountAll(s[1..], p); }
  }

  /** Counter values over distinct keys add up to the elements that have those keys. */
  lemma {:induction false} TalliesPartition<T>(s: seq<T>, keys: seq<T>)
    requires Distinct(keys)
    ensures SumInt(keys, Lookup(Tally(s))) == Count(s, Among(keys))
  {
    if keys == [] {
      CountPositive(s, Among(keys));
    } else {
      TalliesPartition(s, keys[1..]);
      CountIs(s, keys[0]);
      CountUnion(s, Is(keys[0]), Among(keys[1..]), Among(keys));
    }
  }

  /** Summing a counter over the keys that satisfy `p` counts the elements that satisfy it. */
  lemma CounterSum<T>(s: seq<T>, order: seq<T>, p: T -> bool)
    requires KeysInOrder(s, order)
    ensures SumInt(Filter(order, p), Lookup(Tally(s))) == Count(s, p)
  {
    FilterDistinct(order, p);
    forall x
      ensures x in Filter(order, p) <==> x in order && p(x)
    {
      FilterMember(order, p, x);
    }
    TalliesPartition(s, Filter(order, p));
    FilterExtensional(s, Among(Filter(order, p)), p);
  }

  /** `count * weight`, the term of a weighted sum over a counter's items. */
  function Weighed<T>(counter: map<T, int>, weight: T -> int): T -> int {
    x => Lookup(counter)(x) * weight(x)
  }

  lemma {:induction false} WeighedPartition<T>(s: seq<T>, keys: seq<T>, weight: T -> int)
    requires Distinct(keys)
    ensures SumInt(keys, Weighed(Tally(s), weight)) == SumInt(Filter(s, Among(keys)), weight)
  {
    if keys == [] {
      FilterExtensional(s, Among(keys), Nothing<T>());
      FilterNothing(s);
    } else {
      WeighedPartition(s, keys[1..], weight);
      CountIs(s, keys[0]);
      WeighedSplit(s, keys[0], keys[1..], keys, weight);
    }
  }

  function Nothing<T>(): T -> bool { _ => false }

  lemma {:induction false} FilterNothing<T>(s: seq<T>)
    ensures Filter(s, Nothing<T>()) == []
  {
    if s != [] { FilterNothing(s[1..]); }
  }

  lemma {:induction false} WeighedSplit<T>(s: seq<T>, x: T, rest: seq<T>, keys: seq<T>, weight: T -> int)
    requires keys == [x] + rest && x !in rest
    ensures SumInt(Filter(s, Among(keys)), weight)
            == Count(s, Is(x)) * weight(x) + SumInt(Filter(s, Among(rest)), weight)
  {
    if s != [] {
      WeighedSplit(s[1..], x, rest, keys, weight);
      FilteredHead(s, Among(keys), weight);
      FilteredHead(s, Among(rest), weight);
      Distribute(Count(s, Is(x)), Count(s[1..], Is(x)), if s[0] == x then 1 else 0, weight(x));
    }
  }

  lemma Distribute(total: int, n: int, d: int, w: int)
    requires total == n + d
    ensures total * w == n * w + d * w
  {
  }

  lemma FilteredHead<T>(s: seq<T>, p: T -> bool, weight: T -> int)
    requires s != []
    ensures SumInt(Filter(s, p), weight) == (if p(s[0]) then weight(s[0]) else 0) + SumInt(Filter(s[1..], p), weight)
  {
    SumIntAppend(if p(s[0]) then [s[0]] else [], Filter(s[1..], p), weight);
  }

  /** A weighted sum over a counter's items is the sum of the weights, one per element. */
  lemma WeighedSum<T>(s: seq<T>, order: seq<T>, weight: T -> int)
    requires KeysInOrder(s, order)
    ensures SumInt(order, Weighed(Tally(s), weight)) == SumInt(s, weight)
  {
    WeighedPartition(s, order, weight);
    FilterAll(s, Among(order));
  }

  lemma {:induction false} FilterAll<T>(s: seq<T>, p: T -> bool)
    requires forall x :: x in s ==> p(x)
    ensures Filter(s, p) == s
  {
    if s != [] { FilterAll(s[1..], p); }
  }

  lemma TallyOrderFree<T>(a: seq<T>, b: seq<T>)
    requires Permutes(a, b)
    ensures Tally(a) == Tally(b)
  {
    SameMembers(a, b);
  }
}
