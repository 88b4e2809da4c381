/**
 Choosing the cases of an optimization run (optimization/sampling.py). A seeded draw is any
 subset of the requested size; fractions are exact.
 */
module Sampling {
  import opened Sums
  import opened Counters
  import opened Ordering

  datatype Case = Case(id: string, holdout: bool, feature: string)
  datatype Strategy = Full | RandomSubset | Stratified

  // ---- The target size ----

  function Ceil(x: real): int { -((-x).Floor) }

  /** Python's `round`: to the nearest integer, a tie to the even one. */
  function Round(x: real): int {
    var low := x.Floor;
    var part := x - low as real;
    if part < 0.5 then low
    else if part > 0.5 then low + 1
    else if low % 2 == 0 then low else low + 1
  }

  /** The exact share of n cases. */
  function Share(fraction: real, n: int): real { fraction * n as real }

  function TargetSize(n: nat, fraction: real): int {
    if n == 0 then 0
    else
      var rounded := Round(Share(fraction, n));
      var target := if fraction > 0.0 && rounded == 0 then 1 else rounded;
      if target > n then n else if target < 0 then 0 else target
  }

  lemma ShareBounds(fraction: real, n: nat)
    requires 0.0 <= fraction <= 1.0
    ensures 0.0 <= Share(fraction, n) <= n as real
    ensures fraction > 0.0 && n > 0 ==> Share(fraction, n) > 0.0
  {
    ProductBounds(fraction, n as real);
  }

  lemma ProductBounds(x: real, y: real)
    requires 0.0 <= x <= 1.0 && 0.0 <= y
    ensures 0.0 <= x * y <= y && (x > 0.0 && y > 0.0 ==> x * y > 0.0)
  {
    assert (1.0 - x) * y >= 0.0;
  }

  /** The target is the floor or the ceiling of the exact share of the pool. */
  lemma TargetBounds(n: nat, fraction: real)
    requires 0.0 <= fraction <= 1.0
    ensures 0 <= TargetSize(n, fraction) <= n
    ensures Share(fraction, n).Floor <= TargetSize(n, fraction) <= Ceil(Share(fraction, n))
    ensures fraction > 0.0 && n > 0 ==> TargetSize(n, fraction) >= 1
    ensures TargetSize(n, fraction) == n ==> n <= 1 || Share(fraction, n) >= n as real - 0.5
  {
    ShareBounds(fraction, n);
  }

  /**
   The target is the whole number nearest to the share, the even one of two; only a positive share
   that rounds to nothing is raised to one case.
   */
  lemma TargetIsNearest(n: nat, fraction: real)
    requires 0.0 <= fraction <= 1.0
    ensures var share, target := fraction * n as real, TargetSize(n, fraction);
            if share > 0.0 && share <= 0.5 then target == 1
            else
              && target as real - 0.5 <= share <= target as real + 0.5
              && (share == target as real - 0.5 || share == target as real + 0.5 ==> target % 2 == 0)
  {
    ShareBounds(fraction, n);
    assert Share(fraction, n) == fraction * n as real;
    NearestWhole(Share(fraction, n), n);
  }

  lemma NearestWhole(x: real, n: nat)
    requires 0.0 <= x <= n as real
    ensures 0 <= Round(x) <= n
    ensures Round(x) as real - 0.5 <= x <= Round(x) as real + 0.5
    ensures x == Round(x) as real - 0.5 || x == Round(x) as real + 0.5 ==> Round(x) % 2 == 0
    ensures Round(x) == 0 <==> x <= 0.5
  {
  }

  // ---- Selecting by index ----

  predicate Anything(c: Case) { true }
  function HasFeature(feature: string): Case -> bool { (c: Case) => c.feature == feature }

  /** `[c for i, c in enumerate(pool) if i in chosen]`, up to index n. */
  function Pick(pool: seq<Case>, chosen: set<nat>, n: nat): seq<Case>
    requires n <= |pool|
  {
    if n == 0 then [] else Pick(pool, chosen, n - 1) + if n - 1 in chosen then [pool[n - 1]] else []
  }

  function Hits(pool: seq<Case>, chosen: set<nat>, n: nat, p: Case -> bool): set<nat>
    requires n <= |pool|
  {
    set i | 0 <= i < n && i in chosen && p(pool[i])
  }

  lemma {:induction false} PickCount(pool: seq<Case>, chosen: set<nat>, n: nat, p: Case -> bool)
    requires n <= |pool|
    ensures Count(Pick(pool, chosen, n), p) == |Hits(pool, chosen, n, p)|
  {
    if n > 0 {
      PickCount(pool, chosen, n - 1, p);
      FilterAppend(Pick(pool, chosen, n - 1), if n - 1 in chosen then [pool[n - 1]] else [], p);
      var now, before := Hits(pool, chosen, n, p), Hits(pool, chosen, n - 1, p);
      if n - 1 in chosen && p(pool[n - 1]) {
        assert now == before + {n - 1};
      } else {
        assert now == before;
      }
    }
  }

  lemma {:induction false} PickIsSubsequence(pool: seq<Case>, chosen: set<nat>, n: nat)
    requires n <= |pool|
    ensures Subsequence(Pick(pool, chosen, n), pool[..n])
  {
    if n > 0 {
      PickIsSubsequence(pool, chosen, n - 1);
      assert pool[..n][..n - 1] == pool[..n - 1];
      var now := Pick(pool, chosen, n);
      if n - 1 in chosen {
        assert now[..|now| - 1] == Pick(pool, chosen, n - 1);
      } else {
        assert now == Pick(pool, chosen, n - 1);
      }
    }
  }

  /** `rng.sample(population, k)`: any k of them. */
  method Sample(population: seq<nat>, k: nat) returns (chosen: set<nat>)
    requires Distinct(population) && k <= |population|
    ensures |chosen| == k
    ensures forall i :: i in chosen ==> i in population
  {
    chosen := {};
    for i := 0 to k
      invariant |chosen| == i
      invariant forall x :: x in chosen <==> x in population[..i]
    {
      chosen := chosen + {population[i]};
    }
  }

  method RangeTo(n: nat) returns (r: seq<nat>)
    ensures Distinct(r) && |r| == n && forall i: nat :: i in r <==> 0 <= i < n
  {
    r := [];
    for i := 0 to n
      invariant |r| == i && forall j :: 0 <= j < i ==> r[j] == j
    {
      r := r + [i];
    }
    forall i: nat
      ensures i in r <==> 0 <= i < n
    {
      if i < n { assert r[i] == i; }
    }
  }

  /** `_random_subset`. */
  method TakeRandom(pool: seq<Case>, fraction: real) returns (r: seq<Case>)
    requires 0.0 <= fraction <= 1.0
    ensures |r| == TargetSize(|pool|, fraction) && Subsequence(r, pool)
  {
    var target := TargetSize(|pool|, fraction);
    TargetBounds(|pool|, fraction);
    if target >= |pool| {
      WholeIsSubsequence(pool);
      return pool;
    }
    var indices := RangeTo(|pool|);
    var chosen := Sample(indices, target);
    r := Pick(pool, chosen, |pool|);
    PickLength(pool, chosen);
    PickIsSubsequence(pool, chosen, |pool|);
    assert pool[..|pool|] == pool;
  }

  lemma PickLength(pool: seq<Case>, chosen: set<nat>)
    requires forall i :: i in chosen ==> i < |pool|
    ensures |Pick(pool, chosen, |pool|)| == |chosen|
  {
    PickCount(pool, chosen, |pool|, Anything);
    CountAll(Pick(pool, chosen, |pool|), Anything);
    assert Hits(pool, chosen, |pool|, Anything) == chosen;
  }

  // ---- Strata ----

  function FeatureOf(c: Case): string { c.feature }
  function Features(pool: seq<Case>): seq<string> { Map(pool, FeatureOf) }

  /** The indices of one feature's cases, in pool order. */
  function Stratum(pool: seq<Case>, n: nat, feature: string): (r: seq<nat>)
    requires n <= |pool|
    ensures forall i :: i in r <==> 0 <= i < n && pool[i].feature == feature
    ensures Distinct(r)
  {
    if n == 0 then [] else Stratum(pool, n - 1, feature) + if pool[n - 1].feature == feature then [n - 1] else []
  }

  function Size(pool: seq<Case>): string -> nat { feature => |Stratum(pool, |pool|, feature)| }

  ghost predicate StrataUpTo(pool: seq<Case>, n: nat, order: seq<string>, strata: map<string, seq<nat>>)
    requires n <= |pool|
  {
    && KeysInOrder(Features(pool[..n]), order)
    && strata.Keys == (set k | k in order)
    && forall k :: k in strata ==> strata[k] == Stratum(pool, n, k)
  }

  lemma StratumEmpty(pool: seq<Case>, n: nat, feature: string)
    requires n <= |pool| && feature !in Features(pool[..n])
    ensures Stratum(pool, n, feature) == []
  {
    SizeIsCount(pool, n, feature);
    CountIs(Features(pool[..n]), feature);
  }

  /** One more index in the stratum of its feature. */
  function Joined(strata: map<string, seq<nat>>, k: string, n: nat): map<string, seq<nat>> {
    strata[k := (if k in strata then strata[k] else []) + [n]]
  }

  function Seen(order: seq<string>, strata: map<string, seq<nat>>, k: string): seq<string> {
    if k in strata then order else order + [k]
  }

  lemma StrataNext(pool: seq<Case>, n: nat, order: seq<string>, strata: map<string, seq<nat>>)
    requires n < |pool| && StrataUpTo(pool, n, order, strata)
    ensures StrataUpTo(pool, n + 1, Seen(order, strata, pool[n].feature), Joined(strata, pool[n].feature, n))
  {
    OrderGrows(pool, n, order, strata);
    if pool[n].feature !in strata { StratumEmpty(pool, n, pool[n].feature); }
    StrataGrow(pool, n, strata);
  }

  lemma OrderGrows(pool: seq<Case>, n: nat, order: seq<string>, strata: map<string, seq<nat>>)
    requires n < |pool| && KeysInOrder(Features(pool[..n]), order) && strata.Keys == (set k | k in order)
    ensures KeysInOrder(Features(pool[..n + 1]), Seen(order, strata, pool[n].feature))
    ensures Joined(strata, pool[n].feature, n).Keys == (set k | k in Seen(order, strata, pool[n].feature))
    ensures pool[n].feature !in strata ==> pool[n].feature !in Features(pool[..n])
  {
    var k := pool[n].feature;
    assert Features(pool[..n + 1]) == Features(pool[..n]) + [k];
    KeysInOrderSnoc(Features(pool[..n]), order, k);
    assert k in strata <==> k in order;
  }

  lemma StrataGrow(pool: seq<Case>, n: nat, strata: map<string, seq<nat>>)
    requires n < |pool| && (forall k :: k in strata ==> strata[k] == Stratum(pool, n, k))
    requires pool[n].feature !in strata ==> Stratum(pool, n, pool[n].feature) == []
    ensures var k := pool[n].feature;
            forall j :: j in Joined(strata, k, n) ==> Joined(strata, k, n)[j] == Stratum(pool, n + 1, j)
  {
  }

  /** Groups the pool's indices by feature, features in first-seen order. */
  method GroupByFeature(pool: seq<Case>) returns (order: seq<string>, strata: map<string, seq<nat>>)
    ensures StrataUpTo(pool, |pool|, order, strata)
  {
    order, strata := [], map[];
    for i := 0 to |pool|
      invariant StrataUpTo(pool, i, order, strata)
    {
      var k := pool[i].feature;
      StrataNext(pool, i, order, strata);
      order, strata := Seen(order, strata, k), Joined(strata, k, i);
    }
  }

  lemma {:induction false} SizeIsCount(pool: seq<Case>, n: nat, feature: string)
    requires n <= |pool|
    ensures |Stratum(pool, n, feature)| == Count(Features(pool[..n]), Is(feature))
  {
    if n > 0 {
      SizeIsCount(pool, n - 1, feature);
      assert Features(pool[..n]) == Features(pool[..n - 1]) + [pool[n - 1].feature];
      FilterAppend(Features(pool[..n - 1]), [pool[n - 1].feature], Is(feature));
    }
  }

  /** The strata partition the pool. */
  lemma SizesAddUp(pool: seq<Case>, order: seq<string>)
    requires KeysInOrder(Features(pool), order)
    ensures SumInt(order, Size(pool)) == |pool|
  {
    assert pool[..|pool|] == pool;
    forall k
      ensures Size(pool)(k) == Lookup(Tally(Features(pool)))(k)
    {
      SizeIsCount(pool, |pool|, k);
      CountIs(Features(pool), k);
    }
    SumIntExtensional(order, Size(pool), Lookup(Tally(Features(pool))));
    TalliesPartition(Features(pool), order);
    CountAll(Features(pool), Among(order));
  }

  // ---- Largest-remainder apportionment ----

  function Raw(fraction: real, pool: seq<Case>): string -> real { k => Share(fraction, Size(pool)(k)) }
  function Base(fraction: real, pool: seq<Case>): string -> int { k => Raw(fraction, pool)(k).Floor }
  function Part(fraction: real, pool: seq<Case>): string -> real {
    k => Raw(fraction, pool)(k) - Base(fraction, pool)(k) as real
  }
  function HasPart(fraction: real, pool: seq<Case>): string -> bool { k => Part(fraction, pool)(k) > 0.0 }

  /** Descending remainder, then feature name. */
  function RemainderLe(fraction: real, pool: seq<Case>): (string, string) -> bool {
    (a, b) => var x, y := Part(fraction, pool)(a), Part(fraction, pool)(b); x > y || (x == y && TextLe(a, b))
  }

  lemma RemainderIsPreorder(fraction: real, pool: seq<Case>)
    ensures TotalPreorder(RemainderLe(fraction, pool))
  {
    var le := RemainderLe(fraction, pool);
    TextIsTotalOrder();
    assert forall a, b :: le(a, b) || le(b, a);
    assert forall a, b, c :: le(a, b) && le(b, c) ==> le(a, c);
  }

  /** A stratum with a remainder has room for one more seat. */
  lemma RoomForRemainder(fraction: real, pool: seq<Case>, k: string)
    requires 0.0 <= fraction <= 1.0
    ensures 0.0 <= Part(fraction, pool)(k) < 1.0
    ensures 0 <= Base(fraction, pool)(k) <= Size(pool)(k)
    ensures HasPart(fraction, pool)(k) ==> Base(fraction, pool)(k) + 1 <= Size(pool)(k)
    ensures HasPart(fraction, pool)(k) ==> Base(fraction, pool)(k) + 1 == Ceil(Raw(fraction, pool)(k))
    ensures !HasPart(fraction, pool)(k) ==> Base(fraction, pool)(k) == Ceil(Raw(fraction, pool)(k))
  {
    ShareBounds(fraction, Size(pool)(k));
    FloorFacts(Raw(fraction, pool)(k), Size(pool)(k));
  }

  lemma FloorFacts(x: real, s: nat)
    requires 0.0 <= x <= s as real
    ensures 0.0 <= x - x.Floor as real < 1.0
    ensures 0 <= x.Floor <= s
    ensures if x > x.Floor as real then x.Floor + 1 <= s && x.Floor + 1 == Ceil(x) else x.Floor == Ceil(x)
  {
  }

  lemma {:induction false} RawAddUp(fraction: real, pool: seq<Case>, order: seq<string>)
    ensures Sum(order, Raw(fraction, pool)) == Share(fraction, SumInt(order, Size(pool)))
  {
    if order != [] {
      RawAddUp(fraction, pool, order[1..]);
      Distribute(fraction, Size(pool)(order[0]), SumInt(order[1..], Size(pool)), SumInt(order, Size(pool)));
    }
  }

  lemma Distribute(f: real, a: int, b: int, total: int)
    requires total == a + b
    ensures Share(f, total) == Share(f, a) + Share(f, b)
  {
  }

  lemma {:induction false} PartsAddUp(fraction: real, pool: seq<Case>, order: seq<string>)
    requires 0.0 <= fraction <= 1.0
    ensures Sum(order, Part(fraction, pool))
            == Sum(order, Raw(fraction, pool)) - SumInt(order, Base(fraction, pool)) as real
    ensures 0.0 <= Sum(order, Part(fraction, pool)) <= Count(order, HasPart(fraction, pool)) as real
    ensures Count(order, HasPart(fraction, pool)) > 0 ==>
              Sum(order, Part(fraction, pool)) < Count(order, HasPart(fraction, pool)) as real
  {
    if order != [] {
      PartsAddUp(fraction, pool, order[1..]);
      RoomForRemainder(fraction, pool, order[0]);
    }
  }

  /** The seats left after the floors are at most the strata with a remainder, and never negative. */
  lemma LeftoverBounds(fraction: real, pool: seq<Case>, order: seq<string>)
    requires 0.0 <= fraction <= 1.0 && KeysInOrder(Features(pool), order)
    ensures 0 <= TargetSize(|pool|, fraction) - SumInt(order, Base(fraction, pool))
              <= Count(order, HasPart(fraction, pool)) <= |order|
  {
    SizesAddUp(pool, order);
    RawAddUp(fraction, pool, order);
    PartsAddUp(fraction, pool, order);
    TargetBounds(|pool|, fraction);
    FilterLength(order, HasPart(fraction, pool));
    WholeSeats(Share(fraction, |pool|), SumInt(order, Base(fraction, pool)), Count(order, HasPart(fraction, pool)),
               TargetSize(|pool|, fraction));
  }

  lemma WholeSeats(share: real, floors: int, parts: nat, target: int)
    requires share.Floor <= target <= Ceil(share)
    requires 0.0 <= share - floors as real <= parts as real
    requires parts > 0 ==> share - floors as real < parts as real
    ensures 0 <= target - floors <= parts
  {
  }

  /** The strata that get an extra seat all have a remainder. */
  lemma NoneFrom<T>(s: seq<T>, i: nat, p: T -> bool)
    requires i <= |s| && forall j :: i <= j < |s| ==> !p(s[j])
    ensures Count(s, p) <= i
  {
    assert s == s[..i] + s[i..];
    FilterAppend(s[..i], s[i..], p);
    FilterLength(s[..i], p);
    FilterExtensional(s[i..], p, Nothing<T>());
    FilterNothing(s[i..]);
  }

  lemma ExtraSeatsHaveParts(fraction: real, pool: seq<Case>, order: seq<string>, n: nat)
    requires n <= Count(order, HasPart(fraction, pool)) <= |order|
    ensures var sorted := Sort(order, RemainderLe(fraction, pool));
            && |sorted| == |order|
            && forall i :: 0 <= i < n ==> HasPart(fraction, pool)(sorted[i])
  {
    var le, p := RemainderLe(fraction, pool), HasPart(fraction, pool);
    var sorted := Sort(order, le);
    RemainderIsPreorder(fraction, pool);
    SortPermutes(order, le);
    SortSorted(order, le);
    CountPermutes(sorted, order, p);
    forall i | 0 <= i < n
      ensures p(sorted[i])
    {
      if !p(sorted[i]) {
        forall j | i <= j < |sorted|
          ensures !p(sorted[j])
        {
          assert i == j || le(sorted[i], sorted[j]);
        }
        NoneFrom(sorted, i, p);
        assert false;
      }
    }
  }

  /** Of two features, the one that is first in line for a seat the floors leave over. */
  ghost predicate Ahead(fraction: real, pool: seq<Case>, j: string, k: string) {
    var x, y := Remainder(fraction, pool, j), Remainder(fraction, pool, k);
    x > y || (x == y && TextLess(j, k))
  }

  /** The exact share of a feature, and what is left of it above the floor. */
  ghost function ExactShare(fraction: real, pool: seq<Case>, k: string): real {
    fraction * Count(pool, HasFeature(k)) as real
  }
  ghost function Remainder(fraction: real, pool: seq<Case>, k: string): real {
    ExactShare(fraction, pool, k) - ExactShare(fraction, pool, k).Floor as real
  }

  lemma SharesAreExact(fraction: real, pool: seq<Case>, k: string)
    ensures Raw(fraction, pool)(k) == ExactShare(fraction, pool, k)
    ensures Part(fraction, pool)(k) == Remainder(fraction, pool, k)
  {
    FeatureCount(pool, |pool|, k);
    assert pool[..|pool|] == pool;
    assert Size(pool)(k) == Count(pool, HasFeature(k));
    assert Raw(fraction, pool)(k) == Share(fraction, Size(pool)(k));
  }

  /** The strata that get an extra seat are ahead of all others. */
  ghost predicate LargestFirst(fraction: real, pool: seq<Case>, order: seq<string>, extra: seq<string>) {
    forall j, k :: j in extra && k in order && k !in extra ==> Ahead(fraction, pool, j, k)
  }

  lemma FrontIsAhead(fraction: real, pool: seq<Case>, order: seq<string>, n: nat)
    requires Distinct(order) && n <= |order|
    ensures var sorted := Sort(order, RemainderLe(fraction, pool));
            |sorted| == |order| && LargestFirst(fraction, pool, order, sorted[..n])
  {
    var le := RemainderLe(fraction, pool);
    var sorted := Sort(order, le);
    RemainderIsPreorder(fraction, pool);
    SortPermutes(order, le);
    SortSorted(order, le);
    PermutesLength(sorted, order);
    SameMembers(sorted, order);
    forall j, k | j in sorted[..n] && k in order && k !in sorted[..n]
      ensures Ahead(fraction, pool, j, k)
    {
      var x :| 0 <= x < n && sorted[x] == j;
      assert sorted == sorted[..n] + sorted[n..] && k in sorted[n..];
      var y :| 0 <= y < |sorted[n..]| && sorted[n..][y] == k;
      assert le(sorted[x], sorted[n + y]) && j != k;
      SharesAreExact(fraction, pool, j);
      SharesAreExact(fraction, pool, k);
    }
  }

  /** The seats of every stratum. */
  function Seats(fraction: real, pool: seq<Case>, extra: seq<string>): string -> int {
    k => Base(fraction, pool)(k) + if k in extra then 1 else 0
  }

  lemma {:induction false} SeatsAddUp(fraction: real, pool: seq<Case>, order: seq<string>, extra: seq<string>)
    ensures SumInt(order, Seats(fraction, pool, extra))
            == SumInt(order, Base(fraction, pool)) + Count(order, Among(extra))
  {
    if order != [] { SeatsAddUp(fraction, pool, order[1..], extra); }
  }

  lemma CountAmong(order: seq<string>, extra: seq<string>)
    requires Distinct(order) && Distinct(extra) && forall k :: k in extra ==> k in order
    ensures Count(order, Among(extra)) == |extra|
  {
    FilterDistinct(order, Among(extra));
    forall k { FilterMember(order, Among(extra), k); }
    DistinctSameMembers(Filter(order, Among(extra)), extra);
    PermutesLength(Filter(order, Among(extra)), extra);
  }

  function Clamp(x: int, cap: int): int { if x <= cap then x else cap }

  /** Hands one more seat to each of the first `n` strata of `remainders`. */
  method AddSeats(counts: map<string, int>, strata: map<string, seq<nat>>, remainders: seq<string>, n: nat,
                  ghost base: string -> int)
    returns (r: map<string, int>)
    requires n <= |remainders| && Distinct(remainders)
    requires counts.Keys == strata.Keys && forall k :: k in counts ==> counts[k] == base(k)
    requires forall i :: 0 <= i < n ==> remainders[i] in strata && base(remainders[i]) + 1 <= |strata[remainders[i]]|
    ensures r.Keys == strata.Keys
    ensures forall k :: k in r ==> r[k] == base(k) + if k in remainders[..n] then 1 else 0
  {
    r := counts;
    for i := 0 to n
      invariant r.Keys == strata.Keys
      invariant forall k :: k in r ==> r[k] == base(k) + if k in remainders[..i] then 1 else 0
    {
      var k := remainders[i];
      assert k !in remainders[..i];
      assert r[k] + 1 <= |strata[k]|;  // so the clamp of the next line never binds
      r := r[k := Clamp(r[k] + 1, |strata[k]|)];
    }
  }

  /** The extra seats: distinct strata, each with a remainder, as many as the floors leave over. */
  lemma ExtraSeats(fraction: real, pool: seq<Case>, order: seq<string>)
    requires 0.0 <= fraction <= 1.0 && KeysInOrder(Features(pool), order)
    ensures var remainders := Sort(order, RemainderLe(fraction, pool));
            var n := TargetSize(|pool|, fraction) - SumInt(order, Base(fraction, pool));
            && 0 <= n <= |remainders| && Distinct(remainders)
            && (forall i :: 0 <= i < n ==> remainders[i] in order && HasPart(fraction, pool)(remainders[i]))
            && (forall i :: 0 <= i < n ==> Base(fraction, pool)(remainders[i]) + 1 <= Size(pool)(remainders[i]))
            && SumInt(order, Seats(fraction, pool, remainders[..n])) == TargetSize(|pool|, fraction)
  {
    LeftoverBounds(fraction, pool, order);
    var n := TargetSize(|pool|, fraction) - SumInt(order, Base(fraction, pool));
    ExtraSeatsHaveParts(fraction, pool, order, n);
    var remainders := Sort(order, RemainderLe(fraction, pool));
    SortPermutes(order, RemainderLe(fraction, pool));
    PermutesDistinct(order, remainders);
    SameMembers(remainders, order);
    forall i | 0 <= i < n { RoomForRemainder(fraction, pool, remainders[i]); }
    SeatsAddUp(fraction, pool, order, remainders[..n]);
    CountAmong(order, remainders[..n]);
  }

  /** Floors first, then one more seat for each of the first `n` strata of `remainders`. */
  method HandOut(pool: seq<Case>, strata: map<string, seq<nat>>, fraction: real, remainders: seq<string>, n: nat)
    returns (counts: map<string, int>)
    requires 0.0 <= fraction <= 1.0 && n <= |remainders| && Distinct(remainders)
    requires forall i :: 0 <= i < n ==> HasPart(fraction, pool)(remainders[i])
    requires forall i :: 0 <= i < n ==> remainders[i] in strata
                                        && Base(fraction, pool)(remainders[i]) + 1 <= |strata[remainders[i]]|
    ensures counts.Keys == strata.Keys
    ensures forall k :: k in counts ==> SeatOf(fraction, pool, remainders[..n], k, counts[k])
  {
    var base := Base(fraction, pool);
    counts := AddSeats(map k | k in strata :: base(k), strata, remainders, n, base);
    AllSeats(fraction, pool, remainders, n, counts);
  }

  /** The apportionment: the strata with the largest remainders get the seats the floors leave. */
  method Apportion(pool: seq<Case>, order: seq<string>, strata: map<string, seq<nat>>, fraction: real, target: int)
    returns (counts: map<string, int>, ghost extra: seq<string>)
    requires 0.0 <= fraction <= 1.0 && Sized(pool, order, strata)
    requires target == TargetSize(|pool|, fraction)
    ensures counts.Keys == strata.Keys
    ensures forall k :: k in counts ==> SeatOf(fraction, pool, extra, k, counts[k])
    ensures SumInt(order, Seats(fraction, pool, extra)) == target
    ensures LargestFirst(fraction, pool, order, extra)
  {
    ReadyToSeat(pool, order, strata, fraction);
    var remainders := Sort(order, RemainderLe(fraction, pool));
    var leftover: nat := target - SumInt(order, Base(fraction, pool));
    counts := HandOut(pool, strata, fraction, remainders, leftover);
    extra := remainders[..leftover];
  }

  /** The seats left after the floors fit the strata with the largest remainders. */
  lemma ReadyToSeat(pool: seq<Case>, order: seq<string>, strata: map<string, seq<nat>>, fraction: real)
    requires 0.0 <= fraction <= 1.0 && Sized(pool, order, strata)
    ensures var base, remainders := Base(fraction, pool), Sort(order, RemainderLe(fraction, pool));
            var n := TargetSize(|pool|, fraction) - SumInt(order, base);
            && 0 <= n <= |remainders| && Distinct(remainders)
            && (forall i :: 0 <= i < n ==> HasPart(fraction, pool)(remainders[i]))
            && (forall i :: 0 <= i < n ==>
                  remainders[i] in strata && base(remainders[i]) + 1 <= |strata[remainders[i]]|)
            && SumInt(order, Seats(fraction, pool, remainders[..n])) == TargetSize(|pool|, fraction)
            && LargestFirst(fraction, pool, order, remainders[..n])
  {
    LeftoverBounds(fraction, pool, order);
    ExtraSeats(fraction, pool, order);
    FrontIsAhead(fraction, pool, order, TargetSize(|pool|, fraction) - SumInt(order, Base(fraction, pool)));
  }

  lemma ExtraIsPart(fraction: real, pool: seq<Case>, remainders: seq<string>, n: nat, k: string)
    requires 0.0 <= fraction <= 1.0 && n <= |remainders|
    requires forall i :: 0 <= i < n ==> HasPart(fraction, pool)(remainders[i])
    ensures SeatOf(fraction, pool, remainders[..n], k, Seats(fraction, pool, remainders[..n])(k))
  {
    RoomForRemainder(fraction, pool, k);
  }

  lemma AllSeats(fraction: real, pool: seq<Case>, remainders: seq<string>, n: nat, counts: map<string, int>)
    requires 0.0 <= fraction <= 1.0 && n <= |remainders|
    requires forall i :: 0 <= i < n ==> HasPart(fraction, pool)(remainders[i])
    requires forall k :: k in counts ==> counts[k] == Base(fraction, pool)(k) + if k in remainders[..n] then 1 else 0
    ensures forall k :: k in counts ==> SeatOf(fraction, pool, remainders[..n], k, counts[k])
  {
    forall k | k in counts
      ensures SeatOf(fraction, pool, remainders[..n], k, counts[k])
    {
      ExtraIsPart(fraction, pool, remainders, n, k);
    }
  }

  /** One stratum per feature of the pool, each as large as its feature's cases are many. */
  ghost predicate Sized(pool: seq<Case>, order: seq<string>, strata: map<string, seq<nat>>) {
    && KeysInOrder(Features(pool), order)
    && (forall k :: k in strata ==> |strata[k]| == Size(pool)(k))
    && (forall k :: k in order <==> k in strata)
  }

  lemma StratumSizes(pool: seq<Case>, order: seq<string>, strata: map<string, seq<nat>>)
    requires StrataUpTo(pool, |pool|, order, strata)
    ensures Sized(pool, order, strata)
  {
    assert pool[..|pool|] == pool;
  }

  /** A stratum's seats: the floor or the ceiling of its share, and no more than its size. */
  ghost predicate SeatOf(fraction: real, pool: seq<Case>, extra: seq<string>, k: string, n: int) {
    && n == Seats(fraction, pool, extra)(k)
    && (n == Base(fraction, pool)(k) || n == Ceil(Raw(fraction, pool)(k)))
    && 0 <= n <= Size(pool)(k)
  }

  // ---- Drawing the seats ----

  ghost predicate Drawn(pool: seq<Case>, order: seq<string>, counts: map<string, int>, chosen: set<nat>) {
    && (forall i :: i in chosen ==> i < |pool| && pool[i].feature in order)
    && (forall k :: k in order && k in counts ==> |Hits(pool, chosen, |pool|, HasFeature(k))| == counts[k])
  }

  lemma DrawNext(pool: seq<Case>, order: seq<string>, counts: map<string, int>, chosen: set<nat>,
                 k: string, drawn: set<nat>)
    requires Drawn(pool, order, counts, chosen) && k in counts && k !in order
    requires |drawn| == counts[k] && forall i :: i in drawn ==> i in Stratum(pool, |pool|, k)
    ensures Drawn(pool, order + [k], counts, chosen + drawn)
    ensures |chosen + drawn| == |chosen| + |drawn|
  {
    assert chosen !! drawn;
    forall j | j in order + [k] && j in counts
      ensures |Hits(pool, chosen + drawn, |pool|, HasFeature(j))| == counts[j]
    {
      if j == k {
        assert Hits(pool, chosen + drawn, |pool|, HasFeature(j)) == drawn;
      } else {
        assert Hits(pool, chosen + drawn, |pool|, HasFeature(j)) == Hits(pool, chosen, |pool|, HasFeature(j));
      }
    }
  }

  lemma DrawAt(pool: seq<Case>, order: seq<string>, counts: map<string, int>, chosen: set<nat>, i: nat, drawn: set<nat>)
    requires i < |order| && Distinct(order) && order[i] in counts
    requires Drawn(pool, order[..i], counts, chosen)
    requires |drawn| == counts[order[i]] && forall x :: x in drawn ==> x in Stratum(pool, |pool|, order[i])
    ensures Drawn(pool, order[..i + 1], counts, chosen + drawn)
    ensures |chosen + drawn| == |chosen| + |drawn|
  {
    var before, after := Prefixes(order, i);
    DrawNext(pool, before, counts, chosen, order[i], drawn);
  }

  lemma Prefixes(order: seq<string>, i: nat) returns (before: seq<string>, after: seq<string>)
    requires i < |order| && Distinct(order)
    ensures before == order[..i] && order[i] !in before
    ensures after == order[..i + 1] == before + [order[i]]
  {
    before, after := order[..i], order[..i + 1];
  }

  method DrawSeats(stratum: seq<nat>, count: int) returns (drawn: set<nat>)
    requires Distinct(stratum) && 0 <= count <= |stratum|
    ensures |drawn| == count && forall x :: x in drawn ==> x in stratum
  {
    var take := if count <= |stratum| then count else |stratum|;
    drawn := {};
    if take > 0 { drawn := Sample(stratum, take); }
  }

  /** Drawing the next stratum of the order. */
  method DrawOne(pool: seq<Case>, ghost order: seq<string>, stratum: seq<nat>, count: int,
                 ghost counts: map<string, int>, chosen: set<nat>, ghost i: nat)
    returns (r: set<nat>)
    requires i < |order| && Distinct(order) && order[i] in counts && count == counts[order[i]]
    requires stratum == Stratum(pool, |pool|, order[i]) && 0 <= count <= |stratum|
    requires Drawn(pool, order[..i], counts, chosen)
    ensures Drawn(pool, order[..i + 1], counts, r) && |r| == |chosen| + count
  {
    var drawn := DrawSeats(stratum, count);
    DrawAt(pool, order, counts, chosen, i, drawn);
    r := chosen + drawn;
  }

  /** What the seats of the strata must be for them to be drawn. */
  ghost predicate Seated(pool: seq<Case>, order: seq<string>, strata: map<string, seq<nat>>, counts: map<string, int>) {
    && Distinct(order)
    && forall k :: k in order ==>
         k in strata && k in counts && strata[k] == Stratum(pool, |pool|, k) && 0 <= counts[k] <= |strata[k]|
  }

  method Draw(pool: seq<Case>, order: seq<string>, strata: map<string, seq<nat>>, counts: map<string, int>)
    returns (chosen: set<nat>)
    requires Seated(pool, order, strata, counts)
    ensures Drawn(pool, order, counts, chosen) && |chosen| == SumInt(order, Lookup(counts))
  {
    chosen := {};
    for i := 0 to |order|
      invariant Drawn(pool, order[..i], counts, chosen)
      invariant |chosen| == SumInt(order[..i], Lookup(counts))
    {
      var k := order[i];
      SumIntSnoc(order, i, Lookup(counts));
      chosen := DrawOne(pool, order, strata[k], counts[k], counts, chosen, i);
    }
    assert order[..|order|] == order;
  }

  /**
   Every feature has the floor of its exact share of the pool or the ceiling, and those that are
   raised above the floor are ahead of those that are not.
   */
  ghost predicate Proportional(pool: seq<Case>, r: seq<Case>, fraction: real) {
    && (forall k :: FairShare(pool, r, fraction, k))
    && (forall j, k :: Raised(pool, r, fraction, j) && !Raised(pool, r, fraction, k) ==> Ahead(fraction, pool, j, k))
  }

  ghost predicate FairShare(pool: seq<Case>, r: seq<Case>, fraction: real, k: string) {
    ExactShare(fraction, pool, k).Floor <= Count(r, HasFeature(k)) <= Ceil(ExactShare(fraction, pool, k))
  }

  ghost predicate Raised(pool: seq<Case>, r: seq<Case>, fraction: real, k: string) {
    Count(r, HasFeature(k)) > ExactShare(fraction, pool, k).Floor
  }

  /**
   `_stratified_subset`. For every fraction and pool: exactly the target size, each feature at
   the floor or ceiling of its share, in pool order; the top-up of the source is dead code.
   */
  method TakeStratified(pool: seq<Case>, fraction: real) returns (r: seq<Case>)
    requires 0.0 <= fraction <= 1.0
    ensures |r| == TargetSize(|pool|, fraction) && Subsequence(r, pool)
    ensures Proportional(pool, r, fraction)
  {
    var target := TargetSize(|pool|, fraction);
    TargetBounds(|pool|, fraction);
    if target >= |pool| {
      WholeIsSubsequence(pool);
      WholePoolProportional(pool, fraction);
      return pool;
    }
    if target == 0 {
      NothingProportional(pool, fraction);
      return [];
    }
    var order, strata := GroupByFeature(pool);
    StratumSizes(pool, order, strata);
    var counts, extra := Apportion(pool, order, strata, fraction, target);
    SeatsFit(pool, order, strata, counts, extra, fraction);
    var chosen := Draw(pool, order, strata, counts);
    r := Pick(pool, chosen, |pool|);
    PickLength(pool, chosen);
    PickIsSubsequence(pool, chosen, |pool|);
    assert pool[..|pool|] == pool;
    DrawnProportional(pool, order, strata, counts, chosen, extra, fraction);
    if |r| < target { assert false; }
  }

  lemma SeatsFit(pool: seq<Case>, order: seq<string>, strata: map<string, seq<nat>>, counts: map<string, int>,
                 extra: seq<string>, fraction: real)
    requires StrataUpTo(pool, |pool|, order, strata) && counts.Keys == strata.Keys
    requires forall k :: k in counts ==> SeatOf(fraction, pool, extra, k, counts[k])
    ensures Seated(pool, order, strata, counts)
    ensures SumInt(order, Lookup(counts)) == SumInt(order, Seats(fraction, pool, extra))
  {
    StratumSizes(pool, order, strata);
    SumIntExtensional(order, Lookup(counts), Seats(fraction, pool, extra));
  }

  /** How many cases of a feature were drawn: as many as its stratum had seats, or none. */
  lemma DrawnCount(pool: seq<Case>, order: seq<string>, strata: map<string, seq<nat>>, counts: map<string, int>,
                   chosen: set<nat>, fraction: real, k: string)
    requires StrataUpTo(pool, |pool|, order, strata) && counts.Keys == strata.Keys
    requires Drawn(pool, order, counts, chosen)
    ensures k in order ==> k in counts && Count(Pick(pool, chosen, |pool|), HasFeature(k)) == counts[k]
    ensures k !in order ==>
              Count(Pick(pool, chosen, |pool|), HasFeature(k)) == 0 && ExactShare(fraction, pool, k) == 0.0
  {
    PickCount(pool, chosen, |pool|, HasFeature(k));
    if k !in order {
      assert pool[..|pool|] == pool;
      StratumEmpty(pool, |pool|, k);
      FeatureCount(pool, |pool|, k);
      assert Hits(pool, chosen, |pool|, HasFeature(k)) == {};
    }
  }

  /** A stratum's seats are above its floor exactly when it has an extra one, and then it has a remainder. */
  lemma ExtraIsRaised(pool: seq<Case>, extra: seq<string>, fraction: real, k: string, n: int)
    requires 0.0 <= fraction <= 1.0 && SeatOf(fraction, pool, extra, k, n)
    ensures var share := ExactShare(fraction, pool, k);
            && share.Floor <= n <= Ceil(share)
            && (n > share.Floor <==> k in extra) && (k in extra ==> Remainder(fraction, pool, k) > 0.0)
  {
    SharesAreExact(fraction, pool, k);
    RoomForRemainder(fraction, pool, k);
  }

  lemma DrawnProportional(pool: seq<Case>, order: seq<string>, strata: map<string, seq<nat>>,
                          counts: map<string, int>, chosen: set<nat>, extra: seq<string>, fraction: real)
    requires 0.0 <= fraction <= 1.0
    requires StrataUpTo(pool, |pool|, order, strata) && counts.Keys == strata.Keys
    requires Drawn(pool, order, counts, chosen) && LargestFirst(fraction, pool, order, extra)
    requires forall k :: k in counts ==> SeatOf(fraction, pool, extra, k, counts[k])
    ensures Proportional(pool, Pick(pool, chosen, |pool|), fraction)
  {
    var r := Pick(pool, chosen, |pool|);
    forall k
      ensures FairShare(pool, r, fraction, k) && RaisedBySeat(pool, r, fraction, order, extra, k)
    {
      DrawnFairly(pool, order, strata, counts, chosen, extra, fraction, k);
    }
    SeatsAhead(pool, r, fraction, order, extra);
  }

  /** A feature is above its floor exactly when its stratum has an extra seat. */
  ghost predicate RaisedBySeat(pool: seq<Case>, r: seq<Case>, fraction: real, order: seq<string>, extra: seq<string>,
                               k: string) {
    && (Raised(pool, r, fraction, k) <==> k in order && k in extra)
    && (k in order && k in extra ==> Remainder(fraction, pool, k) > 0.0)
    && (k !in order ==> Remainder(fraction, pool, k) == 0.0)
  }

  lemma DrawnFairly(pool: seq<Case>, order: seq<string>, strata: map<string, seq<nat>>, counts: map<string, int>,
                    chosen: set<nat>, extra: seq<string>, fraction: real, k: string)
    requires 0.0 <= fraction <= 1.0
    requires StrataUpTo(pool, |pool|, order, strata) && counts.Keys == strata.Keys
    requires Drawn(pool, order, counts, chosen)
    requires k in counts ==> SeatOf(fraction, pool, extra, k, counts[k])
    ensures FairShare(pool, Pick(pool, chosen, |pool|), fraction, k)
    ensures RaisedBySeat(pool, Pick(pool, chosen, |pool|), fraction, order, extra, k)
  {
    DrawnCount(pool, order, strata, counts, chosen, fraction, k);
    if k in order { ExtraIsRaised(pool, extra, fraction, k, counts[k]); }
  }

  lemma SeatsAhead(pool: seq<Case>, r: seq<Case>, fraction: real, order: seq<string>, extra: seq<string>)
    requires LargestFirst(fraction, pool, order, extra)
    requires forall k :: RaisedBySeat(pool, r, fraction, order, extra, k)
    ensures forall j, k :: Raised(pool, r, fraction, j) && !Raised(pool, r, fraction, k) ==> Ahead(fraction, pool, j, k)
  {
    forall j, k | Raised(pool, r, fraction, j) && !Raised(pool, r, fraction, k)
      ensures Ahead(fraction, pool, j, k)
    {
      assert RaisedBySeat(pool, r, fraction, order, extra, j) && RaisedBySeat(pool, r, fraction, order, extra, k);
    }
  }

  lemma {:induction false} FeatureCount(pool: seq<Case>, n: nat, k: string)
    requires n <= |pool|
    ensures Count(pool[..n], HasFeature(k)) == |Stratum(pool, n, k)|
  {
    if n > 0 {
      FeatureCount(pool, n - 1, k);
      assert pool[..n] == pool[..n - 1] + [pool[n - 1]];
      FilterAppend(pool[..n - 1], [pool[n - 1]], HasFeature(k));
    }
  }

  lemma WholePoolProportional(pool: seq<Case>, fraction: real)
    requires 0.0 <= fraction <= 1.0 && TargetSize(|pool|, fraction) == |pool|
    ensures Proportional(pool, pool, fraction)
  {
    TargetBounds(|pool|, fraction);
    assert pool[..|pool|] == pool;
    forall k
      ensures FairShare(pool, pool, fraction, k)
      ensures Raised(pool, pool, fraction, k) <==> Remainder(fraction, pool, k) > 0.0
      ensures Remainder(fraction, pool, k) >= 0.0
    {
      FeatureCount(pool, |pool|, k);
      SharesAreExact(fraction, pool, k);
      RoomForRemainder(fraction, pool, k);
      FilterLength(pool, HasFeature(k));
      NearWhole(fraction, Size(pool)(k), |pool|);
    }
  }

  /** When the whole pool is kept because its share rounds up to it, so does every part of it. */
  lemma NearWhole(fraction: real, s: nat, n: nat)
    requires 0.0 <= fraction <= 1.0 && s <= n && TargetSize(n, fraction) == n
    ensures s <= Ceil(Share(fraction, s))
  {
    TargetBounds(n, fraction);
    ShareBounds(fraction, s);
    if s > 0 && n > 1 { MissingShare(fraction, s, n); }
  }

  lemma MissingShare(fraction: real, s: nat, n: nat)
    requires 0.0 <= fraction <= 1.0 && s <= n
    ensures s as real - Share(fraction, s) <= n as real - Share(fraction, n)
  {
    assert (1.0 - fraction) * (n - s) as real >= 0.0;
    assert (n - s) as real == n as real - s as real;
  }

  lemma NothingProportional(pool: seq<Case>, fraction: real)
    requires 0.0 <= fraction <= 1.0 && TargetSize(|pool|, fraction) == 0 < |pool|
    ensures Proportional(pool, [], fraction)
  {
    TargetBounds(|pool|, fraction);
    assert fraction == 0.0;
    assert forall k :: ExactShare(fraction, pool, k) == 0.0;
  }

  // ---- The split ----

  predicate Held(c: Case) { c.holdout }
  predicate NotHeld(c: Case) { !c.holdout }

  /** `select_optimization_set`. */
  method SelectOptimizationSet(cases: seq<Case>, strategy: Strategy, fraction: real)
    returns (optimization: seq<Case>, holdout: seq<Case>)
    requires 0.0 <= fraction <= 1.0
    ensures holdout == Filter(cases, Held)
    ensures var pool := Filter(cases, NotHeld);
            && Subsequence(optimization, pool)
            && (forall c :: c in optimization ==> c in cases && !c.holdout)
            && |optimization| == (if strategy == Full then |pool| else TargetSize(|pool|, fraction))
            && (strategy == Stratified ==> Proportional(pool, optimization, fraction))
  {
    holdout := Filter(cases, Held);
    var pool := Filter(cases, NotHeld);
    match strategy {
      case Full =>
        optimization := pool;
        WholeIsSubsequence(pool);
      case RandomSubset => optimization := TakeRandom(pool, fraction);
      case Stratified => optimization := TakeStratified(pool, fraction);
    }
    SubsequenceLength(optimization, pool);
    forall c | c in optimization
      ensures c in cases && !c.holdout
    {
      FilterMember(cases, NotHeld, c);
    }
  }
}
