/**
 Which pairs a tournament compares (optimization/pairing.py,
 runner/pairwise_tournament.py). A hash shuffle is any permutation.
 */
module Pairing {
  import opened Sums
  import opened Ordering

  type Pair = (string, string)

  /** The order-free name of a pair. */
  function Canonical(a: string, b: string): Pair { if TextLess(a, b) then (a, b) else (b, a) }

  lemma CanonicalSymmetric(a: string, b: string)
    ensures Canonical(a, b) == Canonical(b, a)
    ensures a != b ==> TextLess(Canonical(a, b).0, Canonical(a, b).1)
  {
    TextTotal(a, b);
  }

  /** The round-robin over a set of candidates. */
  ghost predicate IsRoundRobin(candidates: seq<string>, pairs: seq<Pair>) {
    && Distinct(pairs)
    && forall p :: p in pairs <==> p.0 in candidates && p.1 in candidates && TextLess(p.0, p.1)
  }

  /** Indices of the pairs emitted before row i, column j. */
  predicate Before(x: int, y: int, i: int, j: int) { 0 <= x < y && (x < i || (x == i && y < j)) }

  ghost predicate Emitted(ordered: seq<string>, pairs: seq<Pair>, i: int, j: int) {
    && (forall x, y :: Before(x, y, i, j) && y < |ordered| ==> (ordered[x], ordered[y]) in pairs)
    && (forall p :: p in pairs ==> exists x, y :: Before(x, y, i, j) && y < |ordered| && p == (ordered[x], ordered[y]))
    && Distinct(pairs)
  }

  lemma NotEmitted(ordered: seq<string>, pairs: seq<Pair>, i: nat, j: nat)
    requires Distinct(ordered) && i < j < |ordered| && Emitted(ordered, pairs, i, j)
    ensures (ordered[i], ordered[j]) !in pairs
  {
    forall x, y | Before(x, y, i, j) && y < |ordered|
      ensures (ordered[x], ordered[y]) != (ordered[i], ordered[j])
    {
    }
  }

  lemma BeforeNext(x: int, y: int, i: int, j: int)
    requires 0 <= i < j
    ensures Before(x, y, i, j + 1) <==> Before(x, y, i, j) || (x == i && y == j)
  {
  }

  lemma EmitNext(ordered: seq<string>, pairs: seq<Pair>, i: nat, j: nat)
    requires Distinct(ordered) && i < j < |ordered| && Emitted(ordered, pairs, i, j)
    ensures Emitted(ordered, pairs + [(ordered[i], ordered[j])], i, j + 1)
  {
    var p := (ordered[i], ordered[j]);
    NotEmitted(ordered, pairs, i, j);
    BeforeNext(i, j, i, j);
    forall q | q in pairs + [p]
      ensures exists x, y :: Before(x, y, i, j + 1) && y < |ordered| && q == (ordered[x], ordered[y])
    {
      if q in pairs {
        var x, y :| Before(x, y, i, j) && y < |ordered| && q == (ordered[x], ordered[y]);
        BeforeNext(x, y, i, j);
      }
    }
    forall x, y | Before(x, y, i, j + 1) && y < |ordered|
      ensures (ordered[x], ordered[y]) in pairs + [p]
    {
      BeforeNext(x, y, i, j);
    }
  }

  lemma EmitRow(ordered: seq<string>, pairs: seq<Pair>, i: nat)
    requires Emitted(ordered, pairs, i, |ordered|)
    ensures Emitted(ordered, pairs, i + 1, i + 2)
  {
    forall q | q in pairs
      ensures exists x, y :: Before(x, y, i + 1, i + 2) && y < |ordered| && q == (ordered[x], ordered[y])
    {
      var x, y :| Before(x, y, i, |ordered|) && y < |ordered| && q == (ordered[x], ordered[y]);
      assert Before(x, y, i + 1, i + 2);
    }
    forall x, y | Before(x, y, i + 1, i + 2) && y < |ordered|
      ensures (ordered[x], ordered[y]) in pairs
    {
      assert Before(x, y, i, |ordered|);
    }
  }

  method EmitRowPairs(ordered: seq<string>, pairs: seq<Pair>, i: nat) returns (r: seq<Pair>)
    requires Distinct(ordered) && i < |ordered| && Emitted(ordered, pairs, i, i + 1)
    ensures Emitted(ordered, r, i + 1, i + 2)
    ensures |r| == |pairs| + |ordered| - i - 1
  {
    r := pairs;
    for j := i + 1 to |ordered|
      invariant Emitted(ordered, r, i, j)
      invariant |r| == |pairs| + j - i - 1
    {
      EmitNext(ordered, r, i, j);
      r := r + [(ordered[i], ordered[j])];
    }
    EmitRow(ordered, r, i);
  }

  lemma RowCount(n: nat, i: nat, before: nat)
    requires i < n && 2 * before == i * (2 * n - i - 1)
    ensures 2 * (before + n - i - 1) == (i + 1) * (2 * n - i - 2)
  {
  }

  /** `all_pairs`: every unordered pair once, n(n-1)/2 of them. */
  method AllPairs(candidates: seq<string>) returns (pairs: seq<Pair>)
    ensures IsRoundRobin(candidates, pairs)
    ensures 2 * |pairs| == |SortedSet(candidates)| * (|SortedSet(candidates)| - 1)
  {
    var ordered := SortedSet(candidates);
    SortedSetProps(candidates);
    var n := |ordered|;
    pairs := [];
    for i := 0 to n
      invariant Emitted(ordered, pairs, i, i + 1)
      invariant 2 * |pairs| == i * (2 * n - i - 1)
    {
      RowCount(n, i, |pairs|);
      pairs := EmitRowPairs(ordered, pairs, i);
    }
    AllEmitted(candidates, ordered, pairs);
  }

  lemma AllEmitted(candidates: seq<string>, ordered: seq<string>, pairs: seq<Pair>)
    requires ordered == SortedSet(candidates) && Emitted(ordered, pairs, |ordered|, |ordered| + 1)
    ensures IsRoundRobin(candidates, pairs)
  {
    SortedSetProps(candidates);
    forall p: Pair
      ensures p in pairs <==> p.0 in candidates && p.1 in candidates && TextLess(p.0, p.1)
    {
      if p in pairs {
        var x, y :| Before(x, y, |ordered|, |ordered| + 1) && y < |ordered| && p == (ordered[x], ordered[y]);
        assert ordered[x] in ordered && ordered[y] in ordered;
      }
      if p.0 in candidates && p.1 in candidates && TextLess(p.0, p.1) {
        assert p.0 in ordered && p.1 in ordered;
        var x :| 0 <= x < |ordered| && ordered[x] == p.0;
        var y :| 0 <= y < |ordered| && ordered[y] == p.1;
        TextTotal(p.0, p.1);
        assert x < y;
        assert Before(x, y, |ordered|, |ordered| + 1);
        assert p == (ordered[x], ordered[y]);
      }
    }
  }

  // ---- Sampled pairing ----

  /** The opponents of a candidate among the pairs. */
  function Opponents(pairs: seq<Pair>, c: string): set<string> {
    (set p | p in pairs && p.0 == c :: p.1) + (set p | p in pairs && p.1 == c :: p.0)
  }

  ghost predicate ProperPairs(pairs: seq<Pair>) { Distinct(pairs) && forall p :: p in pairs ==> TextLess(p.0, p.1) }

  /** A stable-hash shuffle: some permutation. */
  method Shuffle(items: seq<string>) returns (r: seq<string>)
    ensures Permutes(r, items)
  {
    r := items;
  }

  /** A candidate's canonical pair with one of its picks. */
  ghost predicate PickedIn(p: Pair, c: string, others: seq<string>) { exists o :: o in others && p == Canonical(c, o) }

  /** Candidate c's first k opponents, skipping pairs already seen. */
  method AddOpponents(c: string, others: seq<string>, pairs: seq<Pair>) returns (r: seq<Pair>)
    requires ProperPairs(pairs) && c !in others && Distinct(others)
    ensures ProperPairs(r) && |r| <= |pairs| + |others|
    ensures forall p :: p in r <==> p in pairs || PickedIn(p, c, others)
  {
    r := pairs;
    for i := 0 to |others|
      invariant ProperPairs(r) && |r| <= |pairs| + i
      invariant forall p :: p in r <==> p in pairs || PickedIn(p, c, others[..i])
    {
      var key := Canonical(c, others[i]);
      CanonicalSymmetric(c, others[i]);
      forall p { PickedNext(p, c, others, i); }
      if key !in r { r := r + [key]; }
    }
    assert others[..|others|] == others;
  }

  lemma PickedNext(p: Pair, c: string, others: seq<string>, i: nat)
    requires i < |others|
    ensures PickedIn(p, c, others[..i + 1]) <==> PickedIn(p, c, others[..i]) || p == Canonical(c, others[i])
  {
    assert others[..i + 1] == others[..i] + [others[i]];
    assert others[i] in others[..i + 1];
  }

  /** Everything but c. */
  function Without(ordered: seq<string>, c: string): seq<string> { Filter(ordered, Differs(c)) }
  function Differs(c: string): string -> bool { o => o != c }

  lemma WithoutProps(ordered: seq<string>, c: string)
    requires Distinct(ordered) && c in ordered
    ensures Distinct(Without(ordered, c)) && |Without(ordered, c)| == |ordered| - 1
    ensures forall o :: o in Without(ordered, c) <==> o in ordered && o != c
  {
    FilterDistinct(ordered, Differs(c));
    forall o { FilterMember(ordered, Differs(c), o); }
    ElementsSize(ordered);
    ElementsSize(Without(ordered, c));
    assert Elements(Without(ordered, c)) == Elements(ordered) - {c};
  }

  /** One candidate's picks: k of the others, whichever the shuffle puts first. */
  method PickOpponents(ordered: seq<string>, c: string, k: nat) returns (picks: seq<string>)
    requires Distinct(ordered) && c in ordered && k <= |ordered| - 1
    ensures |picks| == k && Distinct(picks) && forall o :: o in picks ==> o in ordered && o != c
    ensures k == |ordered| - 1 ==> forall o :: o in ordered && o != c ==> o in picks
  {
    WithoutProps(ordered, c);
    var others := Shuffle(Without(ordered, c));
    PermutesLength(others, Without(ordered, c));
    PermutesDistinct(Without(ordered, c), others);
    picks := others[..k];
    SameMembers(others, Without(ordered, c));
  }

  // ---- Picks and the pairs they make ----

  type Picks = map<string, seq<string>>

  /** Everyone in `picks` chose k different others. */
  ghost predicate Chosen(ordered: seq<string>, picks: Picks, k: nat) {
    forall c :: c in picks ==>
      && c in ordered && |picks[c]| == k && Distinct(picks[c]) && (forall o :: o in picks[c] ==> o in ordered && o != c)
      && (k == |ordered| - 1 ==> forall o :: o in ordered && o != c ==> o in picks[c])
  }

  /** The pairs are exactly those of somebody with one of its picks. */
  ghost predicate PairsOf(pairs: seq<Pair>, picks: Picks) {
    forall p :: p in pairs <==> exists c :: c in picks && PickedIn(p, c, picks[c])
  }

  lemma PairsGrow(pairs: seq<Pair>, picks: Picks, c: string, others: seq<string>, r: seq<Pair>)
    requires PairsOf(pairs, picks) && c !in picks
    requires forall p :: p in r <==> p in pairs || PickedIn(p, c, others)
    ensures PairsOf(r, picks[c := others])
  {
    var grown := picks[c := others];
    forall p
      ensures p in r <==> exists d :: d in grown && PickedIn(p, d, grown[d])
    {
      if p in pairs {
        var d :| d in picks && PickedIn(p, d, picks[d]);
        assert d in grown && PickedIn(p, d, grown[d]);
      }
      if PickedIn(p, c, others) { assert c in grown && PickedIn(p, c, grown[c]); }
      if d :| d in grown && PickedIn(p, d, grown[d]) { assert d != c ==> d in picks && PickedIn(p, d, picks[d]); }
    }
  }

  /** Who picked c without being picked by c. */
  function Surplus(picks: Picks, c: string): set<string>
    requires c in picks
  {
    set o | o in picks && c in picks[o] && o !in picks[c]
  }

  lemma PairEnds(p: Pair, a: string, b: string, c: string, o: string)
    requires p == Canonical(a, b) && (p == (c, o) || p == (o, c))
    ensures (a == c && b == o) || (a == o && b == c)
  {
  }

  lemma MetExactly(pairs: seq<Pair>, picks: Picks, c: string, o: string)
    requires PairsOf(pairs, picks) && c in picks && c !in picks[c]
    ensures o in Opponents(pairs, c) <==> o in picks[c] || (o in picks && c in picks[o])
  {
    if o in Opponents(pairs, c) {
      MetPair(pairs, c, o);
      var p := if (c, o) in pairs then (c, o) else (o, c);
      var a :| a in picks && PickedIn(p, a, picks[a]);
      var b :| b in picks[a] && p == Canonical(a, b);
      PairEnds(p, a, b, c, o);
    }
    if o in picks[c] {
      assert PickedIn(Canonical(c, o), c, picks[c]);
      assert Canonical(c, o) in pairs;
    }
    if o in picks && c in picks[o] {
      assert PickedIn(Canonical(o, c), o, picks[o]);
      assert Canonical(o, c) in pairs;
    }
  }

  /**
   A candidate meets its k picks and whoever picked it without being picked by it: exactly k
   opponents iff everyone who picks it is picked by it.
   */
  lemma OpponentsExactly(ordered: seq<string>, pairs: seq<Pair>, picks: Picks, k: nat, c: string)
    requires Chosen(ordered, picks, k) && PairsOf(pairs, picks) && c in picks
    ensures |Opponents(pairs, c)| == k + |Surplus(picks, c)|
    ensures |Opponents(pairs, c)| == k <==> forall o :: o in picks && c in picks[o] ==> o in picks[c]
  {
    var own, surplus := Elements(picks[c]), Surplus(picks, c);
    ElementsSize(picks[c]);
    forall o { MetExactly(pairs, picks, c, o); }
    assert Opponents(pairs, c) == own + surplus && own !! surplus;
    if forall o :: o in picks && c in picks[o] ==> o in picks[c] { assert surplus == {}; }
    if o :| o in picks && c in picks[o] && o !in picks[c] { assert o in surplus; }
  }

  /** Three candidates that pick one opponent each, two of them the same one, which then meets two. */
  lemma MeetsMoreThanBudget(pairs: seq<Pair>)
    requires PairsOf(pairs, map["a" := ["b"], "b" := ["a"], "c" := ["a"]])
    ensures Chosen(["a", "b", "c"], map["a" := ["b"], "b" := ["a"], "c" := ["a"]], 1)
    ensures |Opponents(pairs, "a")| == 2
  {
    var picks: Picks := map["a" := ["b"], "b" := ["a"], "c" := ["a"]];
    assert picks.Keys == {"a", "b", "c"};
    OpponentsExactly(["a", "b", "c"], pairs, picks, 1, "a");
    assert Surplus(picks, "a") == {"c"};
  }

  /** The state after the first i candidates have picked. */
  ghost predicate Sampled(ordered: seq<string>, pairs: seq<Pair>, picks: Picks, i: nat, k: nat)
    requires i <= |ordered|
  {
    && ProperPairs(pairs) && PairsOf(pairs, picks) && Chosen(ordered, picks, k)
    && picks.Keys == Elements(ordered[..i]) && |pairs| <= i * k
  }

  lemma SampledNext(ordered: seq<string>, pairs: seq<Pair>, picks: Picks, i: nat, k: nat, others: seq<string>,
                    r: seq<Pair>)
    requires Distinct(ordered) && i < |ordered| && Sampled(ordered, pairs, picks, i, k)
    requires |others| == k && Distinct(others) && forall o :: o in others ==> o in ordered && o != ordered[i]
    requires k == |ordered| - 1 ==> forall o :: o in ordered && o != ordered[i] ==> o in others
    requires ProperPairs(r) && |r| <= |pairs| + k
    requires forall p :: p in r <==> p in pairs || PickedIn(p, ordered[i], others)
    ensures Sampled(ordered, r, picks[ordered[i] := others], i + 1, k)
  {
    NotYet(ordered, i);
    PairsGrow(pairs, picks, ordered[i], others, r);
    OneMoreRow(i, k);
  }

  lemma NotYet(ordered: seq<string>, i: nat)
    requires Distinct(ordered) && i < |ordered|
    ensures ordered[i] !in Elements(ordered[..i])
    ensures Elements(ordered[..i + 1]) == Elements(ordered[..i]) + {ordered[i]}
  {
    assert ordered[..i + 1] == ordered[..i] + [ordered[i]];
  }

  lemma OneMoreRow(i: nat, k: nat)
    ensures (i + 1) * k == i * k + k
  {
  }

  /**
   `sampled`. With at least two candidates and a budget of at least one, everyone picks
   k = min(budget, n-1) others; the distinct canonical pairs of the picks are returned. A candidate
   meets k opponents and whoever else picked it, there are between n*k/2 and n*k pairs, and a full
   budget gives the round-robin.
   */
  method SamplePairs(candidates: seq<string>, budget: int) returns (pairs: seq<Pair>, ghost picks: Picks)
    ensures var n := |SortedSet(candidates)|;
            if n < 2 || budget < 1 then pairs == []
            else
              var k := if budget < n - 1 then budget else n - 1;
              && ProperPairs(pairs)
              && (forall c :: c in candidates ==> |Opponents(pairs, c)| >= k)
              && n * k <= 2 * |pairs| && |pairs| <= n * k
              && (k == n - 1 ==> IsRoundRobin(candidates, pairs))
    ensures var n := |SortedSet(candidates)|;
            n >= 2 && budget >= 1 ==>
              var k := if budget < n - 1 then budget else n - 1;
              && PairsOf(pairs, picks) && Chosen(SortedSet(candidates), picks, k)
              && (forall c :: c in candidates <==> c in picks)
              && (forall c :: c in picks ==> |Opponents(pairs, c)| == k + |Surplus(picks, c)|)
  {
    var ordered := SortedSet(candidates);
    SortedSetProps(candidates);
    var n := |ordered|;
    picks := map[];
    if n < 2 || budget < 1 { return [], picks; }
    var k := if budget < n - 1 then budget else n - 1;
    pairs := [];
    for i := 0 to n
      invariant Sampled(ordered, pairs, picks, i, k)
    {
      var others := PickOpponents(ordered, ordered[i], k);
      var r := AddOpponents(ordered[i], others, pairs);
      SampledNext(ordered, pairs, picks, i, k, others, r);
      pairs, picks := r, picks[ordered[i] := others];
    }
    SampledAll(candidates, ordered, pairs, picks, k);
  }

  lemma SampledAll(candidates: seq<string>, ordered: seq<string>, pairs: seq<Pair>, picks: Picks, k: nat)
    requires ordered == SortedSet(candidates) && Sampled(ordered, pairs, picks, |ordered|, k)
    ensures forall c :: c in candidates <==> c in picks
    ensures forall c :: c in picks ==> |Opponents(pairs, c)| == k + |Surplus(picks, c)|
    ensures |ordered| * k <= 2 * |pairs|
    ensures k == |ordered| - 1 ==> IsRoundRobin(candidates, pairs)
  {
    SortedSetProps(candidates);
    EveryonePicked(ordered, picks);
    AllMeet(ordered, pairs, picks, k);
    EnoughPairs(ordered, pairs, picks, k);
    if k == |ordered| - 1 { FullBudget(candidates, ordered, pairs, picks, k); }
  }

  lemma EveryonePicked(ordered: seq<string>, picks: Picks)
    requires picks.Keys == Elements(ordered[..|ordered|])
    ensures forall c :: c in picks <==> c in ordered
  {
    assert ordered[..|ordered|] == ordered;
    assert forall c :: c in picks <==> c in picks.Keys;
  }

  lemma AllMeet(ordered: seq<string>, pairs: seq<Pair>, picks: Picks, k: nat)
    requires PairsOf(pairs, picks) && Chosen(ordered, picks, k)
    ensures forall c :: c in picks ==> |Opponents(pairs, c)| == k + |Surplus(picks, c)|
  {
    forall c | c in picks
      ensures |Opponents(pairs, c)| == k + |Surplus(picks, c)|
    {
      OpponentsExactly(ordered, pairs, picks, k, c);
    }
  }

  lemma EnoughPairs(ordered: seq<string>, pairs: seq<Pair>, picks: Picks, k: nat)
    requires Distinct(ordered) && ProperPairs(pairs) && PairsOf(pairs, picks) && Chosen(ordered, picks, k)
    requires forall c :: c in ordered ==> c in picks
    ensures |ordered| * k <= 2 * |pairs|
  {
    AllMeet(ordered, pairs, picks, k);
    forall p | p in pairs { PairWithin(ordered, pairs, picks, k, p); }
    Handshake(ordered, pairs);
    DegreesAtLeast(ordered, pairs, k);
  }

  lemma PairWithin(ordered: seq<string>, pairs: seq<Pair>, picks: Picks, k: nat, p: Pair)
    requires Chosen(ordered, picks, k) && PairsOf(pairs, picks) && p in pairs
    ensures p.0 in ordered && p.1 in ordered
  {
    var c :| c in picks && PickedIn(p, c, picks[c]);
    var o :| o in picks[c] && p == Canonical(c, o);
  }

  lemma FullBudget(candidates: seq<string>, ordered: seq<string>, pairs: seq<Pair>, picks: Picks, k: nat)
    requires (forall x :: x in ordered <==> x in candidates) && (forall c :: c in candidates <==> c in picks)
    requires ProperPairs(pairs) && PairsOf(pairs, picks) && Chosen(ordered, picks, k) && k == |ordered| - 1
    ensures IsRoundRobin(candidates, pairs)
  {
    forall p: Pair
      ensures p in pairs <==> p.0 in candidates && p.1 in candidates && TextLess(p.0, p.1)
    {
      if p in pairs { PairWithin(ordered, pairs, picks, k, p); }
      if p.0 in candidates && p.1 in candidates && TextLess(p.0, p.1) {
        assert p.1 in picks[p.0] && p == Canonical(p.0, p.1);
        assert PickedIn(p, p.0, picks[p.0]);
      }
    }
  }

  // ---- Every pair has two ends ----

  function Degree(pairs: seq<Pair>): string -> int { c => |Opponents(pairs, c)| }

  lemma {:induction false} DegreesAtLeast(ordered: seq<string>, pairs: seq<Pair>, k: nat)
    requires forall c :: c in ordered ==> |Opponents(pairs, c)| >= k
    ensures SumInt(ordered, Degree(pairs)) >= |ordered| * k
  {
    if ordered != [] {
      DegreesAtLeast(ordered[1..], pairs, k);
      OneMoreRow(|ordered[1..]|, k);
    }
  }

  lemma LastIsNew(pairs: seq<Pair>, p: Pair)
    requires ProperPairs(pairs + [p])
    ensures ProperPairs(pairs) && p !in pairs && TextLess(p.0, p.1)
  {
    var all := pairs + [p];
    assert all[|pairs|] == p && p in all;
    assert forall i :: 0 <= i < |pairs| ==> all[i] == pairs[i];
    assert forall q :: q in pairs ==> q in all;
  }

  lemma OpponentsLast(pairs: seq<Pair>, p: Pair, c: string)
    requires TextLess(p.0, p.1)
    ensures Opponents(pairs + [p], c)
            == Opponents(pairs, c) + (if c == p.0 then {p.1} else if c == p.1 then {p.0} else {})
  {
    assert forall q :: q in pairs + [p] <==> q in pairs || q == p;
  }

  lemma DegreeStep(pairs: seq<Pair>, p: Pair, c: string)
    requires ProperPairs(pairs + [p])
    ensures Degree(pairs + [p])(c) == Degree(pairs)(c) + if c == p.0 || c == p.1 then 1 else 0
  {
    LastIsNew(pairs, p);
    OpponentsLast(pairs, p, c);
    NotBoth(p.0, p.1);
    if c == p.0 && p.1 in Opponents(pairs, c) { MetPair(pairs, c, p.1); }
    if c == p.1 && p.0 in Opponents(pairs, c) { MetPair(pairs, c, p.0); }
  }

  lemma MetPair(pairs: seq<Pair>, c: string, o: string)
    requires o in Opponents(pairs, c)
    ensures (c, o) in pairs || (o, c) in pairs
  {
    if p :| p in pairs && p.0 == c && p.1 == o {
      assert p == (c, o);
    } else {
      var p :| p in pairs && p.1 == c && p.0 == o;
      assert p == (o, c);
    }
  }

  lemma NotBoth(a: string, b: string)
    requires TextLess(a, b)
    ensures !TextLess(b, a)
  {
    TextTotal(a, b);
  }

  lemma {:induction false} SumBump(ordered: seq<string>, f: string -> int, g: string -> int, p: Pair)
    requires Distinct(ordered) && p.0 != p.1
    requires forall c :: c in ordered ==> g(c) == f(c) + if c == p.0 || c == p.1 then 1 else 0
    ensures SumInt(ordered, g) == SumInt(ordered, f)
               + (if p.0 in ordered then 1 else 0) + (if p.1 in ordered then 1 else 0)
  {
    if ordered != [] {
      SumBump(ordered[1..], f, g, p);
      assert forall c :: c in ordered <==> c == ordered[0] || c in ordered[1..];
    }
  }

  /** The degrees add up to twice the number of pairs. */
  lemma {:induction false} Handshake(ordered: seq<string>, pairs: seq<Pair>)
    requires Distinct(ordered) && ProperPairs(pairs)
    requires forall p :: p in pairs ==> p.0 in ordered && p.1 in ordered
    ensures SumInt(ordered, Degree(pairs)) == 2 * |pairs|
  {
    if pairs == [] {
      SumIntZero(ordered, Degree([]));
    } else {
      var rest, p := pairs[..|pairs| - 1], pairs[|pairs| - 1];
      assert pairs == rest + [p];
      assert forall q :: q in rest ==> q in pairs;
      Handshake(ordered, rest);
      forall c { DegreeStep(rest, p, c); }
      SumBump(ordered, Degree(rest), Degree(pairs), p);
    }
  }

  lemma {:induction false} SumIntZero<T>(s: seq<T>, f: T -> int)
    requires forall x :: x in s ==> f(x) == 0
    ensures SumInt(s, f) == 0
  {
    if s != [] { SumIntZero(s[1..], f); }
  }
}
