/**
 Swiss pairing (optimization/pairing.py) and the rounds of a Swiss tournament
 (runner/pairwise_tournament.py). Standings between rounds may be anything.
 */
module Swiss {
  import opened Sums
  import opened Ordering
  import opened Pairing

  type Standings = map<string, real>

  function Standing(standings: Standings, c: string): real { if c in standings then standings[c] else 0.0 }

  /** Higher standing first, then the candidate id. */
  function StandingLe(standings: Standings): (string, string) -> bool {
    (a, b) => var x, y := Standing(standings, a), Standing(standings, b); x > y || (x == y && TextLe(a, b))
  }

  /** Who is paired by `pairs`. */
  function Paired(pairs: seq<Pair>): set<string> { (set p | p in pairs :: p.0) + (set p | p in pairs :: p.1) }

  /** `a` and `b` stand at two places of the list; when they are the same, the list repeats it. */
  ghost predicate FromTwo(candidates: seq<string>, a: string, b: string) {
    multiset{a, b} <= multiset(candidates)
  }

  /** Pairs taken from two places of the list that have not met, no candidate in two pairs. */
  ghost predicate IsMatching(candidates: seq<string>, played: set<Pair>, pairs: seq<Pair>) {
    && (forall p :: p in pairs ==> FromTwo(candidates, p.0, p.1) && Canonical(p.0, p.1) !in played)
    && (forall i, j :: 0 <= i < j < |pairs| ==>
          && pairs[i].0 != pairs[j].0 && pairs[i].0 != pairs[j].1
          && pairs[i].1 != pairs[j].0 && pairs[i].1 != pairs[j].1)
  }

  /** Any two candidates left over have already met. */
  ghost predicate IsMaximal(candidates: seq<string>, played: set<Pair>, pairs: seq<Pair>) {
    forall a, b :: FromTwo(candidates, a, b) && a !in Paired(pairs) && b !in Paired(pairs) ==>
      Canonical(a, b) in played
  }

  lemma TwoPlaces(s: seq<string>, i: nat, j: nat)
    requires i < j < |s|
    ensures FromTwo(s, s[i], s[j]) && FromTwo(s, s[j], s[i])
  {
    assert s == s[..i] + [s[i]] + s[i + 1..j] + [s[j]] + s[j + 1..];
  }

  lemma PlacesOf(s: seq<string>, a: string, b: string) returns (i: nat, j: nat)
    requires FromTwo(s, a, b)
    ensures i < |s| && j < |s| && i != j && s[i] == a && s[j] == b
  {
    assert multiset{a, b}[a] >= 1 && multiset{a, b}[b] >= 1;
    assert a in multiset(s);
    i := Extract(s, a);
    var rest := s[..i] + s[i + 1..];
    assert multiset(rest)[b] >= 1;
    assert b in rest;
    var k :| 0 <= k < |rest| && rest[k] == b;
    j := if k < i then k else k + 1;
  }

  lemma DistinctPlaces(s: seq<string>, a: string, b: string)
    requires Distinct(s)
    ensures FromTwo(s, a, b) <==> a in s && b in s && a != b
  {
    if FromTwo(s, a, b) { var i, j := PlacesOf(s, a, b); }
    if a in s && b in s && a != b {
      var i :| 0 <= i < |s| && s[i] == a;
      var j :| 0 <= j < |s| && s[j] == b;
      if i < j { TwoPlaces(s, i, j); } else { TwoPlaces(s, j, i); }
    }
  }

  /** Of two paired candidates, everyone standing between them is paired too or has met the first. */
  ghost predicate IsNearest(ordered: seq<string>, played: set<Pair>, pairs: seq<Pair>) {
    forall x, y, z :: 0 <= x < z < y < |ordered| && (ordered[x], ordered[y]) in pairs ==>
      ordered[z] in Paired(pairs) || Canonical(ordered[x], ordered[z]) in played
  }

  /** Ordered candidates before i that are unpaired have met every later unpaired one. */
  ghost predicate SettledUpTo(ordered: seq<string>, played: set<Pair>, pairs: seq<Pair>, i: nat) {
    forall x, y :: 0 <= x < i && x < y < |ordered| && ordered[x] !in Paired(pairs) && ordered[y] !in Paired(pairs) ==>
      Canonical(ordered[x], ordered[y]) in played
  }

  /** Only candidates before i have been given an opponent, as the first of their pair. */
  ghost predicate RoundSoFar(ordered: seq<string>, played: set<Pair>, pairs: seq<Pair>, i: nat) {
    && IsMatching(ordered, played, pairs)
    && SettledUpTo(ordered, played, pairs, i)
    && IsNearest(ordered, played, pairs)
  }

  lemma PairedGrows(pairs: seq<Pair>, p: Pair)
    ensures Paired(pairs + [p]) == Paired(pairs) + {p.0, p.1}
  {
    assert forall q :: q in pairs + [p] <==> q in pairs || q == p;
  }

  lemma Unpaired(pairs: seq<Pair>, c: string)
    requires c !in Paired(pairs)
    ensures forall i :: 0 <= i < |pairs| ==> pairs[i].0 != c && pairs[i].1 != c
  {
    forall i | 0 <= i < |pairs|
      ensures pairs[i].0 != c && pairs[i].1 != c
    {
      assert pairs[i] in pairs;
    }
  }

  lemma MatchingGrows(ordered: seq<string>, played: set<Pair>, pairs: seq<Pair>, a: string, b: string)
    requires IsMatching(ordered, played, pairs) && FromTwo(ordered, a, b)
    requires a !in Paired(pairs) && b !in Paired(pairs) && Canonical(a, b) !in played
    ensures IsMatching(ordered, played, pairs + [(a, b)])
  {
    Unpaired(pairs, a);
    Unpaired(pairs, b);
  }

  /** Equal candidates stand together. */
  ghost predicate Clustered(ordered: seq<string>) {
    forall x, z, y :: 0 <= x < z < y < |ordered| && ordered[x] == ordered[y] ==> ordered[z] == ordered[x]
  }

  lemma SortClusters(candidates: seq<string>, standings: Standings)
    ensures Clustered(Sort(candidates, StandingLe(standings)))
  {
    var le := StandingLe(standings);
    TextIsTotalOrder();
    assert TotalOrder(le);
    SortSorted(candidates, le);
  }

  lemma NearestGrows(ordered: seq<string>, played: set<Pair>, pairs: seq<Pair>, i: nat, j: nat)
    requires Clustered(ordered) && i < j < |ordered| && IsNearest(ordered, played, pairs)
    requires ordered[i] !in Paired(pairs)
    requires forall z :: i < z < j ==> ordered[z] in Paired(pairs) || Canonical(ordered[i], ordered[z]) in played
    ensures IsNearest(ordered, played, pairs + [(ordered[i], ordered[j])])
  {
    var p := (ordered[i], ordered[j]);
    PairedGrows(pairs, p);
    forall x, y, z | 0 <= x < z < y < |ordered| && (ordered[x], ordered[y]) in pairs + [p]
      ensures ordered[z] in Paired(pairs + [p]) || Canonical(ordered[x], ordered[z]) in played
    {
      if (ordered[x], ordered[y]) != p {
        assert (ordered[x], ordered[y]) in pairs;
      } else if z <= i {
        assert x == i || z == i || ordered[z] == ordered[i];
      } else if j <= z {
        assert z == j || ordered[z] == ordered[j];
      }
    }
  }

  // ---- A round ----

  /** The first candidate from place j on that is free and has not met `a`, if there is one. */
  function FirstFree(ordered: seq<string>, played: set<Pair>, pairs: seq<Pair>, a: string, j: nat): (r: nat)
    requires j <= |ordered|
    ensures j <= r <= |ordered|
    ensures forall z :: j <= z < r ==> ordered[z] in Paired(pairs) || Canonical(a, ordered[z]) in played
    ensures r < |ordered| ==> ordered[r] !in Paired(pairs) && Canonical(a, ordered[r]) !in played
    decreases |ordered| - j
  {
    if j < |ordered| && (ordered[j] in Paired(pairs) || Canonical(a, ordered[j]) in played)
    then FirstFree(ordered, played, pairs, a, j + 1) else j
  }

  /** The candidate at place i gets its opponent, if it is free and there is one. */
  function PairedAt(ordered: seq<string>, played: set<Pair>, pairs: seq<Pair>, i: nat): seq<Pair>
    requires i < |ordered|
  {
    var j := FirstFree(ordered, played, pairs, ordered[i], i + 1);
    if ordered[i] in Paired(pairs) || j == |ordered| then pairs else pairs + [(ordered[i], ordered[j])]
  }

  /** The pairs of the first n places. */
  function PairsUpTo(ordered: seq<string>, played: set<Pair>, n: nat): seq<Pair>
    requires n <= |ordered|
  {
    if n == 0 then [] else PairedAt(ordered, played, PairsUpTo(ordered, played, n - 1), n - 1)
  }

  function RoundOf(candidates: seq<string>, standings: Standings, played: set<Pair>): seq<Pair> {
    var ordered := Sort(candidates, StandingLe(standings));
    PairsUpTo(ordered, played, |ordered|)
  }

  /** The first later candidate that is free and has not met `ordered[i]`, if there is one. */
  method FindOpponent(ordered: seq<string>, played: set<Pair>, ghost pairs: seq<Pair>, paired: set<string>, i: nat)
    returns (j: nat)
    requires i < |ordered| && paired == Paired(pairs)
    ensures i < j <= |ordered| && j == FirstFree(ordered, played, pairs, ordered[i], i + 1)
    ensures forall z :: i < z < j ==> ordered[z] in paired || Canonical(ordered[i], ordered[z]) in played
    ensures j < |ordered| ==> ordered[j] !in paired && Canonical(ordered[i], ordered[j]) !in played
  {
    j := i + 1;
    while j < |ordered| && (ordered[j] in paired || Canonical(ordered[i], ordered[j]) in played)
      invariant i < j <= |ordered|
      invariant FirstFree(ordered, played, pairs, ordered[i], i + 1) == FirstFree(ordered, played, pairs, ordered[i], j)
    {
      j := j + 1;
    }
  }

  lemma PairNext(ordered: seq<string>, played: set<Pair>, pairs: seq<Pair>, i: nat, j: nat)
    requires Clustered(ordered) && i < j < |ordered| && RoundSoFar(ordered, played, pairs, i)
    requires ordered[i] !in Paired(pairs) && ordered[j] !in Paired(pairs)
    requires Canonical(ordered[i], ordered[j]) !in played
    requires forall z :: i < z < j ==> ordered[z] in Paired(pairs) || Canonical(ordered[i], ordered[z]) in played
    ensures RoundSoFar(ordered, played, pairs + [(ordered[i], ordered[j])], i + 1)
  {
    TwoPlaces(ordered, i, j);
    MatchingGrows(ordered, played, pairs, ordered[i], ordered[j]);
    NearestGrows(ordered, played, pairs, i, j);
    PairedGrows(pairs, (ordered[i], ordered[j]));
    SettledNext(ordered, played, pairs, pairs + [(ordered[i], ordered[j])], i);
  }

  lemma SettledNext(ordered: seq<string>, played: set<Pair>, pairs: seq<Pair>, r: seq<Pair>, i: nat)
    requires i < |ordered| && SettledUpTo(ordered, played, pairs, i) && Paired(pairs) <= Paired(r)
    requires ordered[i] !in Paired(r) ==>
               forall z :: i < z < |ordered| ==> ordered[z] in Paired(r) || Canonical(ordered[i], ordered[z]) in played
    ensures SettledUpTo(ordered, played, r, i + 1)
  {
  }

  lemma PairedAtKeeps(ordered: seq<string>, played: set<Pair>, pairs: seq<Pair>, i: nat)
    requires Clustered(ordered) && i < |ordered| && RoundSoFar(ordered, played, pairs, i)
    ensures RoundSoFar(ordered, played, PairedAt(ordered, played, pairs, i), i + 1)
  {
    var j := FirstFree(ordered, played, pairs, ordered[i], i + 1);
    if ordered[i] in Paired(pairs) || j == |ordered| {
      SettledNext(ordered, played, pairs, pairs, i);
    } else {
      PairNext(ordered, played, pairs, i, j);
    }
  }

  lemma PairsNext(ordered: seq<string>, played: set<Pair>, m: nat, n: nat)
    requires n == m + 1 <= |ordered|
    ensures PairsUpTo(ordered, played, n) == PairedAt(ordered, played, PairsUpTo(ordered, played, m), m)
  {
  }

  lemma {:induction false} RoundKeeps(ordered: seq<string>, played: set<Pair>, n: nat)
    requires Clustered(ordered) && n <= |ordered|
    ensures RoundSoFar(ordered, played, PairsUpTo(ordered, played, n), n)
  {
    if n == 0 {
    } else {
      var m: nat := n - 1;
      RoundKeeps(ordered, played, m);
      PairedAtKeeps(ordered, played, PairsUpTo(ordered, played, m), m);
      PairsNext(ordered, played, m, n);
    }
  }

  /** What a round is, for any list, standings and pairs already played. */
  lemma RoundFits(candidates: seq<string>, standings: Standings, played: set<Pair>)
    ensures var pairs := RoundOf(candidates, standings, played);
            && IsMatching(candidates, played, pairs)
            && IsMaximal(candidates, played, pairs)
            && IsNearest(Sort(candidates, StandingLe(standings)), played, pairs)
  {
    var ordered := Sort(candidates, StandingLe(standings));
    SortPermutes(candidates, StandingLe(standings));
    SortClusters(candidates, standings);
    RoundKeeps(ordered, played, |ordered|);
    RoundIsMaximal(candidates, ordered, played, RoundOf(candidates, standings, played));
  }

  /** `next_swiss_round`. */
  method NextRound(candidates: seq<string>, standings: Standings, played: set<Pair>) returns (pairs: seq<Pair>)
    ensures pairs == RoundOf(candidates, standings, played)
    ensures IsMatching(candidates, played, pairs)
    ensures IsMaximal(candidates, played, pairs)
    ensures IsNearest(Sort(candidates, StandingLe(standings)), played, pairs)
  {
    var ordered := Sort(candidates, StandingLe(standings));
    var paired: set<string> := {};
    pairs := [];
    for i := 0 to |ordered|
      invariant pairs == PairsUpTo(ordered, played, i) && paired == Paired(pairs)
    {
      if ordered[i] !in paired {
        var j := FindOpponent(ordered, played, pairs, paired, i);
        if j < |ordered| {
          PairedGrows(pairs, (ordered[i], ordered[j]));
          pairs := pairs + [(ordered[i], ordered[j])];
          paired := paired + {ordered[i], ordered[j]};
        }
      }
    }
    RoundFits(candidates, standings, played);
  }

  lemma RoundIsMaximal(candidates: seq<string>, ordered: seq<string>, played: set<Pair>, pairs: seq<Pair>)
    requires Permutes(ordered, candidates) && RoundSoFar(ordered, played, pairs, |ordered|)
    ensures IsMatching(candidates, played, pairs) && IsMaximal(candidates, played, pairs)
  {
    forall a, b | FromTwo(candidates, a, b) && a !in Paired(pairs) && b !in Paired(pairs)
      ensures Canonical(a, b) in played
    {
      var x, y := PlacesOf(ordered, a, b);
      CanonicalSymmetric(a, b);
      if x < y {
        assert Canonical(ordered[x], ordered[y]) in played;
      } else {
        assert Canonical(ordered[y], ordered[x]) in played;
      }
    }
  }

  // ---- By standing ----

  /** Who stands ahead of whom: the higher score, a candidate without one counting 0, then the smaller id. */
  ghost predicate Ahead(standings: Standings, a: string, b: string) {
    var x := if a in standings then standings[a] else 0.0;
    var y := if b in standings then standings[b] else 0.0;
    x > y || (x == y && TextLess(a, b))
  }

  /** Pair k was made at places x and y: whoever stands between them was paired before, or has met the first. */
  ghost predicate MadeAt(ordered: seq<string>, played: set<Pair>, pairs: seq<Pair>, k: nat, x: nat, y: nat)
    requires k < |pairs|
  {
    && x < y < |ordered| && pairs[k] == (ordered[x], ordered[y])
    && (forall j :: 0 <= j < k ==> pairs[j].0 in ordered[..x])
    && (forall z :: x < z < y ==> ordered[z] in Paired(pairs[..k]) || Canonical(ordered[x], ordered[z]) in played)
  }

  ghost predicate MadeBefore(ordered: seq<string>, played: set<Pair>, pairs: seq<Pair>, k: nat, i: nat)
    requires k < |pairs|
  {
    exists x: nat, y: nat :: x < i && MadeAt(ordered, played, pairs, k, x, y)
  }

  ghost predicate AllMade(ordered: seq<string>, played: set<Pair>, pairs: seq<Pair>, i: nat) {
    forall k :: 0 <= k < |pairs| ==> MadeBefore(ordered, played, pairs, k, i)
  }

  lemma StillMade(ordered: seq<string>, played: set<Pair>, pairs: seq<Pair>, p: Pair, k: nat, i: nat)
    requires k < |pairs| && MadeBefore(ordered, played, pairs, k, i)
    ensures MadeBefore(ordered, played, pairs + [p], k, i + 1)
  {
    var x: nat, y: nat :| x < i && MadeAt(ordered, played, pairs, k, x, y);
    assert (pairs + [p])[..k] == pairs[..k];
    assert MadeAt(ordered, played, pairs + [p], k, x, y);
  }

  lemma MadeEarlier(ordered: seq<string>, played: set<Pair>, pairs: seq<Pair>, k: nat, i: nat)
    requires k < |pairs| && MadeBefore(ordered, played, pairs, k, i)
    ensures MadeBefore(ordered, played, pairs, k, i + 1)
  {
    var x: nat, y: nat :| x < i && MadeAt(ordered, played, pairs, k, x, y);
    assert MadeAt(ordered, played, pairs, k, x, y);
  }

  lemma MadeNext(ordered: seq<string>, played: set<Pair>, pairs: seq<Pair>, i: nat)
    requires i < |ordered| && AllMade(ordered, played, pairs, i)
    ensures AllMade(ordered, played, PairedAt(ordered, played, pairs, i), i + 1)
  {
    var n := i + 1;
    var j := FirstFree(ordered, played, pairs, ordered[i], i + 1);
    if ordered[i] in Paired(pairs) || j == |ordered| {
      forall k | 0 <= k < |pairs|
        ensures MadeBefore(ordered, played, pairs, k, n)
      {
        MadeEarlier(ordered, played, pairs, k, i);
      }
    } else {
      var p := (ordered[i], ordered[j]);
      var grown := pairs + [p];
      forall k | 0 <= k < |grown|
        ensures MadeBefore(ordered, played, grown, k, n)
      {
        if k < |pairs| { StillMade(ordered, played, pairs, p, k, i); }
        else { LastMade(ordered, played, pairs, grown, i, j); }
      }
    }
  }

  lemma LastMade(ordered: seq<string>, played: set<Pair>, pairs: seq<Pair>, grown: seq<Pair>, i: nat, j: nat)
    requires i < j < |ordered| && grown == pairs + [(ordered[i], ordered[j])] && AllMade(ordered, played, pairs, i)
    requires forall z :: i < z < j ==> ordered[z] in Paired(pairs) || Canonical(ordered[i], ordered[z]) in played
    ensures MadeBefore(ordered, played, grown, |pairs|, i + 1)
  {
    assert grown[..|pairs|] == pairs;
    forall k | 0 <= k < |pairs|
      ensures grown[k].0 in ordered[..i]
    {
      assert MadeBefore(ordered, played, pairs, k, i);
      var x: nat, y: nat :| x < i && MadeAt(ordered, played, pairs, k, x, y);
      assert grown[k].0 == ordered[..i][x];
    }
    assert MadeAt(ordered, played, grown, |pairs|, i, j);
  }

  lemma {:induction false} RoundIsMade(ordered: seq<string>, played: set<Pair>, n: nat)
    requires n <= |ordered|
    ensures AllMade(ordered, played, PairsUpTo(ordered, played, n), n)
  {
    if n > 0 {
      RoundIsMade(ordered, played, n - 1);
      MadeNext(ordered, played, PairsUpTo(ordered, played, n - 1), n - 1);
    }
  }

  /** Places in the ordered list follow the standing. */
  ghost predicate ByStanding(ordered: seq<string>, standings: Standings) {
    forall i, j :: 0 <= i < j < |ordered| ==> ordered[i] == ordered[j] || Ahead(standings, ordered[i], ordered[j])
  }

  lemma LeIsAhead(standings: Standings, a: string, b: string)
    requires StandingLe(standings)(a, b)
    ensures a == b || Ahead(standings, a, b)
  {
    var x, y := Standing(standings, a), Standing(standings, b);
    assert x > y || (x == y && TextLe(a, b));
  }

  lemma SortedByStanding(candidates: seq<string>, standings: Standings)
    ensures ByStanding(Sort(candidates, StandingLe(standings)), standings)
  {
    var le := StandingLe(standings);
    TextIsTotalOrder();
    assert TotalOrder(le);
    SortSorted(candidates, le);
    var ordered := Sort(candidates, le);
    forall i, j | 0 <= i < j < |ordered|
      ensures ordered[i] == ordered[j] || Ahead(standings, ordered[i], ordered[j])
    {
      assert le(ordered[i], ordered[j]);
      LeIsAhead(standings, ordered[i], ordered[j]);
    }
  }

  lemma AheadIsStrict(standings: Standings, a: string, b: string)
    ensures !(Ahead(standings, a, b) && Ahead(standings, b, a)) && !Ahead(standings, a, a)
  {
    TextTotal(a, b);
  }

  /** Pair k of a round: its first stands ahead of its second, and takes the nearest it may. */
  ghost predicate TakesNearest(candidates: seq<string>, standings: Standings, played: set<Pair>, pairs: seq<Pair>,
                               k: nat)
    requires k < |pairs|
  {
    var a, b := pairs[k].0, pairs[k].1;
    && (a == b || Ahead(standings, a, b))
    && (forall j :: 0 <= j < k ==> pairs[j].0 == a || Ahead(standings, pairs[j].0, a))
    && (forall c :: c in candidates && Ahead(standings, a, c) && Ahead(standings, c, b) ==>
          c in Paired(pairs[..k]) || Canonical(a, c) in played)
  }

  lemma PlacesFollow(ordered: seq<string>, standings: Standings, x: nat, z: nat)
    requires ByStanding(ordered, standings) && x < |ordered| && z < |ordered|
    requires Ahead(standings, ordered[x], ordered[z])
    ensures x < z
  {
    AheadIsStrict(standings, ordered[x], ordered[z]);
  }

  lemma Between(ordered: seq<string>, standings: Standings, x: nat, y: nat, c: string)
    requires ByStanding(ordered, standings) && x < |ordered| && y < |ordered| && c in ordered
    requires Ahead(standings, ordered[x], c) && Ahead(standings, c, ordered[y])
    ensures exists z :: x < z < y && ordered[z] == c
  {
    var z :| 0 <= z < |ordered| && ordered[z] == c;
    PlacesFollow(ordered, standings, x, z);
    PlacesFollow(ordered, standings, z, y);
  }

  lemma MadeTakesNearest(candidates: seq<string>, ordered: seq<string>, standings: Standings, played: set<Pair>,
                         pairs: seq<Pair>, k: nat)
    requires k < |pairs| && MadeBefore(ordered, played, pairs, k, |ordered|)
    requires ByStanding(ordered, standings) && forall c :: c in candidates ==> c in ordered
    ensures TakesNearest(candidates, standings, played, pairs, k)
  {
    var x: nat, y: nat :| x < |ordered| && MadeAt(ordered, played, pairs, k, x, y);
    forall j | 0 <= j < k
      ensures pairs[j].0 == ordered[x] || Ahead(standings, pairs[j].0, ordered[x])
    {
      assert pairs[j].0 in ordered[..x];
      var w :| 0 <= w < x && ordered[..x][w] == pairs[j].0;
      assert ordered[w] == pairs[j].0;
    }
    forall c | c in candidates && Ahead(standings, ordered[x], c) && Ahead(standings, c, ordered[y])
      ensures c in Paired(pairs[..k]) || Canonical(ordered[x], c) in played
    {
      Between(ordered, standings, x, y, c);
    }
  }

  /** Every pair of a round is made in order of standing, with the nearest candidate left that it has not met. */
  lemma RoundByStanding(candidates: seq<string>, standings: Standings, played: set<Pair>)
    ensures var pairs := RoundOf(candidates, standings, played);
            forall k :: 0 <= k < |pairs| ==> TakesNearest(candidates, standings, played, pairs, k)
  {
    var ordered, pairs := Sort(candidates, StandingLe(standings)), RoundOf(candidates, standings, played);
    SortedByStanding(candidates, standings);
    RoundIsMade(ordered, played, |ordered|);
    SortPermutes(candidates, StandingLe(standings));
    SameMembers(ordered, candidates);
    forall k | 0 <= k < |pairs|
      ensures TakesNearest(candidates, standings, played, pairs, k)
    {
      MadeTakesNearest(candidates, ordered, standings, played, pairs, k);
    }
  }

  // ---- Repeated candidates ----

  /** Someone else takes `c`, or `c` is paired with itself. */
  ghost predicate TakenOrSelf(pairs: seq<Pair>, c: string) { (c, c) in pairs || Taken(pairs, c) }

  ghost predicate Taken(pairs: seq<Pair>, c: string) { exists p :: p in pairs && p.0 != c && p.1 == c }

  ghost predicate Repeated(candidates: seq<string>, played: set<Pair>, c: string) {
    FromTwo(candidates, c, c) && (c, c) !in played
  }

  ghost predicate RepeatsSettled(ordered: seq<string>, played: set<Pair>, pairs: seq<Pair>) {
    forall c :: Repeated(ordered, played, c) && c in Paired(pairs) ==> TakenOrSelf(pairs, c)
  }

  /** A repeated candidate that is still free when its turn comes is at its first place, with a copy next. */
  lemma CopyNext(ordered: seq<string>, played: set<Pair>, pairs: seq<Pair>, i: nat)
    requires Clustered(ordered) && i < |ordered| && RoundSoFar(ordered, played, pairs, i)
    requires ordered[i] !in Paired(pairs) && Repeated(ordered, played, ordered[i])
    ensures i + 1 < |ordered| && ordered[i + 1] == ordered[i]
    ensures FirstFree(ordered, played, pairs, ordered[i], i + 1) == i + 1
  {
    var c := ordered[i];
    var x, y := PlacesOf(ordered, c, c);
    FirstPlace(ordered, played, pairs, i, x);
    FirstPlace(ordered, played, pairs, i, y);
    var later: nat := if x > y then x else y;
    assert later == i + 1 || ordered[i + 1] == ordered[i];
    assert Canonical(c, c) == (c, c);
  }

  lemma FirstPlace(ordered: seq<string>, played: set<Pair>, pairs: seq<Pair>, i: nat, x: nat)
    requires i < |ordered| && x < |ordered| && ordered[x] == ordered[i] && SettledUpTo(ordered, played, pairs, i)
    requires ordered[i] !in Paired(pairs) && (ordered[i], ordered[i]) !in played
    ensures i <= x
  {
    assert Canonical(ordered[x], ordered[i]) == (ordered[i], ordered[i]);
  }

  lemma TakenGrows(pairs: seq<Pair>, p: Pair, c: string)
    ensures TakenOrSelf(pairs, c) ==> TakenOrSelf(pairs + [p], c)
    ensures p.1 == c ==> TakenOrSelf(pairs + [p], c)
  {
    var r := pairs + [p];
    assert p == r[|pairs|];
    assert forall q :: q in pairs ==> q in r;
  }

  lemma RepeatsNext(ordered: seq<string>, played: set<Pair>, pairs: seq<Pair>, i: nat)
    requires Clustered(ordered) && i < |ordered| && RoundSoFar(ordered, played, pairs, i)
    requires RepeatsSettled(ordered, played, pairs)
    ensures RepeatsSettled(ordered, played, PairedAt(ordered, played, pairs, i))
  {
    var j := FirstFree(ordered, played, pairs, ordered[i], i + 1);
    if !(ordered[i] in Paired(pairs) || j == |ordered|) {
      var p := (ordered[i], ordered[j]);
      PairedGrows(pairs, p);
      forall c | Repeated(ordered, played, c) && c in Paired(pairs + [p])
        ensures TakenOrSelf(pairs + [p], c)
      {
        TakenGrows(pairs, p, c);
        if c !in Paired(pairs) && c == ordered[i] { CopyNext(ordered, played, pairs, i); }
      }
    }
  }

  lemma {:induction false} RepeatsKeep(ordered: seq<string>, played: set<Pair>, n: nat)
    requires Clustered(ordered) && n <= |ordered|
    ensures RepeatsSettled(ordered, played, PairsUpTo(ordered, played, n))
  {
    if n == 0 {
    } else {
      var m: nat := n - 1;
      RepeatsKeep(ordered, played, m);
      RoundKeeps(ordered, played, m);
      RepeatsNext(ordered, played, PairsUpTo(ordered, played, m), m);
      PairsNext(ordered, played, m, n);
    }
  }

  lemma NotTaken(candidates: seq<string>, played: set<Pair>, pairs: seq<Pair>, c: string)
    requires IsMatching(candidates, played, pairs) && (c, c) in pairs
    ensures !Taken(pairs, c)
  {
    forall p | p in pairs && p.1 == c
      ensures p.0 == c
    {
      var i :| 0 <= i < |pairs| && pairs[i] == p;
      var j :| 0 <= j < |pairs| && pairs[j] == (c, c);
      assert i == j;
    }
  }

  /**
   Under given standings a round pairs a candidate with itself exactly when the list repeats it, it
   has not met itself before, and nobody who stands before it takes it.
   */
  lemma SelfPairInRound(candidates: seq<string>, standings: Standings, played: set<Pair>, c: string)
    ensures var pairs := RoundOf(candidates, standings, played);
            (c, c) in pairs <==> Repeated(candidates, played, c) && !Taken(pairs, c)
  {
    var ordered, pairs := Sort(candidates, StandingLe(standings)), RoundOf(candidates, standings, played);
    RoundFits(candidates, standings, played);
    assert Canonical(c, c) == (c, c);
    if (c, c) in pairs {
      NotTaken(candidates, played, pairs, c);
    } else if Repeated(candidates, played, c) {
      assert c in Paired(pairs);
      SortPermutes(candidates, StandingLe(standings));
      SortClusters(candidates, standings);
      RepeatsKeep(ordered, played, |ordered|);
    }
  }

  /** Standings that put one candidate before all others. */
  function Leading(c: string): Standings { map[c := 1.0] }

  lemma CopiesLead(candidates: seq<string>, c: string)
    requires FromTwo(candidates, c, c)
    ensures var ordered := Sort(candidates, StandingLe(Leading(c)));
            |ordered| >= 2 && ordered[0] == c && ordered[1] == c
  {
    var le := StandingLe(Leading(c));
    var ordered := Sort(candidates, le);
    SortPermutes(candidates, le);
    TextIsTotalOrder();
    assert TotalOrder(le);
    SortSorted(candidates, le);
    var x, y := PlacesOf(ordered, c, c);
    var later: nat := if x > y then x else y;
    LeaderIs(c, ordered[0]);
    LeaderIs(c, ordered[1]);
    assert later == 1 || le(ordered[1], ordered[later]);
    assert later == 0 || le(ordered[0], ordered[later]);
  }

  lemma LeaderIs(c: string, d: string)
    ensures StandingLe(Leading(c))(d, c) ==> d == c
  {
    assert Standing(Leading(c), c) == 1.0 && (d != c ==> Standing(Leading(c), d) == 0.0);
  }

  lemma PairedAtGrows(ordered: seq<string>, played: set<Pair>, m: nat, n: nat)
    requires n == m + 1 <= |ordered|
    ensures PairsUpTo(ordered, played, m) <= PairsUpTo(ordered, played, n)
  {
    PairsNext(ordered, played, m, n);
  }

  lemma {:induction false} PrefixChain<T>(f: nat -> seq<T>, m: nat, n: nat)
    requires m <= n && forall i, j :: m <= i < n && j == i + 1 ==> f(i) <= f(j)
    ensures f(m) <= f(n)
  {
    if m < n {
      PrefixChain(f, m, n - 1);
      assert f(n - 1) <= f(n);
    }
  }

  lemma PairsStay(ordered: seq<string>, played: set<Pair>, m: nat, n: nat)
    requires m <= n <= |ordered|
    ensures PairsUpTo(ordered, played, m) <= PairsUpTo(ordered, played, n)
  {
    var f := (i: nat) => if i <= |ordered| then PairsUpTo(ordered, played, i) else [];
    forall i: nat, j: nat | m <= i < n && j == i + 1
      ensures f(i) <= f(j)
    {
      PairedAtGrows(ordered, played, i, j);
    }
    PrefixChain(f, m, n);
  }

  lemma LeaderMeetsItself(candidates: seq<string>, played: set<Pair>, c: string)
    requires Repeated(candidates, played, c)
    ensures (c, c) in RoundOf(candidates, Leading(c), played)
  {
    var ordered := Sort(candidates, StandingLe(Leading(c)));
    CopiesLead(candidates, c);
    assert Paired([]) == {};
    assert FirstFree(ordered, played, [], c, 1) == 1;
    PairsNext(ordered, played, 0, 1);
    var first := PairsUpTo(ordered, played, 1);
    assert first == [(c, c)];
    PairsStay(ordered, played, 1, |ordered|);
    assert RoundOf(candidates, Leading(c), played)[0] == first[0];
  }

  /** Some standings make a round pair a candidate with itself iff the list repeats it and it has not met itself. */
  lemma SelfPairExactly(candidates: seq<string>, played: set<Pair>, c: string)
    ensures (exists standings :: (c, c) in RoundOf(candidates, standings, played))
            <==> FromTwo(candidates, c, c) && (c, c) !in played
  {
    if Repeated(candidates, played, c) { LeaderMeetsItself(candidates, played, c); }
    if standings :| (c, c) in RoundOf(candidates, standings, played) {
      SelfPairInRound(candidates, standings, played, c);
    }
  }

  /** So no standings pair anyone with itself exactly when every repeated candidate has met itself. */
  lemma NoSelfPairExactly(candidates: seq<string>, played: set<Pair>)
    ensures (forall standings, c :: (c, c) !in RoundOf(candidates, standings, played))
            <==> forall c :: FromTwo(candidates, c, c) ==> (c, c) in played
  {
    if c :| FromTwo(candidates, c, c) && (c, c) !in played {
      LeaderMeetsItself(candidates, played, c);
    }
    if standings, c :| (c, c) in RoundOf(candidates, standings, played) {
      SelfPairInRound(candidates, standings, played, c);
    }
  }

  /** A list of one candidate twice. */
  lemma MeetsItself()
    ensures ("a", "a") in RoundOf(["a", "a"], map[], {})
  {
    var pairs := RoundOf(["a", "a"], map[], {});
    RoundFits(["a", "a"], map[], {});
    forall p | p in pairs
      ensures p.0 == "a"
    {
      assert FromTwo(["a", "a"], p.0, p.1);
      assert p.0 in multiset{p.0, p.1};
    }
    SelfPairInRound(["a", "a"], map[], {}, "a");
  }

  // ---- The rounds of a tournament ----

  function Keys(pairs: seq<Pair>): seq<Pair> {
    if pairs == [] then [] else [Canonical(pairs[0].0, pairs[0].1)] + Keys(pairs[1..])
  }

  lemma {:induction false} KeysAt(pairs: seq<Pair>)
    ensures |Keys(pairs)| == |pairs|
    ensures forall i :: 0 <= i < |pairs| ==> Keys(pairs)[i] == Canonical(pairs[i].0, pairs[i].1)
  {
    if pairs != [] { KeysAt(pairs[1..]); }
  }

  lemma KeyIsNew(candidates: seq<string>, played: set<Pair>, p: Pair)
    requires FromTwo(candidates, p.0, p.1) && Canonical(p.0, p.1) !in played
    ensures NewKey(candidates, played, Canonical(p.0, p.1))
  {
    assert multiset{p.1, p.0} == multiset{p.0, p.1};
    if Distinct(candidates) {
      DistinctPlaces(candidates, p.0, p.1);
      CanonicalSymmetric(p.0, p.1);
    }
  }

  /** An unplayed pair of two places, and of two different candidates unless the list repeats one. */
  ghost predicate NewKey(candidates: seq<string>, played: set<Pair>, k: Pair) {
    && k !in played && FromTwo(candidates, k.0, k.1)
    && (Distinct(candidates) ==> k.0 in candidates && k.1 in candidates && TextLess(k.0, k.1))
  }

  /** The canonical pairs of a round are new and different from each other. */
  lemma RoundKeysNew(candidates: seq<string>, played: set<Pair>, pairs: seq<Pair>)
    requires IsMatching(candidates, played, pairs)
    ensures Distinct(Keys(pairs))
    ensures forall k :: k in Keys(pairs) ==> NewKey(candidates, played, k)
  {
    KeysAt(pairs);
    forall i | 0 <= i < |pairs|
      ensures NewKey(candidates, played, Keys(pairs)[i])
    {
      assert pairs[i] in pairs;
      KeyIsNew(candidates, played, pairs[i]);
    }
    forall i, j | 0 <= i < j < |pairs|
      ensures Keys(pairs)[i] != Keys(pairs)[j]
    {
      assert pairs[i].0 != pairs[j].0 && pairs[i].0 != pairs[j].1;
    }
  }

  ghost predicate PlayedSoFar(ids: seq<string>, played: set<Pair>, history: seq<Pair>) {
    && Distinct(history)
    && (forall k :: k in history ==> k.0 in ids && k.1 in ids && TextLess(k.0, k.1))
    && played == set k | k in history
  }

  lemma HistoryGrows(ids: seq<string>, played: set<Pair>, history: seq<Pair>, pairs: seq<Pair>)
    requires Distinct(ids) && PlayedSoFar(ids, played, history) && IsMatching(ids, played, pairs)
    ensures PlayedSoFar(ids, played + (set k | k in Keys(pairs)), history + Keys(pairs))
  {
    RoundKeysNew(ids, played, pairs);
    var h := history + Keys(pairs);
    forall i, j | 0 <= i < j < |h|
      ensures h[i] != h[j]
    {
      if i < |history| <= j {
        assert h[i] in history && h[j] in Keys(pairs);
      }
    }
  }

  /**
   The rounds of `_run_swiss`: no pair is ever repeated, and at most n(n-1)/2 are played. When
   the rounds end before the limit, every pair has been played.
   */
  method RunRounds(ids: seq<string>, rounds: nat, standingsAt: nat -> Standings)
    returns (history: seq<Pair>, ghost exhausted: bool)
    requires Distinct(ids)
    ensures Distinct(history)
    ensures forall k :: k in history ==> k.0 in ids && k.1 in ids && TextLess(k.0, k.1)
    ensures 2 * |history| <= |ids| * (|ids| - 1)
    ensures exhausted ==> IsRoundRobin(ids, history)
    ensures !exhausted ==> 2 * rounds <= 2 * |history|
  {
    var played: set<Pair> := {};
    history, exhausted := [], false;
    var r, done := 0, false;
    while r < rounds && !done
      invariant r <= rounds && PlayedSoFar(ids, played, history) && r <= |history|
      invariant done == exhausted && (exhausted ==> IsRoundRobin(ids, history))
      decreases rounds - r, !done
    {
      var pairs := NextRound(ids, standingsAt(r), played);
      if pairs == [] {
        done, exhausted := true, true;
        EmptyRoundMeansAllPlayed(ids, played, history);
      } else {
        HistoryGrows(ids, played, history, pairs);
        KeysAt(pairs);
        var keys := Keys(pairs);
        played, history := played + (set k | k in keys), history + keys;
        r := r + 1;
      }
    }
    HistoryBound(ids, history);
  }

  lemma EmptyRoundMeansAllPlayed(ids: seq<string>, played: set<Pair>, history: seq<Pair>)
    requires Distinct(ids) && PlayedSoFar(ids, played, history) && IsMaximal(ids, played, [])
    ensures IsRoundRobin(ids, history)
  {
    forall p: Pair | p.0 in ids && p.1 in ids && TextLess(p.0, p.1)
      ensures p in history
    {
      DistinctPlaces(ids, p.0, p.1);
      assert Canonical(p.0, p.1) == p;
      assert p in played;
    }
  }

  lemma HistoryBound(ids: seq<string>, history: seq<Pair>)
    requires Distinct(ids) && Distinct(history)
    requires forall k :: k in history ==> k.0 in ids && k.1 in ids && TextLess(k.0, k.1)
    ensures 2 * |history| <= |ids| * (|ids| - 1)
  {
    Handshake(ids, history);
    DegreesAtMost(ids, history, ids);
  }

  /** Nobody meets more than everyone else. */
  lemma {:induction false} DegreesAtMost(some: seq<string>, history: seq<Pair>, ids: seq<string>)
    requires Distinct(ids) && forall c :: c in some ==> c in ids
    requires forall k :: k in history ==> k.0 in ids && k.1 in ids && TextLess(k.0, k.1)
    ensures SumInt(some, Degree(history)) <= |some| * (|ids| - 1)
  {
    if some != [] {
      var c := some[0];
      DegreesAtMost(some[1..], history, ids);
      WithoutProps(ids, c);
      ElementsSize(Without(ids, c));
      SubsetSize(Opponents(history, c), Elements(Without(ids, c)));
      OneMore(|some[1..]|, |ids| - 1);
    }
  }

  lemma OneMore(n: nat, d: int)
    ensures (n + 1) * d == n * d + d
  {
  }
}
