/** Elo ratings (optimization/ranking.py). The logistic curve is any function into (0, 1) that is 1/2 at 0. */
module Elo {
  import opened Sums
  import opened Ranking

  type Ratings = map<string, real>

  /** The expected score of a player rated `d` points above the opponent. */
  type Curve = real -> real

  ghost predicate Logistic(expected: Curve) { expected(0.0) == 0.5 && forall d :: 0.0 < expected(d) < 1.0 }

  function Actual(o: Outcome): real { if o.tie then 0.5 else 1.0 }

  /** What the winner of an outcome gains: the weighted surprise of the result. */
  function Gain(expected: Curve, k: real, ra: real, rb: real, o: Outcome): real {
    k * o.weight * (Actual(o) - expected(ra - rb))
  }

  function Played(expected: Curve, k: real, r: Ratings, o: Outcome): Ratings {
    if o.winner !in r || o.loser !in r then r
    else
      var ra, rb := r[o.winner], r[o.loser];
      r[o.winner := ra + Gain(expected, k, ra, rb, o)][o.loser := rb - Gain(expected, k, ra, rb, o)]
  }

  function After(candidates: seq<string>, outcomes: seq<Outcome>, expected: Curve, k: real, base: real): Ratings {
    if outcomes == [] then map c | c in candidates :: base
    else Played(expected, k, After(candidates, outcomes[..|outcomes| - 1], expected, k, base), outcomes[|outcomes| - 1])
  }

  lemma Surprise(k: real, w: real, sa: real, ea: real, sb: real, eb: real)
    requires sb == 1.0 - sa && eb == 1.0 - ea
    ensures k * w * (sb - eb) == -(k * w * (sa - ea))
  {
    assert sb - eb == -(sa - ea);
  }

  /** One outcome of the rating loop; an unknown id changes nothing. */
  method Play(ratings: Ratings, o: Outcome, expected: Curve, k: real) returns (r: Ratings)
    ensures r == Played(expected, k, ratings, o)
  {
    if o.winner !in ratings || o.loser !in ratings { return ratings; }
    var ra, rb := ratings[o.winner], ratings[o.loser];
    var ea := expected(ra - rb);
    var eb := 1.0 - ea;
    var sa, sb := 1.0, 0.0;
    if o.tie { sa, sb := 0.5, 0.5; }
    Surprise(k, o.weight, sa, ea, sb, eb);
    var up, down := ra + k * o.weight * (sa - ea), rb + k * o.weight * (sb - eb);
    assert sa == Actual(o);
    assert up == ra + Gain(expected, k, ra, rb, o);
    assert down == rb - Gain(expected, k, ra, rb, o);
    r := ratings[o.winner := up];
    r := r[o.loser := down];
  }

  lemma {:induction false} AfterKeys(candidates: seq<string>, outcomes: seq<Outcome>, expected: Curve, k: real,
                                     base: real)
    ensures forall c :: c in After(candidates, outcomes, expected, k, base) <==> c in candidates
  {
    if outcomes != [] { AfterKeys(candidates, outcomes[..|outcomes| - 1], expected, k, base); }
  }

  /** The rating loop of `elo_ratings`. */
  method Rate(candidates: seq<string>, outcomes: seq<Outcome>, expected: Curve, k: real, base: real)
    returns (ratings: Ratings)
    ensures ratings == After(candidates, outcomes, expected, k, base)
  {
    ratings := map c | c in candidates :: base;
    for i := 0 to |outcomes|
      invariant ratings == After(candidates, outcomes[..i], expected, k, base)
    {
      assert outcomes[..i + 1][..i] == outcomes[..i];
      ratings := Play(ratings, outcomes[i], expected, k);
    }
    assert outcomes[..|outcomes|] == outcomes;
  }

  /** `elo_ratings`. */
  method EloRatings(candidates: seq<string>, outcomes: seq<Outcome>, expected: Curve, k: real, base: real)
    returns (rows: seq<Row>)
    ensures (forall c :: c in candidates ==> c in After(candidates, outcomes, expected, k, base))
            && rows == Rows(candidates, After(candidates, outcomes, expected, k, base), outcomes)
  {
    var ratings := Rate(candidates, outcomes, expected, k, base);
    AfterKeys(candidates, outcomes, expected, k, base);
    rows := Rows(candidates, ratings, outcomes);
  }

  // ---- Rating points are conserved ----

  function PointsOf(r: Ratings): string -> real { c => if c in r then r[c] else 0.0 }

  function Points(order: seq<string>, r: Ratings): real { Sum(order, PointsOf(r)) }

  /** A candidate set against itself and declared to have lost to itself. */
  predicate SelfDefeat(candidates: seq<string>, o: Outcome) { o.winner in candidates && o.winner == o.loser && !o.tie }

  /** What an outcome takes out of the pool of points. */
  function Lost(candidates: seq<string>, k: real): Outcome -> real {
    (o: Outcome) => if SelfDefeat(candidates, o) then k * o.weight * 0.5 else 0.0
  }

  lemma {:induction false} PointsMove(order: seq<string>, r: Ratings, c: string, x: real)
    requires Distinct(order) && c in r
    ensures Points(order, r[c := x]) == Points(order, r) + if c in order then x - r[c] else 0.0
  {
    if order != [] {
      PointsMove(order[1..], r, c, x);
      assert c in order <==> c == order[0] || c in order[1..];
    }
  }

  lemma GameConserves(candidates: seq<string>, order: seq<string>, expected: Curve, k: real, r: Ratings, o: Outcome)
    requires Logistic(expected) && Distinct(order) && forall c :: c in order <==> c in candidates
    requires forall c :: c in r <==> c in candidates
    ensures Points(order, Played(expected, k, r, o)) == Points(order, r) - Lost(candidates, k)(o)
  {
    if o.winner in r && o.loser in r {
      var ra, rb := r[o.winner], r[o.loser];
      var gain := Gain(expected, k, ra, rb, o);
      var up := r[o.winner := ra + gain];
      PointsMove(order, r, o.winner, ra + gain);
      PointsMove(order, up, o.loser, rb - gain);
      if o.winner == o.loser { SelfGame(expected, k, ra, o); }
    }
  }

  lemma SelfGame(expected: Curve, k: real, ra: real, o: Outcome)
    requires Logistic(expected)
    ensures Gain(expected, k, ra, ra, o) == if o.tie then 0.0 else k * o.weight * 0.5
  {
    assert ra - ra == 0.0;
  }

  /**
   The candidates' ratings always add up to what they started with, less half a step for every
   outcome that has a candidate beat itself.
   */
  lemma {:induction false} PointsConserved(candidates: seq<string>, order: seq<string>, outcomes: seq<Outcome>,
                                           expected: Curve, k: real, base: real)
    requires Logistic(expected) && Distinct(order) && forall c :: c in order <==> c in candidates
    ensures Points(order, After(candidates, outcomes, expected, k, base))
            == Points(order, map c | c in candidates :: base) - Sum(outcomes, Lost(candidates, k))
  {
    if outcomes != [] {
      var front, o := outcomes[..|outcomes| - 1], outcomes[|outcomes| - 1];
      PointsConserved(candidates, order, front, expected, k, base);
      AfterKeys(candidates, front, expected, k, base);
      GameConserves(candidates, order, expected, k, After(candidates, front, expected, k, base), o);
      assert outcomes == front + [o];
      SumLast(front, o, Lost(candidates, k));
    }
  }

  /**
   A win between two candidates raises the winner by less than a full step, at the loser's cost,
   and moves nobody else.
   */
  lemma WinMovesUp(expected: Curve, k: real, r: Ratings, o: Outcome, c: string)
    requires Logistic(expected) && k > 0.0 && o.weight > 0.0 && !o.tie
    requires o.winner in r && o.loser in r && o.winner != o.loser && c in r
    ensures var t := Played(expected, k, r, o);
            && c in t
            && (c == o.winner ==> r[c] < t[c] < r[c] + k * o.weight)
            && (c == o.loser ==> r[c] - k * o.weight < t[c] < r[c])
            && (c != o.winner && c != o.loser ==> t[c] == r[c])
  {
    var ra, rb := r[o.winner], r[o.loser];
    StepSize(k * o.weight, expected(ra - rb), k, o.weight);
  }

  lemma StepSize(step: real, e: real, k: real, w: real)
    requires 0.0 < e < 1.0 && k > 0.0 && w > 0.0 && step == k * w
    ensures step > 0.0 && 0.0 < k * w * (1.0 - e) < step
  {
    assert step * e > 0.0 && step * (1.0 - e) > 0.0;
    assert step * (1.0 - e) == step - step * e;
  }
}
