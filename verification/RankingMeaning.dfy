/**
 What the tables and the rows of a ranking are (optimization/ranking.py), outcome by outcome, and what
 makes an Elo rating move.
 */
module RankingMeaning {
  import opened Sums
  import opened Ordering
  import opened Ranking
  import Elo

  // ---- The tables ----

  /** The place of a candidate; of a repeated one, the last. */
  ghost predicate Placed(candidates: seq<string>, c: string, i: nat) {
    i < |candidates| && candidates[i] == c && forall j :: i < j < |candidates| ==> candidates[j] != c
  }

  /** What one outcome gives a candidate: its weight for a win, half for each side of a tie. */
  ghost function Credit(o: Outcome, c: string): real {
    if o.tie then
      (if o.winner == c then o.weight / 2.0 else 0.0) + (if o.loser == c then o.weight / 2.0 else 0.0)
    else if o.winner == c then o.weight else 0.0
  }

  /** What one outcome adds to the games of two candidates, whoever won. */
  ghost function Met(o: Outcome, a: string, b: string): real {
    (if o.winner == a && o.loser == b then o.weight else 0.0)
    + (if o.winner == b && o.loser == a then o.weight else 0.0)
  }

  ghost predicate BothListed(candidates: seq<string>, o: Outcome) { o.winner in candidates && o.loser in candidates }

  ghost function Credits(candidates: seq<string>, outcomes: seq<Outcome>, c: string): real {
    if outcomes == [] then 0.0
    else (if BothListed(candidates, outcomes[0]) then Credit(outcomes[0], c) else 0.0)
         + Credits(candidates, outcomes[1..], c)
  }

  ghost function Meetings(candidates: seq<string>, outcomes: seq<Outcome>, a: string, b: string): real {
    if outcomes == [] then 0.0
    else (if BothListed(candidates, outcomes[0]) then Met(outcomes[0], a, b) else 0.0)
         + Meetings(candidates, outcomes[1..], a, b)
  }

  lemma IndexIs(candidates: seq<string>, c: string, i: nat, x: string)
    requires Placed(candidates, c, i) && x in candidates
    ensures Index(candidates, x) == i <==> x == c
  {
    if Index(candidates, x) < i { assert candidates[i] == c; }
  }

  /** The wins of a candidate: its credits over the outcomes between two listed candidates. */
  lemma {:induction false} WinsExactly(candidates: seq<string>, outcomes: seq<Outcome>, c: string, i: nat)
    requires Placed(candidates, c, i)
    ensures Wins(candidates, outcomes)(i) == Credits(candidates, outcomes, c)
  {
    if outcomes != [] {
      WinsExactly(candidates, outcomes[1..], c, i);
      var o := outcomes[0];
      if BothListed(candidates, o) {
        IndexIs(candidates, c, i, o.winner);
        IndexIs(candidates, c, i, o.loser);
      }
    }
  }

  /** The games of two candidates: their meetings over those outcomes. */
  lemma {:induction false} GamesExactly(candidates: seq<string>, outcomes: seq<Outcome>, a: string, i: nat,
                                        b: string, j: nat)
    requires Placed(candidates, a, i) && Placed(candidates, b, j)
    ensures Games(candidates, outcomes)(i, j) == Meetings(candidates, outcomes, a, b)
  {
    if outcomes != [] {
      GamesExactly(candidates, outcomes[1..], a, i, b, j);
      var o := outcomes[0];
      if BothListed(candidates, o) {
        IndexIs(candidates, a, i, o.winner);
        IndexIs(candidates, a, i, o.loser);
        IndexIs(candidates, b, j, o.winner);
        IndexIs(candidates, b, j, o.loser);
      }
    }
  }

  // ---- The rows ----

  ghost function Beat(c: string): Outcome -> bool { (o: Outcome) => !o.tie && o.winner == c }
  ghost function LostTo(c: string): Outcome -> bool { (o: Outcome) => !o.tie && o.loser == c }
  ghost function DrewFirst(c: string): Outcome -> bool { (o: Outcome) => o.tie && o.winner == c }
  ghost function DrewSecond(c: string): Outcome -> bool { (o: Outcome) => o.tie && o.loser == c }

  ghost function HowMany(outcomes: seq<Outcome>, kind: Outcome -> bool): int { |Indices(outcomes, kind)| }

  /** A row counts the outcomes its candidate won, lost and drew, against anybody. */
  ghost predicate RowIs(r: Row, outcomes: seq<Outcome>, score: real) {
    && r.score == score
    && r.wins == HowMany(outcomes, Beat(r.candidate))
    && r.losses == HowMany(outcomes, LostTo(r.candidate))
    && r.ties == HowMany(outcomes, DrewFirst(r.candidate)) + HowMany(outcomes, DrewSecond(r.candidate))
    && r.comparisons == r.wins + r.losses + r.ties
  }

  /** Best first; equal scores by candidate. */
  ghost predicate Ranked(a: Row, b: Row) {
    a.score > b.score || (a.score == b.score && TextLe(a.candidate, b.candidate))
  }

  ghost predicate BestFirst(rows: seq<Row>) { forall i, j :: 0 <= i < j < |rows| ==> Ranked(rows[i], rows[j]) }

  ghost function IsRowOf(c: string): Row -> bool { (r: Row) => r.candidate == c }
  ghost function IsName(c: string): string -> bool { (x: string) => x == c }

  /** As many rows for a candidate as it is listed. */
  ghost predicate RowsPerCandidate(rows: seq<Row>, candidates: seq<string>) {
    |rows| == |candidates| && forall c :: |Indices(rows, IsRowOf(c))| == |Indices(candidates, IsName(c))|
  }

  lemma {:induction false} TalliesAre(outcomes: seq<Outcome>, c: string)
    ensures SumInt(outcomes, Won(c)) == Count(outcomes, Beat(c))
    ensures SumInt(outcomes, Lost(c)) == Count(outcomes, LostTo(c))
    ensures SumInt(outcomes, Tied(c)) == Count(outcomes, DrewFirst(c)) + Count(outcomes, DrewSecond(c))
  {
    if outcomes != [] { TalliesAre(outcomes[1..], c); }
  }

  lemma RowOfIs(outcomes: seq<Outcome>, c: string, score: real)
    ensures RowOf(outcomes, c, score).candidate == c && RowIs(RowOf(outcomes, c, score), outcomes, score)
  {
    TalliesAre(outcomes, c);
    CountIsIndices(outcomes, Beat(c));
    CountIsIndices(outcomes, LostTo(c));
    CountIsIndices(outcomes, DrewFirst(c));
    CountIsIndices(outcomes, DrewSecond(c));
  }

  lemma {:induction false} UnsortedAre(candidates: seq<string>, scores: map<string, real>, outcomes: seq<Outcome>,
                                       c: string)
    requires forall x :: x in candidates ==> x in scores
    ensures var rows := UnsortedRows(candidates, scores, outcomes);
            && |rows| == |candidates|
            && Count(rows, IsRowOf(c)) == Count(candidates, IsName(c))
            && forall r :: r in rows ==> r.candidate in scores && RowIs(r, outcomes, scores[r.candidate])
  {
    if candidates != [] {
      UnsortedAre(candidates[1..], scores, outcomes, c);
      RowOfIs(outcomes, candidates[0], scores[candidates[0]]);
    }
  }

  lemma RowsPermute(candidates: seq<string>, scores: map<string, real>, outcomes: seq<Outcome>, c: string)
    requires forall x :: x in candidates ==> x in scores
    ensures var rows := Rows(candidates, scores, outcomes);
            |rows| == |candidates| && |Indices(rows, IsRowOf(c))| == |Indices(candidates, IsName(c))|
  {
    var unsorted, rows := UnsortedRows(candidates, scores, outcomes), Rows(candidates, scores, outcomes);
    UnsortedAre(candidates, scores, outcomes, c);
    SortPermutes(unsorted, RowLe);
    CountPermutes(rows, unsorted, IsRowOf(c));
    CountIsIndices(rows, IsRowOf(c));
    CountIsIndices(candidates, IsName(c));
  }

  lemma RowsSorted(rows: seq<Row>)
    ensures BestFirst(Sort(rows, RowLe))
  {
    TextIsTotalOrder();
    SortSorted(rows, RowLe);
    var sorted := Sort(rows, RowLe);
    assert forall i, j :: 0 <= i < j < |sorted| ==> RowLe(sorted[i], sorted[j]);
  }

  /** The rows of a ranking: one for every candidate, its own figures in it, best first. */
  lemma RowsExactly(candidates: seq<string>, scores: map<string, real>, outcomes: seq<Outcome>)
    requires forall c :: c in candidates ==> c in scores
    ensures var rows := Rows(candidates, scores, outcomes);
            && RowsPerCandidate(rows, candidates) && BestFirst(rows)
            && forall r :: r in rows ==> r.candidate in scores && RowIs(r, outcomes, scores[r.candidate])
  {
    var unsorted, rows := UnsortedRows(candidates, scores, outcomes), Rows(candidates, scores, outcomes);
    RowsSorted(unsorted);
    SortPermutes(unsorted, RowLe);
    SameMembers(rows, unsorted);
    UnsortedAre(candidates, scores, outcomes, "");
    forall c: string
      ensures |rows| == |candidates| && |Indices(rows, IsRowOf(c))| == |Indices(candidates, IsName(c))|
    {
      RowsPermute(candidates, scores, outcomes, c);
    }
  }

  /** The score of a candidate: its strength, and all of it when it is alone. */
  ghost predicate Scored(r: Row, candidates: seq<string>, outcomes: seq<Outcome>, maxIter: nat, tol: real) {
    var strengths := Strengths(candidates, outcomes, maxIter, tol);
    if |candidates| == 1 then r.score == 1.0
    else forall i: nat :: Placed(candidates, r.candidate, i) ==> r.score == strengths[i]
  }

  ghost predicate AllScored(rows: seq<Row>, candidates: seq<string>, outcomes: seq<Outcome>, maxIter: nat, tol: real) {
    && RowsPerCandidate(rows, candidates) && BestFirst(rows)
    && forall r :: r in rows ==> RowIs(r, outcomes, r.score) && Scored(r, candidates, outcomes, maxIter, tol)
  }

  lemma ScoreIsStrength(candidates: seq<string>, p: seq<real>, c: string)
    requires |p| == |candidates| && c in candidates
    ensures forall i: nat :: Placed(candidates, c, i) ==> Scores(candidates, p)[c] == p[i]
  {
    forall i: nat | Placed(candidates, c, i)
      ensures Scores(candidates, p)[c] == p[i]
    {
      IndexIs(candidates, c, i, c);
    }
  }

  lemma SeveralScored(candidates: seq<string>, outcomes: seq<Outcome>, maxIter: nat, tol: real, p: seq<real>)
    requires |candidates| > 1 && p == Strengths(candidates, outcomes, maxIter, tol)
    ensures AllScored(Rows(candidates, Scores(candidates, p), outcomes), candidates, outcomes, maxIter, tol)
  {
    var scores := Scores(candidates, p);
    RowsExactly(candidates, scores, outcomes);
    forall r | r in Rows(candidates, scores, outcomes)
      ensures RowIs(r, outcomes, r.score) && Scored(r, candidates, outcomes, maxIter, tol)
    {
      ScoreIsStrength(candidates, p, r.candidate);
    }
  }

  lemma OneScored(candidates: seq<string>, outcomes: seq<Outcome>, maxIter: nat, tol: real)
    requires |candidates| == 1
    ensures AllScored(Rows(candidates, map[candidates[0] := 1.0], outcomes), candidates, outcomes, maxIter, tol)
  {
    RowsExactly(candidates, map[candidates[0] := 1.0], outcomes);
  }

  /** The rows of a Bradley-Terry ranking. */
  lemma BradleyTerryExactly(candidates: seq<string>, outcomes: seq<Outcome>, maxIter: nat, tol: real)
    ensures AllScored(BradleyTerryRows(candidates, outcomes, maxIter, tol), candidates, outcomes, maxIter, tol)
  {
    if |candidates| == 1 {
      OneScored(candidates, outcomes, maxIter, tol);
    } else if candidates != [] {
      SeveralScored(candidates, outcomes, maxIter, tol, Strengths(candidates, outcomes, maxIter, tol));
    }
  }

  // ---- Elo ----

  /** The more a rating leads, the more it is expected to win. */
  ghost predicate Rises(expected: Elo.Curve) { forall d, e :: d < e ==> expected(d) < expected(e) }

  /** The same result moves the ratings more the stronger the loser was, and less the stronger the winner. */
  lemma UpsetsPayMore(expected: Elo.Curve, k: real, ra: real, rb: real, ra': real, rb': real, o: Outcome)
    requires Rises(expected) && k > 0.0 && o.weight > 0.0
    requires ra' - rb' < ra - rb
    ensures Elo.Gain(expected, k, ra, rb, o) < Elo.Gain(expected, k, ra', rb', o)
  {
    assert expected(ra' - rb') < expected(ra - rb);
    Scales(k * o.weight, Elo.Actual(o) - expected(ra - rb), Elo.Actual(o) - expected(ra' - rb'));
  }

  lemma Scales(step: real, x: real, y: real)
    requires step > 0.0 && x < y
    ensures step * x < step * y
  {
    assert step * (y - x) > 0.0;
  }

  /** Half a step for beating an equal, nothing for a tie with one; a tie helps the weaker side. */
  lemma EqualsAndTies(expected: Elo.Curve, k: real, ra: real, rb: real, o: Outcome)
    requires Elo.Logistic(expected) && Rises(expected) && k > 0.0 && o.weight > 0.0
    ensures ra == rb ==> Elo.Gain(expected, k, ra, rb, o) == if o.tie then 0.0 else k * o.weight * 0.5
    ensures o.tie ==> (Elo.Gain(expected, k, ra, rb, o) > 0.0 <==> ra < rb)
                      && (Elo.Gain(expected, k, ra, rb, o) < 0.0 <==> ra > rb)
  {
    if ra < rb { assert expected(ra - rb) < expected(0.0); }
    if ra > rb { assert expected(0.0) < expected(ra - rb); }
    if o.tie { SignOf(k * o.weight, 0.5 - expected(ra - rb)); }
  }

  lemma SignOf(step: real, x: real)
    requires step > 0.0
    ensures (step * x > 0.0 <==> x > 0.0) && (step * x < 0.0 <==> x < 0.0)
  {
    if x > 0.0 { assert step * x > 0.0; }
    if x < 0.0 { assert step * -x > 0.0; }
  }

  /** A win is worth half a step more than a tie, at any ratings. */
  lemma WinAgainstTie(expected: Elo.Curve, k: real, ra: real, rb: real, won: Outcome, tied: Outcome)
    requires !won.tie && tied == won.(tie := true)
    ensures Elo.Gain(expected, k, ra, rb, won) - Elo.Gain(expected, k, ra, rb, tied) == k * won.weight * 0.5
  {
    var step, e := k * won.weight, expected(ra - rb);
    assert step * (1.0 - e) - step * (0.5 - e) == step * 0.5;
  }
}
