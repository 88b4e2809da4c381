/**
 What the Bradley-Terry strengths are for (optimization/ranking.py): under strengths p candidate i
 beats j with probability p[i] / (p[i] + p[j]), and the strengths of greatest likelihood are those
 under which every candidate is expected to win exactly what it won.
 */
module Likelihood {
  import opened Sums
  import opened Ranking

  /** What strength a is expected to win of g games against strength b. */
  ghost function ExpectedOf(g: real, a: real, b: real): real {
    if g == 0.0 || a + b == 0.0 then 0.0 else g * (a / (a + b))
  }

  /** What candidate i is expected to win against the first n others. */
  ghost function ExpectedWins(g: (nat, nat) -> real, p: seq<real>, i: nat, n: nat): real
    requires i < |p| && n <= |p|
  {
    if n == 0 then 0.0
    else ExpectedWins(g, p, i, n - 1) + if n - 1 == i then 0.0 else ExpectedOf(g(i, n - 1), p[i], p[n - 1])
  }

  // ---- A round, and the expected wins ----

  ghost predicate IsProduct(x: real, a: real, b: real) { x == a * b }

  lemma OneExpected(g: real, a: real, b: real)
    ensures IsProduct(ExpectedOf(g, a, b), a, Term(g, a + b))
  {
    if g != 0.0 && a + b != 0.0 { Reorder(g, a, a + b); }
  }

  lemma Reorder(g: real, a: real, s: real)
    requires s != 0.0
    ensures g * (a / s) == a * (g / s)
  {
    var x, y := a / s, g / s;
    assert a == x * s && g == y * s;
    assert g * x == y * s * x && a * y == x * s * y;
  }

  lemma OneMoreExpected(a: real, d: real, term: real, e: real, expected: real)
    requires IsProduct(e, a, d) && IsProduct(expected, a, term)
    ensures IsProduct(e + expected, a, d + term)
  {
  }

  /** The denominator of a round is the expected wins per strength. */
  lemma {:induction false} ExpectedIsDenominator(g: (nat, nat) -> real, p: seq<real>, i: nat, n: nat)
    requires i < |p| && n <= |p|
    ensures IsProduct(ExpectedWins(g, p, i, n), p[i], Denominator(g, p, i, n))
  {
    if n > 0 {
      ExpectedIsDenominator(g, p, i, n - 1);
      if n - 1 != i {
        var games, a, b := g(i, n - 1), p[i], p[n - 1];
        OneExpected(games, a, b);
        OneMoreExpected(a, Denominator(g, p, i, n - 1), Term(games, a + b), ExpectedWins(g, p, i, n - 1),
                        ExpectedOf(games, a, b));
      }
    }
  }

  /** The factor by which a round renormalizes. */
  ghost function Factor(w: nat -> real, g: (nat, nat) -> real, p: seq<real>): real { Total(Unnormalized(w, g, p)) }

  lemma RoundDividesTwice(w: nat -> real, g: (nat, nat) -> real, p: seq<real>, i: nat)
    requires Consistent(w, g) && Alive(w, g, p) && i < |p| && PlayedAnother(g, |p|, i)
    ensures Factor(w, g, p) > 0.0 && Denominator(g, p, i, |p|) > 0.0
    ensures Round(w, g, p)[i] == Quotient(Quotient(w(i), Denominator(g, p, i, |p|)), Factor(w, g, p))
  {
    SomeoneHasStrength(w, g, p);
    DenominatorPositive(w, g, p, i, |p|);
  }

  /** `won` wins are what a strength q asks for at `d` expected wins per strength, up to a factor. */
  ghost predicate Answers(won: real, t: real, q: real, d: real) { won == t * (q * d) }

  lemma TwoQuotients(won: real, d: real, t: real)
    requires d > 0.0 && t > 0.0
    ensures Answers(won, t, Quotient(Quotient(won, d), t), d)
  {
    var raw := won / d;
    var q := raw / t;
    assert won == raw * d && raw == q * t;
    assert t * (q * d) == (q * t) * d;
  }

  /** A round gives each candidate that met another the strength that its wins ask for. */
  lemma RoundAnswersWins(w: nat -> real, g: (nat, nat) -> real, p: seq<real>, i: nat)
    requires Consistent(w, g) && Alive(w, g, p) && i < |p| && PlayedAnother(g, |p|, i)
    ensures Answers(w(i), Factor(w, g, p), Round(w, g, p)[i], Denominator(g, p, i, |p|))
  {
    RoundDividesTwice(w, g, p, i);
    TwoQuotients(w(i), Denominator(g, p, i, |p|), Factor(w, g, p));
  }

  lemma Combine(won: real, t: real, q: real, d: real, expected: real)
    requires Answers(won, t, q, d) && IsProduct(expected, q, d)
    ensures IsProduct(won, t, expected)
  {
  }

  /** At a fixed point every candidate that met another won one common factor times its expected wins. */
  lemma FixedPointBalances(w: nat -> real, g: (nat, nat) -> real, p: seq<real>, i: nat)
    requires Consistent(w, g) && Alive(w, g, p) && i < |p| && PlayedAnother(g, |p|, i) && Round(w, g, p) == p
    ensures IsProduct(w(i), Factor(w, g, p), ExpectedWins(g, p, i, |p|))
  {
    RoundAnswersWins(w, g, p, i);
    ExpectedIsDenominator(g, p, i, |p|);
    Combine(w(i), Factor(w, g, p), p[i], Denominator(g, p, i, |p|), ExpectedWins(g, p, i, |p|));
  }

  // ---- Sums over all pairs ----

  /** Row i of a table over the first n candidates, its own entry left out. */
  ghost function RowSum(f: (nat, nat) -> real, i: nat, n: nat): real {
    if n == 0 then 0.0 else RowSum(f, i, n - 1) + if n - 1 == i then 0.0 else f(i, n - 1)
  }

  /** The first m rows. */
  ghost function TableSum(f: (nat, nat) -> real, m: nat, n: nat): real {
    if m == 0 then 0.0 else TableSum(f, m - 1, n) + RowSum(f, m - 1, n)
  }

  /** Column j over the first m candidates, its own entry left out. */
  ghost function ColumnSum(f: (nat, nat) -> real, m: nat, j: nat): real {
    if m == 0 then 0.0 else ColumnSum(f, m - 1, j) + if m - 1 == j then 0.0 else f(m - 1, j)
  }

  ghost function Swapped(f: (nat, nat) -> real): (nat, nat) -> real { (i: nat, j: nat) => f(j, i) }

  lemma {:induction false} OneMoreColumn(f: (nat, nat) -> real, m: nat, n: nat)
    ensures TableSum(f, m, n + 1) == TableSum(f, m, n) + ColumnSum(f, m, n)
  {
    if m > 0 { OneMoreColumn(f, m - 1, n); }
  }

  lemma {:induction false} RowIsColumn(f: (nat, nat) -> real, i: nat, n: nat)
    ensures RowSum(f, i, n) == ColumnSum(Swapped(f), n, i)
    ensures ColumnSum(f, n, i) == RowSum(Swapped(f), i, n)
  {
    if n > 0 { RowIsColumn(f, i, n - 1); }
  }

  /** A square table and its transpose have the same sum. */
  lemma {:induction false} SwapTable(f: (nat, nat) -> real, n: nat)
    ensures TableSum(f, n, n) == TableSum(Swapped(f), n, n)
  {
    if n > 0 {
      SwapTable(f, n - 1);
      OneMoreColumn(f, n - 1, n - 1);
      OneMoreColumn(Swapped(f), n - 1, n - 1);
      OwnEntry(f, n - 1);
      OwnEntry(Swapped(f), n - 1);
      RowIsColumn(f, n - 1, n - 1);
    }
  }

  lemma OwnEntry(f: (nat, nat) -> real, i: nat)
    ensures RowSum(f, i, i + 1) == RowSum(f, i, i)
  {
  }

  lemma {:induction false} RowAdd(f: (nat, nat) -> real, g: (nat, nat) -> real, h: (nat, nat) -> real, i: nat, n: nat)
    requires forall j :: 0 <= j < n && j != i ==> h(i, j) == f(i, j) + g(i, j)
    ensures RowSum(h, i, n) == RowSum(f, i, n) + RowSum(g, i, n)
  {
    if n > 0 { RowAdd(f, g, h, i, n - 1); }
  }

  lemma {:induction false} TableAdd(f: (nat, nat) -> real, g: (nat, nat) -> real, h: (nat, nat) -> real, m: nat, n: nat)
    requires forall i, j :: 0 <= i < m && 0 <= j < n && j != i ==> h(i, j) == f(i, j) + g(i, j)
    ensures TableSum(h, m, n) == TableSum(f, m, n) + TableSum(g, m, n)
  {
    if m > 0 {
      TableAdd(f, g, h, m - 1, n);
      RowAdd(f, g, h, m - 1, n);
    }
  }

  // ---- Expected wins add up to the games ----

  ghost function ExpectedTable(g: (nat, nat) -> real, p: seq<real>): (nat, nat) -> real {
    (i: nat, j: nat) => if i < |p| && j < |p| then ExpectedOf(g(i, j), p[i], p[j]) else 0.0
  }

  ghost function TotalExpected(g: (nat, nat) -> real, p: seq<real>, m: nat): real
    requires m <= |p|
  {
    if m == 0 then 0.0 else TotalExpected(g, p, m - 1) + ExpectedWins(g, p, m - 1, |p|)
  }

  lemma {:induction false} ExpectedRow(g: (nat, nat) -> real, p: seq<real>, i: nat, n: nat)
    requires i < |p| && n <= |p|
    ensures ExpectedWins(g, p, i, n) == RowSum(ExpectedTable(g, p), i, n)
  {
    if n > 0 { ExpectedRow(g, p, i, n - 1); }
  }

  lemma {:induction false} ExpectedRows(g: (nat, nat) -> real, p: seq<real>, m: nat)
    requires m <= |p|
    ensures TotalExpected(g, p, m) == TableSum(ExpectedTable(g, p), m, |p|)
  {
    if m > 0 {
      ExpectedRows(g, p, m - 1);
      ExpectedRow(g, p, m - 1, |p|);
    }
  }

  /** Of two that met, one is expected to win what the other is not. */
  lemma BothExpected(g: real, a: real, b: real)
    requires g != 0.0 ==> a + b != 0.0
    ensures ExpectedOf(g, a, b) + ExpectedOf(g, b, a) == g
  {
    if g != 0.0 { Shares(g, a, b, a + b); }
  }

  lemma Shares(g: real, a: real, b: real, s: real)
    requires s != 0.0 && a + b == s
    ensures g * (a / s) + g * (b / s) == g
  {
    var x, y := Quotient(a, s), Quotient(b, s);
    QuotientAdd(a, b, s);
    QuotientSelf(s);
    assert g * x + g * y == g * (x + y);
  }

  /** All expected wins together, twice, are the game table: every game is expected to be won once. */
  lemma ExpectedTotal(w: nat -> real, g: (nat, nat) -> real, p: seq<real>)
    requires Consistent(w, g) && Alive(w, g, p)
    ensures 2.0 * TotalExpected(g, p, |p|) == TableSum(g, |p|, |p|)
  {
    var e, n := ExpectedTable(g, p), |p|;
    forall i: nat, j: nat | i < n && j < n && i != j
      ensures g(i, j) == e(i, j) + Swapped(e)(i, j)
    {
      if g(i, j) != 0.0 { SafeDivision(w, g, p, i, j); }
      BothExpected(g(i, j), p[i], p[j]);
    }
    TableAdd(e, Swapped(e), g, n, n);
    SwapTable(e, n);
    ExpectedRows(g, p, n);
  }

  // ---- The tables of a tournament without self-defeats ----

  ghost predicate NoSelfPlay(outcomes: seq<Outcome>) { forall o :: o in outcomes ==> o.winner != o.loser }

  /** What one outcome adds to the game table. */
  ghost function OneGame(candidates: seq<string>, o: Outcome): (nat, nat) -> real {
    (i: nat, j: nat) => GameShare(candidates, i, j)(o)
  }

  lemma {:induction false} OneGameRow(candidates: seq<string>, o: Outcome, i: nat, n: nat)
    requires Known(candidates, o) && o.winner != o.loser
    ensures var a, b := Index(candidates, o.winner), Index(candidates, o.loser);
            RowSum(OneGame(candidates, o), i, n)
            == if (i == a && b < n) || (i == b && a < n) then o.weight else 0.0
  {
    var a, b := Index(candidates, o.winner), Index(candidates, o.loser);
    assert candidates[a] != candidates[b];
    if n > 0 {
      var j: nat := n - 1;
      OneGameRow(candidates, o, i, j);
      assert OneGame(candidates, o)(i, j) == GameShare(candidates, i, j)(o);
      assert Known(candidates, o);
      assert GameShare(candidates, i, j)(o)
             == (if a == i && b == j then o.weight else 0.0) + (if b == i && a == j then o.weight else 0.0);
    }
  }

  lemma {:induction false} OneGameTable(candidates: seq<string>, o: Outcome, m: nat, n: nat)
    requires Known(candidates, o) && o.winner != o.loser && |candidates| <= n
    ensures var a, b := Index(candidates, o.winner), Index(candidates, o.loser);
            TableSum(OneGame(candidates, o), m, n)
            == (if a < m then o.weight else 0.0) + if b < m then o.weight else 0.0
  {
    if m > 0 {
      OneGameTable(candidates, o, m - 1, n);
      OneGameRow(candidates, o, m - 1, n);
    }
  }

  lemma {:induction false} ZeroRow(f: (nat, nat) -> real, i: nat, n: nat)
    requires forall i, j :: f(i, j) == 0.0
    ensures RowSum(f, i, n) == 0.0
  {
    if n > 0 { ZeroRow(f, i, n - 1); }
  }

  lemma {:induction false} ZeroTable(f: (nat, nat) -> real, m: nat, n: nat)
    requires forall i, j :: f(i, j) == 0.0
    ensures TableSum(f, m, n) == 0.0
  {
    if m > 0 {
      ZeroTable(f, m - 1, n);
      ZeroRow(f, m - 1, n);
    }
  }

  /** Every game between known candidates is in the table twice. */
  lemma {:induction false} GamesTotal(candidates: seq<string>, outcomes: seq<Outcome>)
    requires NoSelfPlay(outcomes)
    ensures TableSum(Games(candidates, outcomes), |candidates|, |candidates|)
            == 2.0 * Sum(outcomes, KnownWeight(candidates))
  {
    var n := |candidates|;
    if outcomes == [] {
      ZeroTable(Games(candidates, outcomes), n, n);
    } else {
      var o, rest := outcomes[0], outcomes[1..];
      assert NoSelfPlay(rest) by { assert forall x :: x in rest ==> x in outcomes; }
      assert o in outcomes;
      GamesTotal(candidates, rest);
      TableAdd(OneGame(candidates, o), Games(candidates, rest), Games(candidates, outcomes), n, n);
      if Known(candidates, o) { OneGameTable(candidates, o, n, n); } else { ZeroTable(OneGame(candidates, o), n, n); }
    }
  }

  /** Whoever has won something met someone else. */
  lemma WinnersMet(candidates: seq<string>, outcomes: seq<Outcome>, i: nat)
    requires Weighted(outcomes) && NoSelfPlay(outcomes) && Wins(candidates, outcomes)(i) != 0.0
    ensures PlayedAnother(Games(candidates, outcomes), |candidates|, i)
  {
    WinsNonNegative(candidates, outcomes, i);
    var o :| o in outcomes && WinShare(candidates, i)(o) > 0.0;
    var a, b := Index(candidates, o.winner), Index(candidates, o.loser);
    assert candidates[a] != candidates[b];
    var j := if a == i then b else a;
    SumNonNegative(outcomes, GameShare(candidates, i, j));
    assert GameShare(candidates, i, j)(o) > 0.0;
    assert Games(candidates, outcomes)(i, j) > 0.0;
  }

  lemma {:induction false} ExpectsNothing(w: nat -> real, g: (nat, nat) -> real, p: seq<real>, i: nat, n: nat)
    requires Consistent(w, g) && i < |p| && n <= |p| && !PlayedAnother(g, |p|, i)
    ensures ExpectedWins(g, p, i, n) == 0.0
  {
    if n > 0 {
      ExpectsNothing(w, g, p, i, n - 1);
      assert n - 1 == i || g(i, n - 1) == 0.0;
    }
  }

  // ---- Fixed points solve the likelihood equations ----

  /** Every candidate has won exactly what the strengths expect it to win. */
  ghost predicate SolvesLikelihood(candidates: seq<string>, outcomes: seq<Outcome>, p: seq<real>)
    requires |p| == |candidates|
  {
    forall i :: 0 <= i < |p| ==>
      Wins(candidates, outcomes)(i) == ExpectedWins(Games(candidates, outcomes), p, i, |p|)
  }

  /** All wins are one factor times all expected wins. */
  lemma {:induction false} SumBalances(w: nat -> real, g: (nat, nat) -> real, p: seq<real>, t: real, m: nat)
    requires m <= |p| && forall i :: 0 <= i < m ==> IsProduct(w(i), t, ExpectedWins(g, p, i, |p|))
    ensures IsProduct(WinsOf(w, m), t, TotalExpected(g, p, m))
  {
    if m > 0 {
      SumBalances(w, g, p, t, m - 1);
      OneMoreProduct(t, WinsOf(w, m - 1), TotalExpected(g, p, m - 1), w(m - 1), ExpectedWins(g, p, m - 1, |p|));
    }
  }

  ghost function WinsOf(w: nat -> real, m: nat): real { if m == 0 then 0.0 else WinsOf(w, m - 1) + w(m - 1) }

  lemma OneMoreProduct(t: real, x: real, a: real, y: real, b: real)
    requires IsProduct(x, t, a) && IsProduct(y, t, b)
    ensures IsProduct(x + y, t, a + b)
  {
  }

  lemma {:induction false} WinsOfTable(candidates: seq<string>, outcomes: seq<Outcome>, m: nat)
    ensures WinsOf(Wins(candidates, outcomes), m) == WinsUpTo(candidates, outcomes, m)
  {
    if m > 0 { WinsOfTable(candidates, outcomes, m - 1); }
  }

  lemma {:induction false} NothingWon(w: nat -> real, m: nat, i: nat)
    requires (forall k :: w(k) >= 0.0) && WinsOf(w, m) == 0.0 && i < m
    ensures w(i) == 0.0
  {
    WinsOfNonNegative(w, m - 1);
    if i < m - 1 { NothingWon(w, m - 1, i); }
  }

  lemma {:induction false} WinsOfNonNegative(w: nat -> real, m: nat)
    requires forall k :: w(k) >= 0.0
    ensures WinsOf(w, m) >= 0.0
  {
    if m > 0 { WinsOfNonNegative(w, m - 1); }
  }

  /** At a fixed point one factor ties every candidate's wins to its expected wins. */
  lemma OneFactor(candidates: seq<string>, outcomes: seq<Outcome>, p: seq<real>, i: nat)
    requires Weighted(outcomes) && NoSelfPlay(outcomes) && |p| == |candidates| && i < |p|
    requires var w, g := Wins(candidates, outcomes), Games(candidates, outcomes); Alive(w, g, p) && Round(w, g, p) == p
    ensures var w, g := Wins(candidates, outcomes), Games(candidates, outcomes);
            IsProduct(w(i), Factor(w, g, p), ExpectedWins(g, p, i, |p|))
  {
    var w, g := Wins(candidates, outcomes), Games(candidates, outcomes);
    TablesConsistent(candidates, outcomes);
    if PlayedAnother(g, |p|, i) {
      FixedPointBalances(w, g, p, i);
    } else {
      ExpectsNothing(w, g, p, i, |p|);
      if w(i) != 0.0 { WinnersMet(candidates, outcomes, i); }
    }
  }

  /** All expected wins together are all wins together. */
  lemma TotalsAgree(candidates: seq<string>, outcomes: seq<Outcome>, p: seq<real>)
    requires Weighted(outcomes) && NoSelfPlay(outcomes) && |p| == |candidates|
    requires Alive(Wins(candidates, outcomes), Games(candidates, outcomes), p)
    ensures TotalExpected(Games(candidates, outcomes), p, |p|) == WinsOf(Wins(candidates, outcomes), |p|)
  {
    TablesConsistent(candidates, outcomes);
    ExpectedTotal(Wins(candidates, outcomes), Games(candidates, outcomes), p);
    GamesTotal(candidates, outcomes);
    WinsConserved(candidates, outcomes);
    WinsOfTable(candidates, outcomes, |p|);
  }

  lemma FactorIsOne(t: real, all: real)
    requires IsProduct(all, t, all) && all != 0.0
    ensures t == 1.0
  {
    assert (t - 1.0) * all == 0.0;
  }

  lemma FactorVanishes(won: real, t: real, expected: real)
    requires IsProduct(won, t, expected) && t > 0.0 && won == 0.0
    ensures expected == 0.0
  {
  }

  lemma FixedPointSolves(candidates: seq<string>, outcomes: seq<Outcome>, p: seq<real>)
    requires Weighted(outcomes) && NoSelfPlay(outcomes) && |p| == |candidates|
    requires var w, g := Wins(candidates, outcomes), Games(candidates, outcomes); Alive(w, g, p) && Round(w, g, p) == p
    ensures SolvesLikelihood(candidates, outcomes, p)
  {
    var w, g := Wins(candidates, outcomes), Games(candidates, outcomes);
    var t, all := Factor(w, g, p), WinsOf(w, |p|);
    TablesConsistent(candidates, outcomes);
    SomeoneHasStrength(w, g, p);
    forall i | 0 <= i < |p| { OneFactor(candidates, outcomes, p, i); }
    SumBalances(w, g, p, t, |p|);
    TotalsAgree(candidates, outcomes, p);
    if all != 0.0 { FactorIsOne(t, all); }
    forall i | 0 <= i < |p|
      ensures w(i) == ExpectedWins(g, p, i, |p|)
    {
      if all == 0.0 {
        NothingWon(w, |p|, i);
        FactorVanishes(w(i), t, ExpectedWins(g, p, i, |p|));
      }
    }
  }

  lemma SolutionStays(candidates: seq<string>, outcomes: seq<Outcome>, p: seq<real>)
    requires |p| == |candidates| && Total(p) == 1.0 && SolvesLikelihood(candidates, outcomes, p)
    ensures Round(Wins(candidates, outcomes), Games(candidates, outcomes), p) == p
  {
    var w, g := Wins(candidates, outcomes), Games(candidates, outcomes);
    forall i | 0 <= i < |p|
      ensures NewStrength(w, g, p, i) == p[i]
    {
      var d := Denominator(g, p, i, |p|);
      ExpectedIsDenominator(g, p, i, |p|);
      if d > 0.0 { ProductQuotient(w(i), p[i], d); }
    }
    assert Unnormalized(w, g, p) == p;
    forall i | 0 <= i < |p|
      ensures Round(w, g, p)[i] == p[i]
    {
      assert Quotient(p[i], 1.0) == p[i];
    }
  }

  lemma ProductQuotient(x: real, a: real, d: real)
    requires IsProduct(x, a, d) && d > 0.0
    ensures Quotient(x, d) == a
  {
  }

  /**
   For every tournament with non-negative weights in which nobody plays itself, and strengths that
   sum to 1: the iteration rests at the strengths exactly when they solve the likelihood equations,
   under which every candidate has won just what it is expected to win.
   */
  lemma RestsAtLikelihoodExactly(candidates: seq<string>, outcomes: seq<Outcome>, p: seq<real>)
    requires Weighted(outcomes) && NoSelfPlay(outcomes) && |p| == |candidates| && Total(p) == 1.0
    requires Alive(Wins(candidates, outcomes), Games(candidates, outcomes), p)
    ensures Round(Wins(candidates, outcomes), Games(candidates, outcomes), p) == p
            <==> SolvesLikelihood(candidates, outcomes, p)
  {
    if SolvesLikelihood(candidates, outcomes, p) {
      SolutionStays(candidates, outcomes, p);
    } else if Round(Wins(candidates, outcomes), Games(candidates, outcomes), p) == p {
      FixedPointSolves(candidates, outcomes, p);
    }
  }

  // ---- How far a result that stops within the tolerance can miss ----

  /** The change the iteration measures is the largest of any strength. */
  lemma {:induction false} DeltaIsLargest(p: seq<real>, q: seq<real>, i: nat)
    requires |p| == |q| && i < |p|
    ensures Abs(q[i] - p[i]) <= Delta(p, q)
  {
    if i < |p| - 1 { DeltaIsLargest(p[..|p| - 1], q[..|q| - 1], i); }
  }

  lemma {:induction false} DeltaIsReached(p: seq<real>, q: seq<real>)
    requires |p| == |q| && p != []
    ensures exists i :: 0 <= i < |p| && Abs(q[i] - p[i]) == Delta(p, q)
  {
    var front, back := p[..|p| - 1], q[..|q| - 1];
    if front != [] {
      DeltaIsReached(front, back);
      var i :| 0 <= i < |front| && Abs(back[i] - front[i]) == Delta(front, back);
      assert Abs(q[i] - p[i]) == Delta(front, back);
    }
    assert Abs(q[|p| - 1] - p[|p| - 1]) == Delta(p, q) || Delta(p, q) == Delta(front, back);
  }

  ghost function Slack(tol: real, x: real): real { 2.0 * tol * x }

  ghost predicate Near(x: real, y: real, slack: real) { Abs(x - y) <= slack }

  lemma NearAdd(x: real, y: real, a: real, u: real, v: real, b: real, tol: real)
    requires Near(x, y, Slack(tol, a)) && Near(u, v, Slack(tol, b))
    ensures Near(x + u, y + v, Slack(tol, a + b))
  {
  }

  /** Games against one opponent, expected under strengths that moved by at most the tolerance. */
  lemma OneNear(g: real, a: real, b: real, s: real, tol: real, y: real)
    requires g >= 0.0 && a >= 0.0 && b >= 0.0 && tol >= 0.0
    requires g > 0.0 ==> s > 0.0 && a + b > 0.0
    requires Near(s, a + b, 2.0 * tol) && IsProduct(y, a, Term(g, s))
    ensures Near(y, ExpectedOf(g, a, b), Slack(tol, Term(g, s)))
  {
    if g > 0.0 { MovedQuotient(g, a, s, a + b, tol); }
  }

  lemma MovedQuotient(g: real, a: real, s: real, r: real, tol: real)
    requires g > 0.0 && s > 0.0 && 0.0 <= a <= r && r > 0.0 && Near(s, r, 2.0 * tol)
    ensures Near(a * (g / s), g * (a / r), Slack(tol, g / s))
  {
    ShareInUnit(a, r);
    MovedBy(g, a, s, r, tol, g / s, a / r);
  }

  lemma MovedBy(g: real, a: real, s: real, r: real, tol: real, x: real, y: real)
    requires x >= 0.0 && 0.0 <= y <= 1.0 && Near(s, r, 2.0 * tol) && g == x * s && a == y * r
    ensures Near(a * x, g * y, Slack(tol, x))
  {
    SameProducts(x, y, r, s, a, g);
    MovedProduct(x, y, s, r, tol, a * x, g * y);
  }

  lemma SameProducts(x: real, y: real, r: real, s: real, a: real, g: real)
    requires a == y * r && g == x * s
    ensures a * x == x * y * r && g * y == x * y * s
  {
    assert a * x == (y * r) * x && g * y == (x * s) * y;
    assert (y * r) * x == x * y * r && (x * s) * y == x * y * s;
  }

  lemma ShareInUnit(a: real, r: real)
    requires 0.0 <= a <= r && r > 0.0
    ensures 0.0 <= a / r <= 1.0
  {
  }

  lemma MovedProduct(x: real, y: real, s: real, r: real, tol: real, u: real, v: real)
    requires x >= 0.0 && 0.0 <= y <= 1.0 && Near(s, r, 2.0 * tol) && u == x * y * r && v == x * y * s
    ensures Near(u, v, Slack(tol, x))
  {
    PartOf(x, y);
    MovedScaled(x * y, x, s, r, tol, u, v);
  }

  lemma PartOf(x: real, y: real)
    requires x >= 0.0 && 0.0 <= y <= 1.0
    ensures 0.0 <= x * y <= x
  {
    assert x * (1.0 - y) >= 0.0;
  }

  lemma MovedScaled(z: real, x: real, s: real, r: real, tol: real, u: real, v: real)
    requires 0.0 <= z <= x && Near(s, r, 2.0 * tol) && u == z * r && v == z * s
    ensures Near(u, v, Slack(tol, x))
  {
    var m := Abs(s - r);
    assert Abs(u - v) == z * m by { assert u - v == z * (r - s); }
    assert z * m <= x * m by { assert (x - z) * m >= 0.0; }
    assert x * m <= x * (2.0 * tol) by { assert x * (2.0 * tol - m) >= 0.0; }
  }

  ghost predicate Moved(p: seq<real>, q: seq<real>, tol: real) {
    |p| == |q| && forall i :: 0 <= i < |p| ==> Abs(q[i] - p[i]) <= tol
  }

  lemma MovedSum(p: seq<real>, q: seq<real>, tol: real, i: nat, j: nat)
    requires Moved(p, q, tol) && i < |p| && j < |p|
    ensures Near(p[i] + p[j], q[i] + q[j], 2.0 * tol)
  {
    assert Abs(q[i] - p[i]) <= tol && Abs(q[j] - p[j]) <= tol;
  }

  lemma OneMoved(w: nat -> real, g: (nat, nat) -> real, p: seq<real>, q: seq<real>, tol: real, i: nat, j: nat,
                 y: real)
    requires Consistent(w, g) && Alive(w, g, p) && Alive(w, g, q) && Moved(p, q, tol) && tol >= 0.0
    requires i < |p| && j < |p| && i != j && IsProduct(y, q[i], Term(g(i, j), p[i] + p[j]))
    ensures Near(y, ExpectedOf(g(i, j), q[i], q[j]), Slack(tol, Term(g(i, j), p[i] + p[j])))
  {
    if g(i, j) != 0.0 {
      SafeDivision(w, g, p, i, j);
      SafeDivision(w, g, q, i, j);
    }
    MovedSum(p, q, tol, i, j);
    OneNear(g(i, j), q[i], q[j], p[i] + p[j], tol, y);
  }

  lemma ProductOf(a: real, b: real) returns (y: real)
    ensures IsProduct(y, a, b)
  {
    y := a * b;
  }

  /** The wins a round answered, against the wins expected under the strengths it answered with. */
  lemma {:induction false} AnsweredNear(w: nat -> real, g: (nat, nat) -> real, p: seq<real>, q: seq<real>, tol: real,
                                        i: nat, n: nat)
    returns (x: real)
    requires Consistent(w, g) && Alive(w, g, p) && Alive(w, g, q) && Moved(p, q, tol) && tol >= 0.0
    requires i < |p| && n <= |p|
    ensures IsProduct(x, q[i], Denominator(g, p, i, n))
    ensures Near(x, ExpectedWins(g, q, i, n), Slack(tol, Denominator(g, p, i, n)))
  {
    if n == 0 { return 0.0; }
    x := AnsweredNear(w, g, p, q, tol, i, n - 1);
    if n - 1 != i {
      var term, d := Term(g(i, n - 1), p[i] + p[n - 1]), Denominator(g, p, i, n - 1);
      var y := ProductOf(q[i], term);
      OneMoved(w, g, p, q, tol, i, n - 1, y);
      NearAdd(x, ExpectedWins(g, q, i, n - 1), d, y, ExpectedOf(g(i, n - 1), q[i], q[n - 1]), term, tol);
      OneMoreProduct(q[i], x, d, y, term);
      x := x + y;
    }
  }

  /** Wins miss a factor times the expected wins by a part of the expected wins that is small with the tolerance. */
  ghost predicate Misses(won: real, t: real, expected: real, tol: real, strength: real, before: real) {
    Abs(won - t * expected) * strength <= 2.0 * tol * (t * before)
  }

  lemma MissesScaled(won: real, t: real, x: real, expected: real, tol: real, dd: real, strength: real, before: real)
    requires t > 0.0 && strength >= 0.0 && IsProduct(won, t, x) && Near(x, expected, Slack(tol, dd))
    requires IsProduct(before, strength, dd)
    ensures Misses(won, t, expected, tol, strength, before)
  {
    var m, s := Abs(x - expected), 2.0 * tol * dd;
    Distributes(t, x, expected);
    AbsScales(t, x - expected);
    ScalesUp(t, strength, m, s);
    Regroups(t, strength, tol, dd, before);
  }

  lemma Distributes(t: real, x: real, y: real)
    ensures t * (x - y) == t * x - t * y
  {
  }

  lemma AbsScales(t: real, a: real)
    requires t > 0.0
    ensures Abs(t * a) == t * Abs(a)
  {
    if a >= 0.0 { assert t * a >= 0.0; } else { assert t * -a >= 0.0; }
  }

  lemma NonNegative(x: real, y: real)
    requires x >= 0.0 && y >= 0.0
    ensures x * y >= 0.0
  {
  }

  lemma ScalesUp(t: real, strength: real, m: real, s: real)
    requires t > 0.0 && strength >= 0.0 && m <= s
    ensures t * m * strength <= t * strength * s
  {
    NonNegative(t, strength);
    NonNegative(t * strength, s - m);
    Distributes(t * strength, s, m);
    assert t * m * strength == t * strength * m;
  }

  lemma Regroups(t: real, strength: real, tol: real, dd: real, before: real)
    requires before == strength * dd
    ensures t * strength * (2.0 * tol * dd) == 2.0 * tol * (t * before)
  {
    assert t * strength * (2.0 * tol * dd) == 2.0 * tol * (t * (strength * dd));
  }

  lemma AnswerIsProduct(won: real, t: real, q: real, dd: real, x: real)
    requires Answers(won, t, q, dd) && IsProduct(x, q, dd)
    ensures IsProduct(won, t, x)
  {
  }

  /** A round that moved no strength by more than the tolerance. */
  lemma SmallRoundMisses(w: nat -> real, g: (nat, nat) -> real, p: seq<real>, tol: real, i: nat)
    requires Consistent(w, g) && Alive(w, g, p) && i < |p| && PlayedAnother(g, |p|, i)
    requires tol >= 0.0 && Moved(p, Round(w, g, p), tol)
    ensures Misses(w(i), Factor(w, g, p), ExpectedWins(g, Round(w, g, p), i, |p|), tol, p[i],
                   ExpectedWins(g, p, i, |p|))
  {
    var q, dd, t := Round(w, g, p), Denominator(g, p, i, |p|), Factor(w, g, p);
    RoundKeeps(w, g, p);
    RoundDividesTwice(w, g, p, i);
    RoundAnswersWins(w, g, p, i);
    var x := AnsweredNear(w, g, p, q, tol, i, |p|);
    AnswerIsProduct(w(i), t, q[i], dd, x);
    ExpectedIsDenominator(g, p, i, |p|);
    MissesScaled(w(i), t, x, ExpectedWins(g, q, i, |p|), tol, dd, p[i], ExpectedWins(g, p, i, |p|));
  }

  /** The last round of an iteration: the strengths before it, and how many rounds were made. */
  lemma {:induction false} LastRound(w: nat -> real, g: (nat, nat) -> real, p: seq<real>, rounds: nat, tol: real)
    returns (before: seq<real>, made: nat)
    requires Consistent(w, g) && Alive(w, g, p) && rounds > 0
    ensures Alive(w, g, before) && |before| == |p| && Iterate(w, g, p, rounds, tol) == Round(w, g, before)
    ensures 1 <= made <= rounds
    ensures made < rounds ==> Delta(before, Iterate(w, g, p, rounds, tol)) < tol
    decreases rounds
  {
    var q := Round(w, g, p);
    RoundKeeps(w, g, p);
    if Delta(p, q) < tol || rounds == 1 {
      return p, 1;
    }
    before, made := LastRound(w, g, q, rounds - 1, tol);
    made := made + 1;
  }

  /**
   The strengths of a tournament, whenever the iteration stops before its last round: every
   candidate that met another has won one common factor times what these strengths expect it to win,
   up to an error that is small with the tolerance.
   */
  lemma StoppedStrengths(candidates: seq<string>, outcomes: seq<Outcome>, maxIter: nat, tol: real)
    returns (before: seq<real>, made: nat)
    requires candidates != [] && maxIter > 0 && Balanced(candidates, outcomes)
    ensures var w, g := Wins(candidates, outcomes), Games(candidates, outcomes);
            var p := Strengths(candidates, outcomes, maxIter, tol);
            && |before| == |p| && Alive(w, g, before) && p == Round(w, g, before) && 1 <= made <= maxIter
            && (made < maxIter ==>
                  forall i :: 0 <= i < |p| && PlayedAnother(g, |p|, i) ==>
                    Misses(w(i), Factor(w, g, before), ExpectedWins(g, p, i, |p|), tol, before[i],
                           ExpectedWins(g, before, i, |p|)))
  {
    var w, g := Wins(candidates, outcomes), Games(candidates, outcomes);
    OnesAlive(w, g, |candidates|);
    before, made := LastRound(w, g, Ones(|candidates|), maxIter, tol);
    var p := Strengths(candidates, outcomes, maxIter, tol);
    if made < maxIter {
      forall i | 0 <= i < |p| && PlayedAnother(g, |p|, i)
        ensures Misses(w(i), Factor(w, g, before), ExpectedWins(g, p, i, |p|), tol, before[i],
                       ExpectedWins(g, before, i, |p|))
      {
        SmallDelta(before, p, tol);
        SmallRoundMisses(w, g, before, tol, i);
      }
    }
  }

  lemma SmallDelta(p: seq<real>, q: seq<real>, tol: real)
    requires |p| == |q| && p != [] && Delta(p, q) < tol
    ensures Moved(p, q, tol) && tol >= 0.0
  {
    forall i | 0 <= i < |p| { DeltaIsLargest(p, q, i); }
    DeltaIsLargest(p, q, 0);
  }
}
