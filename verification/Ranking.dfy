/**
 Ranking the candidates of a pairwise tournament (optimization/ranking.py):
 Bradley-Terry strengths by Hunter's MM iteration.
 */
module Ranking {
  import opened Wrappers
  import opened Sums
  import opened Ordering

  datatype Outcome = Outcome(winner: string, loser: string, tie: bool, weight: real)

  datatype Row = Row(candidate: string, score: real, wins: int, losses: int, ties: int, comparisons: int)

  // ---- Wins and games ----

  /** The position of a candidate; of equal entries the last counts, as in the source's index map. */
  function Index(candidates: seq<string>, c: string): (i: nat)
    requires c in candidates
    ensures i < |candidates| && candidates[i] == c
    ensures forall j :: i < j < |candidates| ==> candidates[j] != c
  {
    if candidates[|candidates| - 1] == c then |candidates| - 1 else Index(candidates[..|candidates| - 1], c)
  }

  predicate Known(candidates: seq<string>, o: Outcome) { o.winner in candidates && o.loser in candidates }

  /** What one outcome adds to candidate i's fractional wins. */
  function WinShare(candidates: seq<string>, i: nat): Outcome -> real {
    (o: Outcome) =>
      if !Known(candidates, o) then 0.0
      else if o.tie then
        (if Index(candidates, o.winner) == i then 0.5 * o.weight else 0.0)
        + (if Index(candidates, o.loser) == i then 0.5 * o.weight else 0.0)
      else if Index(candidates, o.winner) == i then o.weight else 0.0
  }

  /** What one outcome adds to the games between i and j; a game of i against itself counts twice. */
  function GameShare(candidates: seq<string>, i: nat, j: nat): Outcome -> real {
    (o: Outcome) =>
      if !Known(candidates, o) then 0.0
      else
        (if Index(candidates, o.winner) == i && Index(candidates, o.loser) == j then o.weight else 0.0)
        + (if Index(candidates, o.loser) == i && Index(candidates, o.winner) == j then o.weight else 0.0)
  }

  function Wins(candidates: seq<string>, outcomes: seq<Outcome>): nat -> real {
    (i: nat) => Sum(outcomes, WinShare(candidates, i))
  }
  function Games(candidates: seq<string>, outcomes: seq<Outcome>): (nat, nat) -> real {
    (i: nat, j: nat) => Sum(outcomes, GameShare(candidates, i, j))
  }

  /** What the tables of a tournament with non-negative weights satisfy. */
  ghost predicate Consistent(w: nat -> real, g: (nat, nat) -> real) {
    && (forall i :: w(i) >= 0.0)
    && (forall i, j :: g(i, j) >= 0.0 && g(i, j) == g(j, i))
    && (forall i, j :: g(i, j) > 0.0 ==> w(i) > 0.0 || w(j) > 0.0)
  }

  lemma {:induction false} SumNonNegative<T>(s: seq<T>, f: T -> real)
    requires forall x :: x in s ==> f(x) >= 0.0
    ensures Sum(s, f) >= 0.0
    ensures Sum(s, f) > 0.0 <==> exists x :: x in s && f(x) > 0.0
  {
    if s != [] {
      assert s[0] in s;
      SumNonNegative(s[1..], f);
      assert forall x :: x in s <==> x == s[0] || x in s[1..];
    }
  }

  ghost predicate Weighted(outcomes: seq<Outcome>) { forall o :: o in outcomes ==> o.weight >= 0.0 }

  lemma WinsNonNegative(candidates: seq<string>, outcomes: seq<Outcome>, i: nat)
    requires Weighted(outcomes)
    ensures Wins(candidates, outcomes)(i) >= 0.0
    ensures Wins(candidates, outcomes)(i) > 0.0 <==> exists o :: o in outcomes && WinShare(candidates, i)(o) > 0.0
  {
    SumNonNegative(outcomes, WinShare(candidates, i));
  }

  /** A positive game between two candidates gives one of them a positive share of a win. */
  lemma GameGivesWin(candidates: seq<string>, outcomes: seq<Outcome>, i: nat, j: nat)
    requires Weighted(outcomes)
    ensures Games(candidates, outcomes)(i, j) >= 0.0
    ensures Games(candidates, outcomes)(i, j) > 0.0 ==>
              Wins(candidates, outcomes)(i) > 0.0 || Wins(candidates, outcomes)(j) > 0.0
  {
    SumNonNegative(outcomes, GameShare(candidates, i, j));
    WinsNonNegative(candidates, outcomes, i);
    WinsNonNegative(candidates, outcomes, j);
    if Games(candidates, outcomes)(i, j) > 0.0 {
      var o :| o in outcomes && GameShare(candidates, i, j)(o) > 0.0;
      assert WinShare(candidates, i)(o) > 0.0 || WinShare(candidates, j)(o) > 0.0;
    }
  }

  /** The game matrix is symmetric. */
  lemma GamesSymmetric(candidates: seq<string>, outcomes: seq<Outcome>, i: nat, j: nat)
    ensures Games(candidates, outcomes)(i, j) == Games(candidates, outcomes)(j, i)
  {
    SumExtensional(outcomes, GameShare(candidates, i, j), GameShare(candidates, j, i));
  }

  /** Negative weights may cancel: only the tables count. */
  ghost predicate Balanced(candidates: seq<string>, outcomes: seq<Outcome>) {
    Consistent(Wins(candidates, outcomes), Games(candidates, outcomes))
  }

  /** Non-negative weights make consistent tables. */
  lemma TablesConsistent(candidates: seq<string>, outcomes: seq<Outcome>)
    requires Weighted(outcomes)
    ensures Balanced(candidates, outcomes)
  {
    var w, g := Wins(candidates, outcomes), Games(candidates, outcomes);
    forall i: nat { WinsNonNegative(candidates, outcomes, i); }
    forall i: nat, j: nat
      ensures g(i, j) >= 0.0 && g(i, j) == g(j, i) && (g(i, j) > 0.0 ==> w(i) > 0.0 || w(j) > 0.0)
    {
      GameGivesWin(candidates, outcomes, i, j);
      GamesSymmetric(candidates, outcomes, i, j);
    }
  }

  // ---- Conservation ----

  function KnownWeight(candidates: seq<string>): Outcome -> real {
    (o: Outcome) => if Known(candidates, o) then o.weight else 0.0
  }

  function WinsUpTo(candidates: seq<string>, outcomes: seq<Outcome>, n: nat): real {
    if n == 0 then 0.0 else WinsUpTo(candidates, outcomes, n - 1) + Wins(candidates, outcomes)(n - 1)
  }

  function SharesUpTo(candidates: seq<string>, n: nat): Outcome -> real {
    (o: Outcome) => SharesOf(candidates, o, n)
  }
  function SharesOf(candidates: seq<string>, o: Outcome, n: nat): real {
    if n == 0 then 0.0 else SharesOf(candidates, o, n - 1) + WinShare(candidates, n - 1)(o)
  }

  lemma {:induction false} WinsExchange(candidates: seq<string>, outcomes: seq<Outcome>, n: nat)
    ensures WinsUpTo(candidates, outcomes, n) == Sum(outcomes, SharesUpTo(candidates, n))
  {
    if n == 0 {
      SumZero(outcomes, SharesUpTo(candidates, 0));
    } else {
      WinsExchange(candidates, outcomes, n - 1);
      SumAdd(outcomes, SharesUpTo(candidates, n - 1), WinShare(candidates, n - 1), SharesUpTo(candidates, n));
    }
  }

  lemma {:induction false} SumZero<T>(s: seq<T>, f: T -> real)
    requires forall x :: x in s ==> f(x) == 0.0
    ensures Sum(s, f) == 0.0
  {
    if s != [] { SumZero(s[1..], f); }
  }

  /** Shares of one outcome over the first n positions. */
  lemma {:induction false} ShareSplit(candidates: seq<string>, o: Outcome, n: nat)
    requires Known(candidates, o)
    ensures var i, j := Index(candidates, o.winner), Index(candidates, o.loser);
            SharesOf(candidates, o, n)
            == if o.tie then (if i < n then 0.5 * o.weight else 0.0) + (if j < n then 0.5 * o.weight else 0.0)
               else if i < n then o.weight else 0.0
  {
    if n > 0 { ShareSplit(candidates, o, n - 1); }
  }

  lemma {:induction false} UnknownShare(candidates: seq<string>, o: Outcome, n: nat)
    requires !Known(candidates, o)
    ensures SharesOf(candidates, o, n) == 0.0
  {
    if n > 0 { UnknownShare(candidates, o, n - 1); }
  }

  /** Fractional wins are conserved: they add up to the weight of the outcomes between known candidates. */
  lemma WinsConserved(candidates: seq<string>, outcomes: seq<Outcome>)
    ensures WinsUpTo(candidates, outcomes, |candidates|) == Sum(outcomes, KnownWeight(candidates))
  {
    WinsExchange(candidates, outcomes, |candidates|);
    forall o | o in outcomes
      ensures SharesUpTo(candidates, |candidates|)(o) == KnownWeight(candidates)(o)
    {
      if Known(candidates, o) {
        ShareSplit(candidates, o, |candidates|);
      } else {
        UnknownShare(candidates, o, |candidates|);
      }
    }
    SumExtensional(outcomes, SharesUpTo(candidates, |candidates|), KnownWeight(candidates));
  }

  // ---- One round ----

  function Term(g: real, s: real): real { if g == 0.0 || s == 0.0 then 0.0 else g / s }

  /** The denominator of candidate i over its first j opponents. */
  function Denominator(g: (nat, nat) -> real, p: seq<real>, i: nat, j: nat): real
    requires i < |p| && j <= |p|
  {
    if j == 0 then 0.0
    else Denominator(g, p, i, j - 1) + if j - 1 == i then 0.0 else Term(g(i, j - 1), p[i] + p[j - 1])
  }

  function Quotient(a: real, b: real): real
    requires b != 0.0
  {
    a / b
  }

  function NewStrength(w: nat -> real, g: (nat, nat) -> real, p: seq<real>, i: nat): real
    requires i < |p|
  {
    var d := Denominator(g, p, i, |p|);
    if d > 0.0 then Quotient(w(i), d) else p[i]
  }

  function Total(p: seq<real>): real {
    if p == [] then 0.0 else Total(p[..|p| - 1]) + p[|p| - 1]
  }

  function Unnormalized(w: nat -> real, g: (nat, nat) -> real, p: seq<real>): (q: seq<real>)
    ensures |q| == |p| && forall i :: 0 <= i < |p| ==> q[i] == NewStrength(w, g, p, i)
  {
    seq(|p|, i requires 0 <= i < |p| => NewStrength(w, g, p, i))
  }

  function Normalize(q: seq<real>): (r: seq<real>)
    ensures |r| == |q|
    ensures forall i :: 0 <= i < |q| ==> r[i] == Quotient(q[i], NonZero(Total(q)))
  {
    seq(|q|, i requires 0 <= i < |q| => Quotient(q[i], NonZero(Total(q))))
  }

  /** Python's `total or 1.0`. */
  function NonZero(total: real): (r: real)
    ensures r != 0.0
  {
    if total == 0.0 then 1.0 else total
  }

  function Round(w: nat -> real, g: (nat, nat) -> real, p: seq<real>): (q: seq<real>)
    ensures |q| == |p|
  {
    Normalize(Unnormalized(w, g, p))
  }

  function Abs(x: real): real { if x < 0.0 then -x else x }

  /** The largest change of any strength. */
  function Delta(p: seq<real>, q: seq<real>): real
    requires |p| == |q|
  {
    if p == [] then 0.0
    else
      var rest := Delta(p[..|p| - 1], q[..|q| - 1]);
      var last := Abs(q[|q| - 1] - p[|p| - 1]);
      if last > rest then last else rest
  }

  function Iterate(w: nat -> real, g: (nat, nat) -> real, p: seq<real>, rounds: nat, tol: real): (q: seq<real>)
    ensures |q| == |p|
    decreases rounds
  {
    if rounds == 0 then p
    else
      var q := Round(w, g, p);
      if Delta(p, q) < tol then q else Iterate(w, g, q, rounds - 1, tol)
  }

  /** Candidate i and each of the first j that met it have strengths that do not cancel. */
  ghost predicate Divides(g: (nat, nat) -> real, p: seq<real>, i: nat, j: nat)
    requires i < |p| && j <= |p|
  {
    forall k :: 0 <= k < j && k != i && g(i, k) != 0.0 ==> p[i] + p[k] != 0.0
  }

  ghost predicate RoundDivides(g: (nat, nat) -> real, p: seq<real>) {
    forall i :: 0 <= i < |p| ==> Divides(g, p, i, |p|)
  }

  /** No round of the iteration divides by zero. */
  ghost predicate Completes(w: nat -> real, g: (nat, nat) -> real, p: seq<real>, rounds: nat, tol: real)
    decreases rounds
  {
    rounds == 0
    || (RoundDivides(g, p)
        && var q := Round(w, g, p);
           Delta(p, q) < tol || Completes(w, g, q, rounds - 1, tol))
  }

  /** The iteration with its exception. */
  ghost function Attempt(w: nat -> real, g: (nat, nat) -> real, p: seq<real>, rounds: nat, tol: real)
    : Result<seq<real>>
  {
    if Completes(w, g, p, rounds, tol) then Ok(Iterate(w, g, p, rounds, tol)) else Err(ZeroDivisionError)
  }

  lemma AttemptRound(w: nat -> real, g: (nat, nat) -> real, p: seq<real>, rounds: nat, tol: real)
    requires rounds > 0
    ensures var q := Round(w, g, p);
            Attempt(w, g, p, rounds, tol)
            == if !RoundDivides(g, p) then Err(ZeroDivisionError)
               else if Delta(p, q) < tol then Ok(q)
               else Attempt(w, g, q, rounds - 1, tol)
  {
  }

  // ---- What a round keeps ----

  ghost predicate PlayedAnother(g: (nat, nat) -> real, n: nat, i: nat) {
    exists j :: 0 <= j < n && j != i && g(i, j) > 0.0
  }

  /** Non-negative strengths, not all zero; a zero only for a loser that met someone else. */
  ghost predicate Alive(w: nat -> real, g: (nat, nat) -> real, p: seq<real>) {
    && (forall i :: 0 <= i < |p| ==> p[i] >= 0.0)
    && Total(p) > 0.0
    && (forall i :: 0 <= i < |p| && p[i] == 0.0 ==> w(i) == 0.0 && PlayedAnother(g, |p|, i))
  }

  /** No division by zero: whoever two candidates are, a game between them leaves one with strength. */
  lemma SafeDivision(w: nat -> real, g: (nat, nat) -> real, p: seq<real>, i: nat, j: nat)
    requires Consistent(w, g) && Alive(w, g, p) && i < |p| && j < |p| && g(i, j) != 0.0
    ensures p[i] + p[j] > 0.0
  {
  }

  lemma TermPositive(g: real, s: real)
    requires g >= 0.0 && s >= 0.0 && (g > 0.0 ==> s > 0.0)
    ensures Term(g, s) >= 0.0 && (Term(g, s) > 0.0 <==> g > 0.0)
  {
  }

  lemma {:induction false} DenominatorPositive(w: nat -> real, g: (nat, nat) -> real, p: seq<real>, i: nat, j: nat)
    requires Consistent(w, g) && Alive(w, g, p) && i < |p| && j <= |p|
    ensures Denominator(g, p, i, j) >= 0.0
    ensures Denominator(g, p, i, j) > 0.0 <==> PlayedAnother(g, j, i)
  {
    if j > 0 {
      DenominatorPositive(w, g, p, i, j - 1);
      TermPositive(g(i, j - 1), p[i] + p[j - 1]);
    }
  }

  lemma {:induction false} TotalNonNegative(q: seq<real>)
    requires forall i :: 0 <= i < |q| ==> q[i] >= 0.0
    ensures Total(q) >= 0.0
    ensures Total(q) > 0.0 <==> exists i :: 0 <= i < |q| && q[i] > 0.0
  {
    if q != [] {
      var r := q[..|q| - 1];
      TotalNonNegative(r);
      if i :| 0 <= i < |q| && q[i] > 0.0 {
        assert i == |q| - 1 || r[i] > 0.0;
      }
    }
  }

  lemma QuotientSign(a: real, b: real)
    requires a >= 0.0 && b > 0.0
    ensures Quotient(a, b) >= 0.0 && (Quotient(a, b) > 0.0 <==> a > 0.0)
  {
  }

  /** A new strength is positive unless its candidate met someone and never won a share. */
  lemma NewStrengthSign(w: nat -> real, g: (nat, nat) -> real, p: seq<real>, i: nat)
    requires Consistent(w, g) && Alive(w, g, p) && i < |p|
    ensures NewStrength(w, g, p, i) >= 0.0
    ensures NewStrength(w, g, p, i) == 0.0 <==> w(i) == 0.0 && PlayedAnother(g, |p|, i)
  {
    DenominatorPositive(w, g, p, i, |p|);
    if Denominator(g, p, i, |p|) > 0.0 { QuotientSign(w(i), Denominator(g, p, i, |p|)); }
  }

  /** Someone keeps strength, so the renormalization divides by a positive total. */
  lemma SomeoneHasStrength(w: nat -> real, g: (nat, nat) -> real, p: seq<real>)
    requires Consistent(w, g) && Alive(w, g, p)
    ensures Total(Unnormalized(w, g, p)) > 0.0
  {
    var q := Unnormalized(w, g, p);
    forall i | 0 <= i < |p| { NewStrengthSign(w, g, p, i); }
    TotalNonNegative(p);
    var i :| 0 <= i < |p| && p[i] > 0.0;
    var k: nat := i;
    if q[i] == 0.0 {
      var j :| 0 <= j < |p| && j != i && g(i, j) > 0.0;
      k := j;
      assert w(j) > 0.0;
    }
    assert q[k] > 0.0;
    TotalNonNegative(q);
  }

  lemma {:induction false} TotalScaled(q: seq<real>, r: seq<real>, total: real)
    requires total != 0.0 && |q| == |r| && forall i :: 0 <= i < |q| ==> r[i] == Quotient(q[i], total)
    ensures Total(r) == Quotient(Total(q), total)
  {
    if q != [] {
      TotalScaled(q[..|q| - 1], r[..|r| - 1], total);
      QuotientAdd(Total(q[..|q| - 1]), q[|q| - 1], total);
    }
  }

  lemma QuotientAdd(a: real, b: real, c: real)
    requires c != 0.0
    ensures Quotient(a, c) + Quotient(b, c) == Quotient(a + b, c)
  {
  }

  lemma QuotientSelf(a: real)
    requires a != 0.0
    ensures Quotient(a, a) == 1.0
  {
  }

  /** After a round: strengths sum to 1, and are zero exactly for those who met someone and won nothing. */
  lemma RoundKeeps(w: nat -> real, g: (nat, nat) -> real, p: seq<real>)
    requires Consistent(w, g) && Alive(w, g, p)
    ensures var q := Round(w, g, p);
            && Alive(w, g, q) && Total(q) == 1.0
            && forall i :: 0 <= i < |q| ==> (q[i] == 0.0 <==> w(i) == 0.0 && PlayedAnother(g, |q|, i))
  {
    var raw, q := Unnormalized(w, g, p), Round(w, g, p);
    SomeoneHasStrength(w, g, p);
    TotalScaled(raw, q, Total(raw));
    QuotientSelf(Total(raw));
    forall i | 0 <= i < |q|
      ensures q[i] >= 0.0 && (q[i] == 0.0 <==> w(i) == 0.0 && PlayedAnother(g, |q|, i))
    {
      NewStrengthSign(w, g, p, i);
      QuotientSign(raw[i], Total(raw));
    }
  }

  lemma {:induction false} IterateKeeps(w: nat -> real, g: (nat, nat) -> real, p: seq<real>, rounds: nat, tol: real)
    requires Consistent(w, g) && Alive(w, g, p)
    ensures var q := Iterate(w, g, p, rounds, tol);
            && Alive(w, g, q)
            && (rounds > 0 ==>
                  && Total(q) == 1.0
                  && forall i :: 0 <= i < |q| ==> (q[i] == 0.0 <==> w(i) == 0.0 && PlayedAnother(g, |q|, i)))
    decreases rounds
  {
    if rounds > 0 {
      RoundKeeps(w, g, p);
      var q := Round(w, g, p);
      if !(Delta(p, q) < tol) { IterateKeeps(w, g, q, rounds - 1, tol); }
    }
  }

  lemma AliveDivides(w: nat -> real, g: (nat, nat) -> real, p: seq<real>)
    requires Consistent(w, g) && Alive(w, g, p)
    ensures RoundDivides(g, p)
  {
    forall i, k | 0 <= i < |p| && 0 <= k < |p| && k != i && g(i, k) != 0.0
      ensures p[i] + p[k] != 0.0
    {
      SafeDivision(w, g, p, i, k);
    }
  }

  lemma {:induction false} IterateCompletes(w: nat -> real, g: (nat, nat) -> real, p: seq<real>, rounds: nat,
                                            tol: real)
    requires Consistent(w, g) && Alive(w, g, p)
    ensures Completes(w, g, p, rounds, tol)
    decreases rounds
  {
    if rounds > 0 {
      AliveDivides(w, g, p);
      RoundKeeps(w, g, p);
      IterateCompletes(w, g, Round(w, g, p), rounds - 1, tol);
    }
  }

  function Ones(n: nat): (p: seq<real>)
    ensures |p| == n && forall i :: 0 <= i < n ==> p[i] == 1.0
  {
    if n == 0 then [] else Ones(n - 1) + [1.0]
  }

  lemma OnesAlive(w: nat -> real, g: (nat, nat) -> real, n: nat)
    requires n > 0
    ensures Alive(w, g, Ones(n))
  {
    TotalNonNegative(Ones(n));
    assert Ones(n)[0] > 0.0;
  }

  /** The strengths of a tournament of two or more. */
  function Strengths(candidates: seq<string>, outcomes: seq<Outcome>, maxIter: nat, tol: real): (p: seq<real>)
    ensures |p| == |candidates|
  {
    Iterate(Wins(candidates, outcomes), Games(candidates, outcomes), Ones(|candidates|), maxIter, tol)
  }

  /**
   For any outcomes whose tables are consistent and at least one round: the strengths are
   non-negative, sum to 1, and are zero exactly for the candidates that played a positive-weight
   game against another candidate and took no share of a win.
   */
  lemma StrengthsAreDistribution(candidates: seq<string>, outcomes: seq<Outcome>, maxIter: nat, tol: real)
    requires candidates != [] && maxIter > 0 && Balanced(candidates, outcomes)
    ensures var p := Strengths(candidates, outcomes, maxIter, tol);
            && Total(p) == 1.0
            && forall i :: 0 <= i < |p| ==>
                 && p[i] >= 0.0
                 && (p[i] == 0.0 <==> Wins(candidates, outcomes)(i) == 0.0
                                      && PlayedAnother(Games(candidates, outcomes), |candidates|, i))
  {
    OnesAlive(Wins(candidates, outcomes), Games(candidates, outcomes), |candidates|);
    IterateKeeps(Wins(candidates, outcomes), Games(candidates, outcomes), Ones(|candidates|), maxIter, tol);
  }

  /** The computation of a tournament divides by no zero. */
  ghost predicate Computes(candidates: seq<string>, outcomes: seq<Outcome>, maxIter: nat, tol: real) {
    Completes(Wins(candidates, outcomes), Games(candidates, outcomes), Ones(|candidates|), maxIter, tol)
  }

  /**
   When the tables of wins and games are consistent, as they are with non-negative weights, no
   division by zero can happen, in any round.
   */
  lemma NeverDividesByZero(candidates: seq<string>, outcomes: seq<Outcome>, maxIter: nat, tol: real)
    requires candidates != [] && Balanced(candidates, outcomes)
    ensures Computes(candidates, outcomes, maxIter, tol)
  {
    OnesAlive(Wins(candidates, outcomes), Games(candidates, outcomes), |candidates|);
    IterateCompletes(Wins(candidates, outcomes), Games(candidates, outcomes), Ones(|candidates|), maxIter, tol);
  }

  const SOME_CANDIDATES: seq<string> := ["a", "b", "c"]
  const SOME_OUTCOMES := [Outcome("c", "a", false, -1.0), Outcome("b", "c", false, 3.0), Outcome("a", "b", false, 3.0)]

  /**
   A weight may be negative, and then a round can divide by zero: after the first round of these
   outcomes b and c have opposite strengths, and they have met.
   */
  lemma NegativeWeightDividesByZero()
    ensures !Computes(SOME_CANDIDATES, SOME_OUTCOMES, 2, 0.000001)
  {
    var w, g := Wins(SOME_CANDIDATES, SOME_OUTCOMES), Games(SOME_CANDIDATES, SOME_OUTCOMES);
    SomeTables();
    OppositeAfterRound(w, g);
    StopsInSecondRound(w, g, Ones(3), Round(w, g, Ones(3)), 0.000001);
  }

  lemma StopsInSecondRound(w: nat -> real, g: (nat, nat) -> real, p: seq<real>, q: seq<real>, tol: real)
    requires q == Round(w, g, p) && |p| == 3 && tol <= 1.0
    requires q[1] + q[2] == 0.0 && g(1, 2) != 0.0 && Abs(q[2] - p[2]) > 1.0
    ensures !Completes(w, g, p, 2, tol)
  {
    assert !Divides(g, q, 1, 3);
    assert Delta(p, q) > 1.0;
  }

  ghost predicate SomeFigures(w: nat -> real, g: (nat, nat) -> real) {
    && w(0) == 3.0 && w(1) == 3.0 && w(2) == -1.0
    && g(0, 1) == 3.0 && g(1, 0) == 3.0 && g(1, 2) == 3.0 && g(2, 1) == 3.0 && g(0, 2) == -1.0 && g(2, 0) == -1.0
  }

  lemma SomeTables()
    ensures SomeFigures(Wins(SOME_CANDIDATES, SOME_OUTCOMES), Games(SOME_CANDIDATES, SOME_OUTCOMES))
  {
    var w, g := Wins(SOME_CANDIDATES, SOME_OUTCOMES), Games(SOME_CANDIDATES, SOME_OUTCOMES);
    ThreeIndices();
    forall i: nat
      ensures w(i) == WinShare(SOME_CANDIDATES, i)(SOME_OUTCOMES[0]) + WinShare(SOME_CANDIDATES, i)(SOME_OUTCOMES[1])
                      + WinShare(SOME_CANDIDATES, i)(SOME_OUTCOMES[2])
    {
      ThreeOutcomes(SOME_OUTCOMES, WinShare(SOME_CANDIDATES, i));
    }
    forall i: nat, j: nat
      ensures g(i, j) == GameShare(SOME_CANDIDATES, i, j)(SOME_OUTCOMES[0])
                         + GameShare(SOME_CANDIDATES, i, j)(SOME_OUTCOMES[1])
                         + GameShare(SOME_CANDIDATES, i, j)(SOME_OUTCOMES[2])
    {
      ThreeOutcomes(SOME_OUTCOMES, GameShare(SOME_CANDIDATES, i, j));
    }
  }

  lemma ThreeIndices()
    ensures Index(["a", "b", "c"], "a") == 0 && Index(["a", "b", "c"], "b") == 1 && Index(["a", "b", "c"], "c") == 2
  {
    assert ["a", "b", "c"][0] == "a" && ["a", "b", "c"][1] == "b" && ["a", "b", "c"][2] == "c";
  }

  lemma ThreeOutcomes(s: seq<Outcome>, f: Outcome -> real)
    requires |s| == 3
    ensures Sum(s, f) == f(s[0]) + f(s[1]) + f(s[2])
  {
    assert s[1..][1..] == [s[2]] && [s[2]][1..] == [];
    assert Sum([s[2]], f) == f(s[2]) + Sum([], f);
    assert Sum(s[1..], f) == f(s[1]) + Sum([s[2]], f);
  }

  lemma OppositeAfterRound(w: nat -> real, g: (nat, nat) -> real)
    requires SomeFigures(w, g)
    ensures var q := Round(w, g, Ones(3)); q[1] + q[2] == 0.0 && q[2] == -1.0 / 3.0
  {
    var p := Ones(3);
    var q := Unnormalized(w, g, p);
    ThreeTerms(g, p, 0);
    ThreeTerms(g, p, 1);
    ThreeTerms(g, p, 2);
    assert q[0] == 3.0 && q[1] == 1.0 && q[2] == -1.0;
    ThreeTotal(q);
  }

  lemma ThreeTotal(q: seq<real>)
    requires |q| == 3
    ensures Total(q) == q[0] + q[1] + q[2]
  {
    assert q[..2][..1] == [q[0]] && [q[0]][..0] == [];
    assert Total([q[0]]) == Total([]) + q[0];
    assert Total(q[..2]) == Total([q[0]]) + q[1];
  }

  lemma ThreeTerms(g: (nat, nat) -> real, p: seq<real>, i: nat)
    requires i < |p| == 3 && p == Ones(3)
    ensures Denominator(g, p, i, 3)
            == (if i == 0 then 0.0 else g(i, 0) / 2.0)
             + (if i == 1 then 0.0 else g(i, 1) / 2.0)
             + (if i == 2 then 0.0 else g(i, 2) / 2.0)
  {
    forall j: nat | j < 3
      ensures Term(g(i, j), p[i] + p[j]) == g(i, j) / 2.0
    {
    }
    assert Denominator(g, p, i, 1) == if i == 0 then 0.0 else g(i, 0) / 2.0;
  }

  // ---- The computation ----

  /** `wins` and `games`, accumulated in place over the outcomes. */
  method Tabulate(candidates: seq<string>, outcomes: seq<Outcome>) returns (wins: array<real>, games: array2<real>)
    ensures fresh(wins) && fresh(games)
    ensures wins.Length == games.Length0 == games.Length1 == |candidates|
    ensures forall i :: 0 <= i < |candidates| ==> wins[i] == Wins(candidates, outcomes)(i)
    ensures forall i, j :: 0 <= i < |candidates| && 0 <= j < |candidates| ==>
              games[i, j] == Games(candidates, outcomes)(i, j)
  {
    var n := |candidates|;
    wins := new real[n](_ => 0.0);
    games := new real[n, n]((_, _) => 0.0);
    for m := 0 to |outcomes|
      invariant fresh(wins) && fresh(games)
      invariant forall i :: 0 <= i < n ==> wins[i] == Wins(candidates, outcomes[..m])(i)
      invariant forall i, j :: 0 <= i < n && 0 <= j < n ==> games[i, j] == Games(candidates, outcomes[..m])(i, j)
    {
      forall i: nat { SumSnoc(outcomes, m, WinShare(candidates, i)); }
      forall i: nat, j: nat { SumSnoc(outcomes, m, GameShare(candidates, i, j)); }
      Record(candidates, outcomes[m], wins, games);
    }
    assert outcomes[..|outcomes|] == outcomes;
  }

  /** One outcome; an outcome that names an unknown candidate changes nothing. */
  method Record(candidates: seq<string>, o: Outcome, wins: array<real>, games: array2<real>)
    requires wins.Length == games.Length0 == games.Length1 == |candidates|
    modifies wins, games
    ensures forall i :: 0 <= i < |candidates| ==> wins[i] == old(wins[i]) + WinShare(candidates, i)(o)
    ensures forall i, j :: 0 <= i < |candidates| && 0 <= j < |candidates| ==>
              games[i, j] == old(games[i, j]) + GameShare(candidates, i, j)(o)
  {
    if !Known(candidates, o) { return; }
    var i, j := Index(candidates, o.winner), Index(candidates, o.loser);
    games[i, j] := games[i, j] + o.weight;
    games[j, i] := games[j, i] + o.weight;
    if o.tie {
      wins[i] := wins[i] + 0.5 * o.weight;
      wins[j] := wins[j] + 0.5 * o.weight;
    } else {
      wins[i] := wins[i] + o.weight;
    }
  }

  /** The inner loop: candidate i's denominator, unless a strength cancels that of an opponent it met. */
  method Opponents(p: seq<real>, games: array2<real>, i: nat, ghost g: (nat, nat) -> real)
    returns (denom: Result<real>)
    requires i < |p| == games.Length0 == games.Length1
    requires forall a, b :: 0 <= a < |p| && 0 <= b < |p| ==> games[a, b] == g(a, b)
    ensures denom == if Divides(g, p, i, |p|) then Ok(Denominator(g, p, i, |p|)) else Err(ZeroDivisionError)
  {
    var d := 0.0;
    for j := 0 to |p|
      invariant Divides(g, p, i, j) && d == Denominator(g, p, i, j)
    {
      if i != j {
        var nij := games[i, j];
        if nij != 0.0 {
          if p[i] + p[j] == 0.0 { return Err(ZeroDivisionError); }
          d := d + nij / (p[i] + p[j]);
        }
      }
    }
    return Ok(d);
  }

  /** One round of the iteration. */
  method Improve(p: seq<real>, wins: array<real>, games: array2<real>, ghost w: nat -> real,
                 ghost g: (nat, nat) -> real)
    returns (r: Result<seq<real>>)
    requires |p| == wins.Length == games.Length0 == games.Length1
    requires forall a :: 0 <= a < |p| ==> wins[a] == w(a)
    requires forall a, b :: 0 <= a < |p| && 0 <= b < |p| ==> games[a, b] == g(a, b)
    ensures r == if RoundDivides(g, p) then Ok(Round(w, g, p)) else Err(ZeroDivisionError)
  {
    var n := |p|;
    var newP := new real[n];
    for i := 0 to n
      invariant forall a :: 0 <= a < i ==> Divides(g, p, a, n) && newP[a] == NewStrength(w, g, p, a)
    {
      var denom := Opponents(p, games, i, g);
      if denom.Err? { return Err(denom.error); }
      newP[i] := if denom.value > 0.0 then Quotient(wins[i], denom.value) else p[i];
    }
    assert newP[..] == Unnormalized(w, g, p);
    return Ok(Normalize(newP[..]));
  }

  /** The strengths, by at most `maxIter` rounds. */
  method MaximizeLikelihood(candidates: seq<string>, outcomes: seq<Outcome>, maxIter: nat, tol: real)
    returns (r: Result<seq<real>>)
    requires candidates != []
    ensures r == if Computes(candidates, outcomes, maxIter, tol) then Ok(Strengths(candidates, outcomes, maxIter, tol))
                 else Err(ZeroDivisionError)
  {
    ghost var w, g := Wins(candidates, outcomes), Games(candidates, outcomes);
    ghost var goal := Attempt(w, g, Ones(|candidates|), maxIter, tol);
    var wins, games := Tabulate(candidates, outcomes);
    var p := Ones(|candidates|);
    var done := false;
    var left := maxIter;
    while left > 0 && !done
      invariant |p| == |candidates|
      invariant forall a :: 0 <= a < |p| ==> wins[a] == w(a)
      invariant forall a, b :: 0 <= a < |p| && 0 <= b < |p| ==> games[a, b] == g(a, b)
      invariant goal == if done then Ok(p) else Attempt(w, g, p, left, tol)
      decreases left, !done
    {
      AttemptRound(w, g, p, left, tol);
      var q := Improve(p, wins, games, w, g);
      if q.Err? { return Err(q.error); }
      done := Delta(p, q.value) < tol;
      p, left := q.value, left - 1;
    }
    return Ok(p);
  }

  // ---- Rows ----

  function Won(c: string): Outcome -> int { (o: Outcome) => if !o.tie && o.winner == c then 1 else 0 }
  function Lost(c: string): Outcome -> int { (o: Outcome) => if !o.tie && o.loser == c then 1 else 0 }
  function Tied(c: string): Outcome -> int {
    (o: Outcome) =>
      if o.tie then (if o.winner == c then 1 else 0) + (if o.loser == c then 1 else 0) else 0
  }

  function RowOf(outcomes: seq<Outcome>, c: string, score: real): Row {
    var w, l, t := SumInt(outcomes, Won(c)), SumInt(outcomes, Lost(c)), SumInt(outcomes, Tied(c));
    Row(c, score, w, l, t, w + l + t)
  }

  predicate RowLe(a: Row, b: Row) { a.score > b.score || (a.score == b.score && TextLe(a.candidate, b.candidate)) }

  function UnsortedRows(candidates: seq<string>, scores: map<string, real>, outcomes: seq<Outcome>): seq<Row>
    requires forall c :: c in candidates ==> c in scores
  {
    if candidates == [] then []
    else [RowOf(outcomes, candidates[0], scores[candidates[0]])] + UnsortedRows(candidates[1..], scores, outcomes)
  }

  /** `_rows`: best first, equal scores by candidate id. */
  function Rows(candidates: seq<string>, scores: map<string, real>, outcomes: seq<Outcome>): seq<Row>
    requires forall c :: c in candidates ==> c in scores
  {
    Sort(UnsortedRows(candidates, scores, outcomes), RowLe)
  }

  function Scores(candidates: seq<string>, p: seq<real>): map<string, real>
    requires |p| == |candidates|
  {
    map c | c in candidates :: p[Index(candidates, c)]
  }

  function BradleyTerryRows(candidates: seq<string>, outcomes: seq<Outcome>, maxIter: nat, tol: real): seq<Row> {
    if candidates == [] then []
    else if |candidates| == 1 then Rows(candidates, map[candidates[0] := 1.0], outcomes)
    else Rows(candidates, Scores(candidates, Strengths(candidates, outcomes, maxIter, tol)), outcomes)
  }

  /** `bradley_terry`; it can fail only on inconsistent tables, and then only by dividing by zero. */
  method BradleyTerry(candidates: seq<string>, outcomes: seq<Outcome>, maxIter: nat, tol: real)
    returns (r: Result<seq<Row>>)
    ensures r.Ok? <==> |candidates| < 2 || Computes(candidates, outcomes, maxIter, tol)
    ensures r.Ok? ==> r.value == BradleyTerryRows(candidates, outcomes, maxIter, tol)
    ensures r.Err? ==> r.error == ZeroDivisionError && !Balanced(candidates, outcomes)
  {
    if candidates == [] { return Ok([]); }
    if |candidates| == 1 { return Ok(Rows(candidates, map[candidates[0] := 1.0], outcomes)); }
    if Balanced(candidates, outcomes) { NeverDividesByZero(candidates, outcomes, maxIter, tol); }
    var p := MaximizeLikelihood(candidates, outcomes, maxIter, tol);
    if p.Err? { return Err(p.error); }
    return Ok(Rows(candidates, Scores(candidates, p.value), outcomes));
  }

  // ---- Order does not matter ----

  ghost predicate SameTables(w: nat -> real, g: (nat, nat) -> real, w': nat -> real, g': (nat, nat) -> real) {
    (forall i :: w(i) == w'(i)) && (forall i, j :: g(i, j) == g'(i, j))
  }

  lemma {:induction false} DenominatorExtensional(w: nat -> real, g: (nat, nat) -> real, w': nat -> real,
                                                  g': (nat, nat) -> real, p: seq<real>, i: nat, j: nat)
    requires SameTables(w, g, w', g') && i < |p| && j <= |p|
    ensures Denominator(g, p, i, j) == Denominator(g', p, i, j)
  {
    if j > 0 { DenominatorExtensional(w, g, w', g', p, i, j - 1); }
  }

  lemma RoundExtensional(w: nat -> real, g: (nat, nat) -> real, w': nat -> real, g': (nat, nat) -> real, p: seq<real>)
    requires SameTables(w, g, w', g')
    ensures Round(w, g, p) == Round(w', g', p)
  {
    forall i | 0 <= i < |p|
      ensures NewStrength(w, g, p, i) == NewStrength(w', g', p, i)
    {
      DenominatorExtensional(w, g, w', g', p, i, |p|);
    }
    assert Unnormalized(w, g, p) == Unnormalized(w', g', p);
  }

  lemma {:induction false} IterateExtensional(w: nat -> real, g: (nat, nat) -> real, w': nat -> real,
                                              g': (nat, nat) -> real, p: seq<real>, rounds: nat, tol: real)
    requires SameTables(w, g, w', g')
    ensures Iterate(w, g, p, rounds, tol) == Iterate(w', g', p, rounds, tol)
    decreases rounds
  {
    if rounds > 0 {
      RoundExtensional(w, g, w', g', p);
      IterateExtensional(w, g, w', g', Round(w, g, p), rounds - 1, tol);
    }
  }

  lemma DividesExtensional(w: nat -> real, g: (nat, nat) -> real, w': nat -> real, g': (nat, nat) -> real, p: seq<real>)
    requires SameTables(w, g, w', g')
    ensures RoundDivides(g, p) <==> RoundDivides(g', p)
  {
    forall i | 0 <= i < |p|
      ensures Divides(g, p, i, |p|) <==> Divides(g', p, i, |p|)
    {
    }
  }

  lemma {:induction false} CompletesExtensional(w: nat -> real, g: (nat, nat) -> real, w': nat -> real,
                                                g': (nat, nat) -> real, p: seq<real>, rounds: nat, tol: real)
    requires SameTables(w, g, w', g')
    ensures Completes(w, g, p, rounds, tol) <==> Completes(w', g', p, rounds, tol)
    decreases rounds
  {
    if rounds > 0 {
      DividesExtensional(w, g, w', g', p);
      RoundExtensional(w, g, w', g', p);
      CompletesExtensional(w, g, w', g', Round(w, g, p), rounds - 1, tol);
    }
  }

  lemma {:induction false} UnsortedOrderFree(candidates: seq<string>, scores: map<string, real>,
                                             a: seq<Outcome>, b: seq<Outcome>)
    requires Permutes(a, b) && forall c :: c in candidates ==> c in scores
    ensures UnsortedRows(candidates, scores, a) == UnsortedRows(candidates, scores, b)
  {
    if candidates != [] {
      var c := candidates[0];
      SumIntPermutes(a, b, Won(c));
      SumIntPermutes(a, b, Lost(c));
      SumIntPermutes(a, b, Tied(c));
      UnsortedOrderFree(candidates[1..], scores, a, b);
    }
  }

  lemma TablesOrderFree(candidates: seq<string>, a: seq<Outcome>, b: seq<Outcome>)
    requires Permutes(a, b)
    ensures SameTables(Wins(candidates, a), Games(candidates, a), Wins(candidates, b), Games(candidates, b))
  {
    forall i: nat { SumPermutes(a, b, WinShare(candidates, i)); }
    forall i: nat, j: nat { SumPermutes(a, b, GameShare(candidates, i, j)); }
  }

  lemma StrengthsOrderFree(candidates: seq<string>, a: seq<Outcome>, b: seq<Outcome>, maxIter: nat, tol: real)
    requires Permutes(a, b)
    ensures Computes(candidates, a, maxIter, tol) <==> Computes(candidates, b, maxIter, tol)
    ensures Strengths(candidates, a, maxIter, tol) == Strengths(candidates, b, maxIter, tol)
  {
    TablesOrderFree(candidates, a, b);
    CompletesExtensional(Wins(candidates, a), Games(candidates, a), Wins(candidates, b), Games(candidates, b),
                         Ones(|candidates|), maxIter, tol);
    IterateExtensional(Wins(candidates, a), Games(candidates, a), Wins(candidates, b), Games(candidates, b),
                       Ones(|candidates|), maxIter, tol);
  }

  /** Neither the Bradley-Terry rows nor the exception depend on the order of the outcomes. */
  lemma BradleyTerryOrderFree(candidates: seq<string>, a: seq<Outcome>, b: seq<Outcome>, maxIter: nat, tol: real)
    requires Permutes(a, b)
    ensures Computes(candidates, a, maxIter, tol) <==> Computes(candidates, b, maxIter, tol)
    ensures BradleyTerryRows(candidates, a, maxIter, tol) == BradleyTerryRows(candidates, b, maxIter, tol)
  {
    StrengthsOrderFree(candidates, a, b, maxIter, tol);
    if |candidates| == 1 {
      UnsortedOrderFree(candidates, map[candidates[0] := 1.0], a, b);
    } else if candidates != [] {
      UnsortedOrderFree(candidates, Scores(candidates, Strengths(candidates, a, maxIter, tol)), a, b);
    }
  }
}
