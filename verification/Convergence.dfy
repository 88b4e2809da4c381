/**
 The plateau test of the optimization run against its own documentation (optimization/loop.py,
 arena/schemas.py): `has_converged` compares the latest value with the best of the `patience`
 values before it, while the documentation promises a comparison of the best of the last
 `patience` values with the best before them.
 */
module Convergence {
  import opened OptimizationLoop

  /** Documented: the best value has not improved by `minDelta` over the last `patience` values. */
  function Plateau(values: seq<real>, minDelta: real, patience: nat): bool
    requires patience >= 1
  {
    var n := |values|;
    n >= patience + 1 && MaxOf(values[n - patience..]) - MaxOf(values[..n - patience]) < minDelta
  }

  /**
   One of the last `patience` values improves by `minDelta` on everything before them, and yet the
   latest value does not improve by as much on each of the `patience` values before itself.
   */
  ghost predicate StopsAfterGain(values: seq<real>, minDelta: real, patience: nat) {
    var n := |values|;
    && n >= patience + 1
    && (exists i :: n - patience <= i < n && forall b :: 0 <= b < n - patience ==> values[i] >= values[b] + minDelta)
    && (exists w :: n - 1 - patience <= w < n - 1 && values[n - 1] < values[w] + minDelta)
  }

  /**
   The latest value improves by `minDelta` on each of the `patience` values before it, but not on
   some value older than those.
   */
  ghost predicate GoesOnWithoutGain(values: seq<real>, minDelta: real, patience: nat) {
    var n := |values|;
    && n >= patience + 1
    && (forall w :: n - 1 - patience <= w < n - 1 ==> values[n - 1] >= values[w] + minDelta)
    && (exists b :: 0 <= b < n - 1 - patience && values[n - 1] < values[b] + minDelta)
  }

  lemma BelowMax(s: seq<real>, x: real, d: real)
    requires s != []
    ensures x - MaxOf(s) < d <==> exists i :: 0 <= i < |s| && x < s[i] + d
  {
    var i :| 0 <= i < |s| && s[i] == MaxOf(s);
    if j :| 0 <= j < |s| && x < s[j] + d { assert s[j] in s; }
  }

  /** The code's test, entry by entry. */
  lemma HasConvergedEntries(values: seq<real>, minDelta: real, patience: nat)
    requires patience >= 1 && |values| >= patience + 1
    ensures var n := |values|;
            HasConverged(values, minDelta, patience)
            <==> exists w :: n - 1 - patience <= w < n - 1 && values[n - 1] < values[w] + minDelta
  {
    var n := |values|;
    var window := values[n - 1 - patience..n - 1];
    BelowMax(window, values[n - 1], minDelta);
    assert forall i :: 0 <= i < |window| ==> window[i] == values[n - 1 - patience + i];
    if w :| n - 1 - patience <= w < n - 1 && values[n - 1] < values[w] + minDelta {
      assert window[w - (n - 1 - patience)] == values[w];
    }
  }

  /** The documented test, entry by entry: no recent value improves on everything before. */
  lemma PlateauEntries(values: seq<real>, minDelta: real, patience: nat)
    requires patience >= 1 && |values| >= patience + 1
    ensures var n := |values|;
            Plateau(values, minDelta, patience)
            <==> forall i :: n - patience <= i < n ==>
                   exists b :: 0 <= b < n - patience && values[i] < values[b] + minDelta
  {
    var n := |values|;
    var recent, before := values[n - patience..], values[..n - patience];
    assert forall i :: 0 <= i < |recent| ==> recent[i] == values[n - patience + i];
    forall i | n - patience <= i < n
      ensures values[i] in recent
      ensures values[i] - MaxOf(before) < minDelta
              <==> exists b :: 0 <= b < n - patience && values[i] < values[b] + minDelta
    {
      assert recent[i - (n - patience)] == values[i];
      BelowMax(before, values[i], minDelta);
    }
    var m :| 0 <= m < |recent| && recent[m] == MaxOf(recent);
    assert values[n - patience + m] == MaxOf(recent);
  }

  /** The code stops although the documentation says to go on, exactly in the first case. */
  lemma StopsAgainstDocsExactly(values: seq<real>, minDelta: real, patience: nat)
    requires patience >= 1
    ensures HasConverged(values, minDelta, patience) && !Plateau(values, minDelta, patience)
            <==> StopsAfterGain(values, minDelta, patience)
  {
    if |values| >= patience + 1 {
      HasConvergedEntries(values, minDelta, patience);
      PlateauEntries(values, minDelta, patience);
    }
  }

  /** The code goes on although the documentation says to stop, exactly in the second case. */
  lemma GoesOnAgainstDocsExactly(values: seq<real>, minDelta: real, patience: nat)
    requires patience >= 1 && minDelta >= 0.0
    ensures !HasConverged(values, minDelta, patience) && Plateau(values, minDelta, patience)
            <==> GoesOnWithoutGain(values, minDelta, patience)
  {
    if |values| >= patience + 1 {
      HasConvergedEntries(values, minDelta, patience);
      PlateauEntries(values, minDelta, patience);
      var n := |values|;
      if GoesOnWithoutGain(values, minDelta, patience) {
        OlderValueCovers(values, minDelta, patience);
      }
      if !HasConverged(values, minDelta, patience) && Plateau(values, minDelta, patience) {
        var b :| 0 <= b < n - patience && values[n - 1] < values[b] + minDelta;
        assert b < n - 1 - patience;
      }
    }
  }

  /** An older value the latest does not improve on is not improved on by the values in between. */
  lemma OlderValueCovers(values: seq<real>, minDelta: real, patience: nat)
    requires patience >= 1 && minDelta >= 0.0 && GoesOnWithoutGain(values, minDelta, patience)
    ensures var n := |values|;
            forall i :: n - patience <= i < n ==> exists b :: 0 <= b < n - patience && values[i] < values[b] + minDelta
  {
    var n := |values|;
    var b :| 0 <= b < n - 1 - patience && values[n - 1] < values[b] + minDelta;
    forall i | n - patience <= i < n
      ensures values[i] < values[b] + minDelta
    {
    }
  }

  /** So the test does what is documented exactly when neither case holds. */
  lemma AgreesWithDocsExactly(values: seq<real>, minDelta: real, patience: nat)
    requires patience >= 1 && minDelta >= 0.0
    ensures (HasConverged(values, minDelta, patience) <==> Plateau(values, minDelta, patience))
            <==> !StopsAfterGain(values, minDelta, patience) && !GoesOnWithoutGain(values, minDelta, patience)
  {
    StopsAgainstDocsExactly(values, minDelta, patience);
    GoesOnAgainstDocsExactly(values, minDelta, patience);
  }

  /** A run can stop right after its best value was raised. */
  lemma StopsRightAfterGain()
    ensures HasConverged([0.0, 0.0, 0.9, 0.5], 0.1, 3) && !Plateau([0.0, 0.0, 0.9, 0.5], 0.1, 3)
  {
    var values := [0.0, 0.0, 0.9, 0.5];
    assert values[2] >= values[0] + 0.1 && values[3] < values[2] + 0.1;
    StopsAgainstDocsExactly(values, 0.1, 3);
  }

  /** And it can go on although its best value is an old one. */
  lemma GoesOnBelowOldBest()
    ensures !HasConverged([1.0, 0.0, 0.5], 0.1, 1) && Plateau([1.0, 0.0, 0.5], 0.1, 1)
  {
    var values := [1.0, 0.0, 0.5];
    assert values[2] >= values[1] + 0.1 && values[2] < values[0] + 0.1;
    GoesOnAgainstDocsExactly(values, 0.1, 1);
  }
}
