/**
 The metrics of an iteration over its case outcomes (optimization/aggregator.py):
 pass@k, pass^k, consistency and recovery, worst-of or against one grader.
 */
module Metrics {
  import opened Wrappers
  import opened Sums
  import opened Counters
  import opened Grades

  /** Metric names. `PassAtOne` is the literal name pass@1; `PassAt(1)` is a name such as pass@01. */
  datatype Metric =
    | PassAtOne
    | PassAt(k: int)
    | PassHat(k: int)
    | ConsistencyRate
    | StabilityScore
    | RecoveryRate
    | CostUsdPerCase
    | LatencyMsPerCaseAvg
    | LatencyMsP50
    | LatencyMsP95
    | LatencyMsP99
    | WeightedFailureTotal
    | WeightedFailurePerCase
    | CriticalFailureCount
    | Other(name: string)

  /** Python's `xs[:k]`, where a negative k counts from the end. */
  function Take<T>(xs: seq<T>, k: int): (r: seq<T>)
    ensures r <= xs
    ensures 0 <= k ==> |r| <= k
  {
    if k >= |xs| then xs else if k >= 0 then xs[..k] else if |xs| + k >= 0 then xs[..|xs| + k] else []
  }

  function Ratio(hits: int, n: int): (r: real)
    ensures 0 <= hits <= n ==> 0.0 <= r <= 1.0
  {
    if n == 0 then 0.0 else (RatioBounds(hits, n); hits as real / n as real)
  }

  lemma RatioBounds(hits: int, n: int)
    requires n != 0
    ensures 0 <= hits <= n ==> 0.0 <= hits as real / n as real <= 1.0
  {
  }

  function Mean(total: real, n: nat): real { if n == 0 then 0.0 else total / n as real }

  // ---- One outcome ----

  predicate Passed(g: GradeLabel) { g == PASS }

  predicate Errored(o: CaseOutcome) { o.labels != [] && o.labels[0] == ERROR }
  predicate NotErrored(o: CaseOutcome) { !Errored(o) }
  predicate PassesFirst(o: CaseOutcome) { o.labels != [] && o.labels[0] == PASS }
  predicate ScoredPass(o: CaseOutcome) { NotErrored(o) && PassesFirst(o) }

  function Consistency(o: CaseOutcome): real { Ratio(Count(o.labels, Passed), |o.labels|) }

  predicate AnyPass(labels: seq<GradeLabel>, k: int) { PASS in Take(labels, k) }
  predicate AllPass(labels: seq<GradeLabel>, k: int) {
    |Take(labels, k)| >= k && forall g :: g in Take(labels, k) ==> g == PASS
  }

  function AnyPassIn(k: int): CaseOutcome -> bool { (o: CaseOutcome) => AnyPass(o.labels, k) }
  function AllPassIn(k: int): CaseOutcome -> bool { (o: CaseOutcome) => AllPass(o.labels, k) }

  predicate NotPassedFirst(o: CaseOutcome) { o.labels != [] && o.labels[0] != PASS }
  predicate Recovered(o: CaseOutcome) { NotPassedFirst(o) && PASS in o.labels[1..] }

  // ---- Against one grader ----

  predicate Ran(o: CaseOutcome, grader: string) { grader in o.perGrader && o.perGrader[grader] != [] }
  function RanFor(grader: string): CaseOutcome -> bool { (o: CaseOutcome) => Ran(o, grader) }
  function PassesFor(grader: string): CaseOutcome -> bool {
    (o: CaseOutcome) => Ran(o, grader) && o.perGrader[grader][0] == PASS
  }
  function AnyPassFor(grader: string, k: int): CaseOutcome -> bool {
    (o: CaseOutcome) => Ran(o, grader) && AnyPass(o.perGrader[grader], k)
  }
  function AllPassFor(grader: string, k: int): CaseOutcome -> bool {
    (o: CaseOutcome) => Ran(o, grader) && |o.perGrader[grader]| >= k && AllPassWindow(o.perGrader[grader], k)
  }
  predicate AllPassWindow(labels: seq<GradeLabel>, k: int) { forall g :: g in Take(labels, k) ==> g == PASS }

  predicate PassStyle(metric: Metric) { metric.PassAtOne? || metric.PassAt? || metric.PassHat? }

  function PassMetricFor(metric: Metric, outcomes: seq<CaseOutcome>, grader: string): real
    requires PassStyle(metric)
  {
    var n := Count(outcomes, RanFor(grader));
    match metric
    case PassAtOne => Ratio(Count(outcomes, PassesFor(grader)), n)
    case PassAt(k) => Ratio(Count(outcomes, AnyPassFor(grader, k)), n)
    case PassHat(k) => Ratio(Count(outcomes, AllPassFor(grader, k)), n)
  }

  /** `_compute_metric`; an unknown name raises ValueError. */
  function Compute(metric: Metric, outcomes: seq<CaseOutcome>, grader: Option<string>): Result<real> {
    if outcomes == [] then Ok(0.0)
    else if grader.Some? && PassStyle(metric) then Ok(PassMetricFor(metric, outcomes, grader.value))
    else
      match metric
      case PassAtOne => Ok(Ratio(Count(outcomes, ScoredPass), Count(outcomes, NotErrored)))
      case PassAt(k) => Ok(Ratio(Count(outcomes, AnyPassIn(k)), |outcomes|))
      case PassHat(k) => Ok(Ratio(Count(outcomes, AllPassIn(k)), |outcomes|))
      case ConsistencyRate => Ok(Mean(Sum(outcomes, Consistency), |outcomes|))
      case StabilityScore => Ok(Mean(Sum(outcomes, Consistency), |outcomes|))
      case RecoveryRate => Ok(Ratio(Count(outcomes, Recovered), Count(outcomes, NotPassedFirst)))
      case _ => Err(ValueError)
  }

  predicate Supported(metric: Metric) {
    PassStyle(metric) || metric.ConsistencyRate? || metric.StabilityScore? || metric.RecoveryRate?
  }

  // ---- Guarantees ----

  /** Every supported metric is a fraction. */
  lemma MetricInUnit(metric: Metric, outcomes: seq<CaseOutcome>, grader: Option<string>)
    ensures Compute(metric, outcomes, grader).Ok? <==> outcomes == [] || Supported(metric)
    ensures Compute(metric, outcomes, grader).Ok? ==> 0.0 <= Compute(metric, outcomes, grader).value <= 1.0
  {
    if grader.Some? {
      var g := grader.value;
      CountMonotone(outcomes, PassesFor(g), RanFor(g));
      if metric.PassAt? { CountMonotone(outcomes, AnyPassFor(g, metric.k), RanFor(g)); }
      if metric.PassHat? { CountMonotone(outcomes, AllPassFor(g, metric.k), RanFor(g)); }
    }
    CountMonotone(outcomes, ScoredPass, NotErrored);
    CountMonotone(outcomes, Recovered, NotPassedFirst);
    if metric.PassAt? { FilterLength(outcomes, AnyPassIn(metric.k)); }
    if metric.PassHat? { FilterLength(outcomes, AllPassIn(metric.k)); }
    forall o: CaseOutcome { FilterLength(o.labels, Passed); }
    SumBounds(outcomes, Consistency);
    MeanInUnit(Sum(outcomes, Consistency), |outcomes|);
  }

  lemma MeanInUnit(total: real, n: nat)
    requires 0.0 <= total <= n as real
    ensures 0.0 <= Mean(total, n) <= 1.0
  {
  }

  /** Metrics do not depend on the order of the outcomes. */
  lemma MetricOrderFree(metric: Metric, a: seq<CaseOutcome>, b: seq<CaseOutcome>, grader: Option<string>)
    requires Permutes(a, b)
    ensures Compute(metric, a, grader) == Compute(metric, b, grader)
  {
    PermutesLength(a, b);
    if grader.Some? && PassStyle(metric) {
      var g := grader.value;
      CountPermutes(a, b, RanFor(g));
      match metric
      case PassAtOne => CountPermutes(a, b, PassesFor(g));
      case PassAt(k) => CountPermutes(a, b, AnyPassFor(g, k));
      case PassHat(k) => CountPermutes(a, b, AllPassFor(g, k));
    } else {
      match metric
      case PassAtOne => CountPermutes(a, b, ScoredPass); CountPermutes(a, b, NotErrored);
      case PassAt(k) => CountPermutes(a, b, AnyPassIn(k));
      case PassHat(k) => CountPermutes(a, b, AllPassIn(k));
      case RecoveryRate => CountPermutes(a, b, Recovered); CountPermutes(a, b, NotPassedFirst);
      case _ => SumPermutes(a, b, Consistency);
    }
  }

  /** pass^k never exceeds pass@k, pass@k grows and pass^k falls with k, whoever grades. */
  lemma PassMetricsOrdered(outcomes: seq<CaseOutcome>, grader: Option<string>, j: int, k: int)
    requires 1 <= j <= k
    ensures Compute(PassHat(k), outcomes, grader).value <= Compute(PassAt(k), outcomes, grader).value
    ensures Compute(PassAt(j), outcomes, grader).value <= Compute(PassAt(k), outcomes, grader).value
    ensures Compute(PassHat(k), outcomes, grader).value <= Compute(PassHat(j), outcomes, grader).value
  {
    forall labels: seq<GradeLabel> { WindowsNested(labels, j, k); }
    if grader.None? {
      Ordered(outcomes, AllPassIn(k), AnyPassIn(k), |outcomes|);
      Ordered(outcomes, AnyPassIn(j), AnyPassIn(k), |outcomes|);
      Ordered(outcomes, AllPassIn(k), AllPassIn(j), |outcomes|);
    } else {
      var g, n := grader.value, Count(outcomes, RanFor(grader.value));
      Ordered(outcomes, AllPassFor(g, k), AnyPassFor(g, k), n);
      Ordered(outcomes, AnyPassFor(g, j), AnyPassFor(g, k), n);
      Ordered(outcomes, AllPassFor(g, k), AllPassFor(g, j), n);
    }
  }

  lemma Ordered(outcomes: seq<CaseOutcome>, p: CaseOutcome -> bool, q: CaseOutcome -> bool, n: nat)
    requires forall o :: p(o) ==> q(o)
    ensures Ratio(Count(outcomes, p), n) <= Ratio(Count(outcomes, q), n)
  {
    CountMonotone(outcomes, p, q);
    RatioMonotone(Count(outcomes, p), Count(outcomes, q), n);
  }

  /** Against a primary grader both metrics share a denominator, so pass@1 never exceeds pass@k. */
  lemma PassAtOneForGrader(outcomes: seq<CaseOutcome>, grader: string, k: int)
    requires k >= 1
    ensures Compute(PassAtOne, outcomes, Some(grader)).value <= Compute(PassAt(k), outcomes, Some(grader)).value
  {
    forall o | PassesFor(grader)(o)
      ensures AnyPassFor(grader, k)(o)
    {
      assert Take(o.perGrader[grader], k)[0] == PASS;
    }
    Ordered(outcomes, PassesFor(grader), AnyPassFor(grader, k), Count(outcomes, RanFor(grader)));
  }

  lemma WindowsNested(labels: seq<GradeLabel>, j: int, k: int)
    requires 1 <= j <= k
    ensures AllPass(labels, k) ==> AnyPass(labels, k) && AllPass(labels, j)
    ensures AnyPass(labels, j) ==> AnyPass(labels, k)
  {
    var a, b := Take(labels, j), Take(labels, k);
    assert forall i :: 0 <= i < |a| ==> a[i] == b[i];
    if AllPass(labels, k) {
      assert b[0] in b;
      forall g | g in a
        ensures g == PASS
      {
        var i :| 0 <= i < |a| && a[i] == g;
        assert b[i] in b;
      }
    }
    if AnyPass(labels, j) {
      var i :| 0 <= i < |a| && a[i] == PASS;
      assert b[i] == PASS;
    }
  }

  lemma RatioMonotone(a: int, b: int, n: nat)
    requires a <= b
    ensures Ratio(a, n) <= Ratio(b, n)
  {
    if n > 0 { QuotientMonotone(a as real, b as real, n as real); }
  }

  lemma QuotientMonotone(a: real, b: real, n: real)
    requires a <= b && n > 0.0
    ensures a / n <= b / n
  {
    assert (b / n - a / n) * n == b - a;
  }

  /** A case that passes at once passes within k; cases that pass at once are not errored. */
  lemma FirstPasses(outcomes: seq<CaseOutcome>, k: int)
    ensures k >= 1 ==> Count(outcomes, ScoredPass) <= Count(outcomes, AnyPassIn(k))
    ensures Count(outcomes, ScoredPass) <= Count(outcomes, NotErrored) <= |outcomes|
  {
    if k >= 1 {
      forall o: CaseOutcome | ScoredPass(o)
        ensures AnyPass(o.labels, k)
      {
        assert Take(o.labels, k)[0] == PASS;
      }
      CountMonotone(outcomes, ScoredPass, AnyPassIn(k));
    }
    CountMonotone(outcomes, ScoredPass, NotErrored);
    FilterLength(outcomes, NotErrored);
  }

  /**
   Without a primary grader, pass@1 drops errored cases from its denominator and pass@k keeps them,
   so pass@1 <= pass@k is not a law. It holds exactly when the cases that pass only after the first repetition make up
   for the errored ones: first * errored <= (any - first) * scored.
   */
  lemma PassAtOneAgainstPassAt(outcomes: seq<CaseOutcome>, k: int)
    ensures var scored := Count(outcomes, NotErrored);
            var errored := |outcomes| - scored;
            var first, any := Count(outcomes, ScoredPass), Count(outcomes, AnyPassIn(k));
            && (k >= 1 ==> first <= any)
            && (Compute(PassAtOne, outcomes, None).value <= Compute(PassAt(k), outcomes, None).value
                <==> first * errored <= (any - first) * scored)
  {
    var scored := Count(outcomes, NotErrored);
    var first, any := Count(outcomes, ScoredPass), Count(outcomes, AnyPassIn(k));
    FirstPasses(outcomes, k);
    Rearranged(first, any, scored, |outcomes|);
    if scored > 0 {
      CompareRatios(first, scored, any, |outcomes|);
    } else {
      MetricInUnit(PassAt(k), outcomes, None);
    }
  }

  lemma Rearranged(first: int, any: int, scored: int, n: int)
    ensures first * n <= any * scored <==> first * (n - scored) <= (any - first) * scored
  {
    assert first * n == first * scored + first * (n - scored);
    assert any * scored == first * scored + (any - first) * scored;
  }

  lemma CompareRatios(a: int, m: int, b: int, n: int)
    requires m > 0 && n > 0
    ensures Ratio(a, m) <= Ratio(b, n) <==> a * n <= b * m
  {
    CompareQuotients(a as real, m as real, b as real, n as real);
    assert (a * n) as real == a as real * n as real;
    assert (b * m) as real == b as real * m as real;
  }

  lemma CompareQuotients(a: real, m: real, b: real, n: real)
    requires m > 0.0 && n > 0.0
    ensures a / m <= b / n <==> a * n <= b * m
  {
    var x, y := a / m, b / n;
    assert a == x * m && b == y * n;
    assert a * n == x * (m * n) && b * m == y * (m * n);
    if x <= y {
      assert (y - x) * (m * n) >= 0.0;
    } else {
      assert (x - y) * (m * n) > 0.0;
    }
  }

  lemma CountTwo(a: CaseOutcome, b: CaseOutcome, p: CaseOutcome -> bool)
    ensures Count([a, b], p) == (if p(a) then 1 else 0) + if p(b) then 1 else 0
  {
    assert [a, b][1..] == [b] && [b][1..] == [];
    assert Filter([b], p) == (if p(b) then [b] else []) + [];
  }

  /** One errored case and one passing case: pass@1 is 1, pass@2 is 1/2. */
  lemma PassAtOneCanExceedPassAtTwo()
    ensures exists outcomes ::
              && Compute(PassAtOne, outcomes, None) == Ok(1.0)
              && Compute(PassAt(2), outcomes, None) == Ok(0.5)
  {
    var bad := CaseOutcome("a", [ERROR, ERROR], [0.0, 0.0], [], 0.0, 0, 0, 0, [], map[], map[], []);
    var good := CaseOutcome("b", [PASS, PASS], [1.0, 1.0], [], 0.0, 0, 0, 0, [], map[], map[], []);
    var outcomes := [bad, good];
    assert Take(bad.labels, 2) == [ERROR, ERROR] && Take(good.labels, 2) == [PASS, PASS];
    CountTwo(bad, good, NotErrored);
    CountTwo(bad, good, ScoredPass);
    CountTwo(bad, good, AnyPassIn(2));
    assert Compute(PassAtOne, outcomes, None) == Ok(1.0);
    assert Compute(PassAt(2), outcomes, None) == Ok(0.5);
  }
}
