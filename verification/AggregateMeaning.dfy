/**
 What the fields of an iteration's aggregate and its guardrails are
 (optimization/aggregator.py), by position in the outcomes and their failure modes.
 */
module AggregateMeaning {
  import opened Wrappers
  import opened Sums
  import opened Counters
  import opened Ordering
  import opened Grades
  import opened FunnelRollup
  import opened CellKeys
  import opened Metrics
  import opened MetricMeaning
  import opened Aggregator

  // ---- Percentiles ----

  /** The rank of fraction q among n values falls between positions i and i + 1. */
  ghost predicate Brackets(n: nat, q: real, i: int) {
    0 <= i < n - 1 && i as real <= q * (n - 1) as real <= (i + 1) as real
  }

  /** The point on the line from `a` to `b` that divides it at `t`. */
  ghost function Along(a: real, b: real, t: real): real { a + t * (b - a) }

  ghost predicate IsPercentile(value: real, s: seq<real>, q: real)
    requires s != []
  {
    if |s| == 1 then value == s[0]
    else exists i :: Brackets(|s|, q, i) && value == Along(s[i], s[i + 1], q * (|s| - 1) as real - i as real)
  }

  lemma PercentileExactly(s: seq<real>, q: real)
    requires s != [] && 0.0 <= q <= 1.0
    ensures IsPercentile(Percentile(s, q), s, q)
  {
    if |s| > 1 {
      RankInRange(q, |s| - 1);
      BetweenRanks(s, q, q * (|s| - 1) as real);
    }
  }

  lemma BetweenRanks(s: seq<real>, q: real, rank: real)
    requires |s| > 1 && 0.0 <= rank <= (|s| - 1) as real && rank == q * (|s| - 1) as real
    ensures IsPercentile(AtRank(s, rank), s, q)
  {
    var low := rank.Floor;
    if low + 1 < |s| {
      assert Brackets(|s|, q, low);
    } else {
      assert Brackets(|s|, q, low - 1);
      assert rank == low as real;
    }
  }

  // ---- Totals ----

  ghost function TotalCost(outcomes: seq<CaseOutcome>): real {
    if outcomes == [] then 0.0 else outcomes[0].costUsd + TotalCost(outcomes[1..])
  }

  ghost function TotalDuration(outcomes: seq<CaseOutcome>): int {
    if outcomes == [] then 0 else outcomes[0].durationMs + TotalDuration(outcomes[1..])
  }

  ghost function TotalCacheHits(outcomes: seq<CaseOutcome>): int {
    if outcomes == [] then 0 else outcomes[0].cacheHits + TotalCacheHits(outcomes[1..])
  }

  ghost function TotalLlmCalls(outcomes: seq<CaseOutcome>): int {
    if outcomes == [] then 0 else outcomes[0].llmCalls + TotalLlmCalls(outcomes[1..])
  }

  ghost function IsMode(mode: string): string -> bool { (m: string) => m == mode }
  ghost function IsOneOf(modes: seq<string>): string -> bool { (m: string) => m in modes }

  /** How often a failure mode occurs in all the cases together. */
  ghost function Occurrences(outcomes: seq<CaseOutcome>, mode: string): int {
    if outcomes == [] then 0
    else |Indices(outcomes[0].failureModes, IsMode(mode))| + Occurrences(outcomes[1..], mode)
  }

  /** The occurrences of modes that their own case calls critical. */
  ghost function CriticalOccurrences(outcomes: seq<CaseOutcome>): int {
    if outcomes == [] then 0
    else |Indices(outcomes[0].failureModes, IsOneOf(outcomes[0].criticalModes))| + CriticalOccurrences(outcomes[1..])
  }

  /** Every occurrence of a mode has the weight its case gives it; without one it weighs nothing. */
  ghost function WeightOf(modes: seq<string>, weights: map<string, int>): int {
    if modes == [] then 0
    else (if modes[0] in weights then weights[modes[0]] else 0) + WeightOf(modes[1..], weights)
  }

  ghost function TotalWeight(outcomes: seq<CaseOutcome>): int {
    if outcomes == [] then 0
    else WeightOf(outcomes[0].failureModes, outcomes[0].failureWeights) + TotalWeight(outcomes[1..])
  }

  lemma {:induction false} TotalsAre(outcomes: seq<CaseOutcome>)
    ensures Sum(outcomes, Cost) == TotalCost(outcomes)
    ensures SumInt(outcomes, Duration) == TotalDuration(outcomes)
    ensures SumInt(outcomes, CacheHits) == TotalCacheHits(outcomes)
    ensures SumInt(outcomes, LlmCalls) == TotalLlmCalls(outcomes)
  {
    if outcomes != [] { TotalsAre(outcomes[1..]); }
  }

  lemma {:induction false} WeightIs(modes: seq<string>, weights: map<string, int>)
    ensures SumInt(modes, WeightIn(weights)) == WeightOf(modes, weights)
  {
    if modes != [] { WeightIs(modes[1..], weights); }
  }

  lemma CriticalIs(o: CaseOutcome)
    ensures CriticalFailures(o) == |Indices(o.failureModes, IsOneOf(o.criticalModes))|
  {
    FilterExtensional(o.failureModes, Among(o.criticalModes), IsOneOf(o.criticalModes));
    CountIsIndices(o.failureModes, IsOneOf(o.criticalModes));
  }

  lemma {:induction false} FailureTotalsAre(outcomes: seq<CaseOutcome>)
    ensures SumInt(outcomes, WeightedFailures) == TotalWeight(outcomes)
    ensures SumInt(outcomes, CriticalFailures) == CriticalOccurrences(outcomes)
  {
    if outcomes != [] {
      FailureTotalsAre(outcomes[1..]);
      WeightIs(outcomes[0].failureModes, outcomes[0].failureWeights);
      CriticalIs(outcomes[0]);
    }
  }

  lemma {:induction false} OccurrencesAre(outcomes: seq<CaseOutcome>, mode: string)
    ensures multiset(FlatMap(outcomes, FailureModes))[mode] == Occurrences(outcomes, mode)
  {
    if outcomes != [] {
      OccurrencesAre(outcomes[1..], mode);
      var own := outcomes[0].failureModes;
      CountIs(own, mode);
      FilterExtensional(own, Is(mode), IsMode(mode));
      CountIsIndices(own, IsMode(mode));
    }
  }

  // ---- The guardrails ----

  /** The guardrail is published iff `given`, and then has this value. */
  ghost predicate PublishedIff(guardrails: map<Metric, real>, name: Metric, given: bool, value: real) {
    (name in guardrails <==> given) && (given ==> guardrails[name] == value)
  }

  ghost predicate PercentileOf(guardrails: map<Metric, real>, name: Metric, s: seq<real>, q: real)
    requires s != []
  {
    name in guardrails && IsPercentile(guardrails[name], s, q)
  }

  /** The durations of the cases from the shortest to the longest. */
  ghost predicate DurationsInOrder(s: seq<real>, outcomes: seq<CaseOutcome>) {
    && Rising(s) && |s| == |outcomes|
    && multiset(s) == multiset(seq(|outcomes|, i requires 0 <= i < |outcomes| => outcomes[i].durationMs as real))
  }

  ghost predicate NamesGuardrail(name: Metric) {
    || name.CostUsdPerCase? || name.LatencyMsPerCaseAvg? || name.LatencyMsP50? || name.LatencyMsP95?
    || name.LatencyMsP99? || name.WeightedFailureTotal? || name.WeightedFailurePerCase? || name.CriticalFailureCount?
  }

  ghost predicate PublishesPercentiles(guardrails: map<Metric, real>, outcomes: seq<CaseOutcome>)
    requires outcomes != []
  {
    exists s :: DurationsInOrder(s, outcomes)
      && PercentileOf(guardrails, LatencyMsP50, s, 0.50)
      && PercentileOf(guardrails, LatencyMsP95, s, 0.95)
      && PercentileOf(guardrails, LatencyMsP99, s, 0.99)
  }

  lemma {:induction false} LatenciesAre(outcomes: seq<CaseOutcome>)
    ensures Latencies(outcomes) == seq(|outcomes|, i requires 0 <= i < |outcomes| => outcomes[i].durationMs as real)
  {
    if outcomes != [] { LatenciesAre(outcomes[1..]); }
  }

  lemma SortedDurations(outcomes: seq<CaseOutcome>) returns (s: seq<real>)
    ensures s == Sort(Latencies(outcomes), RealLe) && DurationsInOrder(s, outcomes)
  {
    s := Sort(Latencies(outcomes), RealLe);
    SortPermutes(Latencies(outcomes), RealLe);
    SortSorted(Latencies(outcomes), RealLe);
    SortedRises(s);
    LatenciesAre(outcomes);
    PermutesLength(s, Latencies(outcomes));
  }

  ghost predicate PublishesTotals(g: map<Metric, real>, outcomes: seq<CaseOutcome>)
    requires outcomes != []
  {
    var n, cost, duration := |outcomes|, TotalCost(outcomes), TotalDuration(outcomes);
    var weight, critical := TotalWeight(outcomes), CriticalOccurrences(outcomes);
    && PublishedIff(g, CostUsdPerCase, cost > 0.0, Average(cost, n))
    && PublishedIff(g, LatencyMsPerCaseAvg, duration > 0, Average(duration as real, n))
    && PublishedIff(g, WeightedFailureTotal, weight > 0, weight as real)
    && PublishedIff(g, WeightedFailurePerCase, weight > 0, Average(weight as real, n))
    && PublishedIff(g, CriticalFailureCount, true, critical as real)
  }

  lemma MeansNamed(n: nat, cost: real, duration: int, s: seq<real>, weight: int, critical: int)
    requires n > 0
    ensures var g := Guardrails(n, cost, duration, s, weight, critical);
            && PublishedIff(g, CostUsdPerCase, cost > 0.0, Mean(cost, n))
            && PublishedIff(g, LatencyMsPerCaseAvg, duration > 0, Mean(duration as real, n))
  {
  }

  lemma FailuresNamed(n: nat, cost: real, duration: int, s: seq<real>, weight: int, critical: int)
    requires n > 0
    ensures var g := Guardrails(n, cost, duration, s, weight, critical);
            && PublishedIff(g, WeightedFailureTotal, weight > 0, weight as real)
            && PublishedIff(g, WeightedFailurePerCase, weight > 0, Mean(weight as real, n))
            && PublishedIff(g, CriticalFailureCount, true, critical as real)
  {
  }

  lemma MeanIsAverage(total: real, n: nat)
    requires n > 0
    ensures Mean(total, n) == Average(total, n)
  {
  }

  lemma TotalsPublished(g: map<Metric, real>, outcomes: seq<CaseOutcome>, s: seq<real>)
    requires outcomes != []
    requires g == Guardrails(|outcomes|, TotalCost(outcomes), TotalDuration(outcomes), s,
                             TotalWeight(outcomes), CriticalOccurrences(outcomes))
    ensures PublishesTotals(g, outcomes)
  {
    var n, cost, duration := |outcomes|, TotalCost(outcomes), TotalDuration(outcomes);
    var weight, critical := TotalWeight(outcomes), CriticalOccurrences(outcomes);
    MeansNamed(n, cost, duration, s, weight, critical);
    FailuresNamed(n, cost, duration, s, weight, critical);
    MeanIsAverage(cost, n);
    MeanIsAverage(duration as real, n);
    MeanIsAverage(weight as real, n);
  }

  lemma PercentilesNamed(n: nat, cost: real, duration: int, s: seq<real>, weight: int, critical: int)
    requires n > 0
    ensures var g := Guardrails(n, cost, duration, s, weight, critical);
            && (forall name :: name in g ==> NamesGuardrail(name))
            && PublishedIff(g, LatencyMsP50, duration > 0, Percentile(s, 0.50))
            && PublishedIff(g, LatencyMsP95, duration > 0, Percentile(s, 0.95))
            && PublishedIff(g, LatencyMsP99, duration > 0, Percentile(s, 0.99))
  {
  }

  lemma PercentilesPublished(g: map<Metric, real>, outcomes: seq<CaseOutcome>, s: seq<real>)
    requires outcomes != [] && DurationsInOrder(s, outcomes)
    requires PublishedIff(g, LatencyMsP50, true, Percentile(s, 0.50))
    requires PublishedIff(g, LatencyMsP95, true, Percentile(s, 0.95))
    requires PublishedIff(g, LatencyMsP99, true, Percentile(s, 0.99))
    ensures PublishesPercentiles(g, outcomes)
  {
    PercentileExactly(s, 0.50);
    PercentileExactly(s, 0.95);
    PercentileExactly(s, 0.99);
    assert PercentileOf(g, LatencyMsP50, s, 0.50);
  }

  ghost predicate GuardrailsAre(g: map<Metric, real>, outcomes: seq<CaseOutcome>)
    requires outcomes != []
  {
    && (forall name :: name in g ==> NamesGuardrail(name))
    && PublishesTotals(g, outcomes)
    && (TotalDuration(outcomes) > 0 ==> PublishesPercentiles(g, outcomes))
    && (TotalDuration(outcomes) <= 0 ==> LatencyMsP50 !in g && LatencyMsP95 !in g && LatencyMsP99 !in g)
  }

  lemma GuardrailsMean(outcomes: seq<CaseOutcome>)
    requires outcomes != []
    ensures GuardrailsAre(GuardrailsOf(outcomes), outcomes)
  {
    var s := SortedDurations(outcomes);
    TotalsAre(outcomes);
    FailureTotalsAre(outcomes);
    TotalsPublished(GuardrailsOf(outcomes), outcomes, s);
    PercentilesNamed(|outcomes|, TotalCost(outcomes), TotalDuration(outcomes), s,
                     TotalWeight(outcomes), CriticalOccurrences(outcomes));
    if TotalDuration(outcomes) > 0 { PercentilesPublished(GuardrailsOf(outcomes), outcomes, s); }
  }

  /** Which guardrails an iteration publishes, and the value of each. */
  lemma GuardrailsExactly(outcomes: seq<CaseOutcome>, primary: Metric, reliability: seq<Metric>,
                          grader: Option<string>)
    requires outcomes != [] && Aggregate(outcomes, primary, reliability, grader).Ok?
    ensures GuardrailsAre(Aggregate(outcomes, primary, reliability, grader).value.guardrails, outcomes)
  {
    GuardrailsMean(outcomes);
  }

  // ---- The other fields ----

  ghost predicate Known(metric: Metric) {
    || metric.PassAtOne? || metric.PassAt? || metric.PassHat? || metric.ConsistencyRate?
    || metric.StabilityScore? || metric.RecoveryRate?
  }

  /** An aggregate is made unless there are outcomes and some metric asked for is not known. */
  lemma AggregateFailsExactly(outcomes: seq<CaseOutcome>, primary: Metric, reliability: seq<Metric>,
                              grader: Option<string>)
    ensures var r := Aggregate(outcomes, primary, reliability, grader);
            && (r.Err? <==> outcomes != [] && !(Known(primary) && forall m :: m in reliability ==> Known(m)))
            && (r.Err? ==> r.error == ValueError)
  {
    OtherwiseMeans(primary, outcomes, grader);
    forall m | m in reliability
      ensures outcomes != [] ==> (ComputeOn(outcomes)(m).Ok? <==> Known(m))
    {
      MetricInUnit(m, outcomes, None);
    }
    MetricInUnit(primary, outcomes, grader);
  }

  /** No outcome: every figure is zero, nothing is published. */
  lemma AggregateOfNone(primary: Metric, reliability: seq<Metric>, grader: Option<string>)
    ensures var r := Aggregate([], primary, reliability, grader);
            && r.Ok?
            && var a := r.value;
            && a.primaryMetric == primary && a.primaryGrader == grader && a.primaryValue == 0.0 == a.errorRate
            && a.guardrails == map[] == a.reliability && a.failureModeCounts == map[] && a.funnel == map[]
            && a.totalCostUsd == 0.0 && a.totalDurationMs == a.cacheHits == a.llmCalls == 0
            && a.caseCount == 0 && a.caseOutcomes == [] && a.perGraderPassRate == map[] && a.confusion == None
  {
  }

  /** Every grader that ran somewhere has the share of its cases that it passed at once, and no other has one. */
  ghost predicate RatesOf(rates: map<string, real>, outcomes: seq<CaseOutcome>) {
    forall g ::
      && (g in rates <==> exists o :: o in outcomes && RanOn(o, g))
      && (g in rates ==> IsShare(Ok(rates[g]), Cases(outcomes, AtOnceUnder(g)), Cases(outcomes, RanUnder(g))))
  }

  ghost predicate CountsOf(counts: map<string, int>, outcomes: seq<CaseOutcome>) {
    forall mode ::
      && (mode in counts <==> Occurrences(outcomes, mode) > 0)
      && (mode in counts ==> counts[mode] == Occurrences(outcomes, mode))
  }

  /** Every reliability metric asked for, worst-of across the graders. */
  ghost predicate ReliabilityOf(values: map<Metric, real>, asked: seq<Metric>, outcomes: seq<CaseOutcome>) {
    forall m ::
      && (m in values <==> m in asked)
      && (m in values ==> Compute(m, outcomes, None) == Ok(values[m]))
  }

  lemma FailureCounts(outcomes: seq<CaseOutcome>)
    ensures CountsOf(Tally(FlatMap(outcomes, FailureModes)), outcomes)
  {
    forall mode: string { OccurrencesAre(outcomes, mode); }
  }

  lemma GraderRates(outcomes: seq<CaseOutcome>)
    ensures RatesOf(PerGraderRates(outcomes), outcomes)
  {
    forall g: string
      ensures g in PerGraderRates(outcomes) <==> exists o :: o in outcomes && RanOn(o, g)
      ensures g in PerGraderRates(outcomes) ==>
                IsShare(Ok(PerGraderRates(outcomes)[g]), Cases(outcomes, AtOnceUnder(g)), Cases(outcomes, RanUnder(g)))
    {
      RanCounted(outcomes, g);
      if o :| o in outcomes && RanOn(o, g) { assert g in GradersThatRan(outcomes); }
    }
  }

  ghost function ErrorsFirst(): CaseOutcome -> bool { (o: CaseOutcome) => ErrorsAtOnce(o.labels) }

  /** The fields counted or computed case by case. */
  ghost predicate CountedFrom(a: IterationAggregate, outcomes: seq<CaseOutcome>, reliability: seq<Metric>)
    requires outcomes != []
  {
    && ReliabilityOf(a.reliability, reliability, outcomes)
    && CountsOf(a.failureModeCounts, outcomes)
    && RatesOf(a.perGraderPassRate, outcomes)
    && a.errorRate == Cases(outcomes, ErrorsFirst()) as real / |outcomes| as real
  }

  /** The fields added up over the cases. */
  ghost predicate AddedFrom(a: IterationAggregate, outcomes: seq<CaseOutcome>) {
    && a.totalCostUsd == TotalCost(outcomes) && a.totalDurationMs == TotalDuration(outcomes)
    && a.cacheHits == TotalCacheHits(outcomes) && a.llmCalls == TotalLlmCalls(outcomes)
  }

  /** The fields taken over, and the two rolled up from the breakdown trees. */
  ghost predicate TakenFrom(a: IterationAggregate, outcomes: seq<CaseOutcome>, primary: Metric,
                            grader: Option<string>)
  {
    && a.primaryMetric == primary && a.primaryGrader == grader
    && Compute(primary, outcomes, grader) == Ok(a.primaryValue)
    && a.caseCount == |outcomes| && a.caseOutcomes == outcomes
    && a.funnel == Rollup(AllBreakdowns(outcomes))
    && a.confusion == if AllCells(outcomes) == [] then None else Some(Confusion.Report(AllCells(outcomes)))
  }

  lemma AddedFields(outcomes: seq<CaseOutcome>, primary: Metric, reliability: seq<Metric>, grader: Option<string>)
    requires outcomes != [] && Aggregate(outcomes, primary, reliability, grader).Ok?
    ensures AddedFrom(Aggregate(outcomes, primary, reliability, grader).value, outcomes)
  {
    TotalsAre(outcomes);
  }

  lemma TakenFields(outcomes: seq<CaseOutcome>, primary: Metric, reliability: seq<Metric>, grader: Option<string>)
    requires outcomes != [] && Aggregate(outcomes, primary, reliability, grader).Ok?
    ensures TakenFrom(Aggregate(outcomes, primary, reliability, grader).value, outcomes, primary, grader)
  {
  }

  lemma CountedFields(outcomes: seq<CaseOutcome>, primary: Metric, reliability: seq<Metric>, grader: Option<string>)
    requires outcomes != [] && Aggregate(outcomes, primary, reliability, grader).Ok?
    ensures CountedFrom(Aggregate(outcomes, primary, reliability, grader).value, outcomes, reliability)
  {
    FailureCounts(outcomes);
    GraderRates(outcomes);
    CasesCounted(outcomes, Errored, ErrorsFirst());
    ReliabilityFrom(outcomes, reliability);
  }

  lemma ReliabilityFrom(outcomes: seq<CaseOutcome>, asked: seq<Metric>)
    ensures Reliability(asked, outcomes).Ok? ==> ReliabilityOf(Reliability(asked, outcomes).value, asked, outcomes)
  {
    assert forall m :: ComputeOn(outcomes)(m) == Compute(m, outcomes, None);
  }

  /** The fields of an aggregate of some outcomes, apart from its guardrails. */
  lemma FieldsExactly(outcomes: seq<CaseOutcome>, primary: Metric, reliability: seq<Metric>, grader: Option<string>)
    requires outcomes != [] && Aggregate(outcomes, primary, reliability, grader).Ok?
    ensures var a := Aggregate(outcomes, primary, reliability, grader).value;
            && TakenFrom(a, outcomes, primary, grader)
            && AddedFrom(a, outcomes)
            && CountedFrom(a, outcomes, reliability)
  {
    TakenFields(outcomes, primary, reliability, grader);
    AddedFields(outcomes, primary, reliability, grader);
    CountedFields(outcomes, primary, reliability, grader);
  }
}
