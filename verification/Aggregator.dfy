/**
 Rolling the case outcomes of one iteration into its aggregate
 (optimization/aggregator.py), and why the order of the outcomes does not matter.
 */
module Aggregator {
  import opened Wrappers
  import opened Sums
  import opened Counters
  import opened Ordering
  import opened Grades
  import opened FunnelRollup
  import opened CellKeys
  import opened Metrics
  import Confusion

  datatype IterationAggregate = IterationAggregate(
    primaryMetric: Metric,
    primaryValue: real,
    guardrails: map<Metric, real>,
    reliability: map<Metric, real>,
    failureModeCounts: map<string, int>,
    totalCostUsd: real,
    totalDurationMs: int,
    cacheHits: int,
    llmCalls: int,
    caseCount: nat,
    caseOutcomes: seq<CaseOutcome>,
    funnel: map<string, FunnelNode>,
    perGraderPassRate: map<string, real>,
    primaryGrader: Option<string>,
    errorRate: real,
    confusion: Option<Confusion.ConfusionReport>)

  // ---- What each field is ----

  function Cost(o: CaseOutcome): real { o.costUsd }
  function Duration(o: CaseOutcome): int { o.durationMs }
  function CacheHits(o: CaseOutcome): int { o.cacheHits }
  function LlmCalls(o: CaseOutcome): int { o.llmCalls }
  function FailureModes(o: CaseOutcome): seq<string> { o.failureModes }

  function WeightIn(weights: map<string, int>): string -> int { mode => if mode in weights then weights[mode] else 0 }

  /** The business weight of a case's failures: one weight per occurrence. */
  function WeightedFailures(o: CaseOutcome): int { SumInt(o.failureModes, WeightIn(o.failureWeights)) }
  function CriticalFailures(o: CaseOutcome): int { Count(o.failureModes, Among(o.criticalModes)) }

  predicate RealLe(a: real, b: real) { a <= b }
  function Latencies(outcomes: seq<CaseOutcome>): seq<real> { FlatMap(outcomes, LatencyOf) }
  function LatencyOf(o: CaseOutcome): seq<real> { [o.durationMs as real] }

  /** `_percentile`: linear interpolation between the two nearest ranks. */
  function Percentile(sorted: seq<real>, q: real): real
    requires 0.0 <= q <= 1.0
  {
    if sorted == [] then 0.0
    else if |sorted| == 1 then sorted[0]
    else
      RankInRange(q, |sorted| - 1);
      AtRank(sorted, q * (|sorted| - 1) as real)
  }

  function AtRank(sorted: seq<real>, rank: real): real
    requires |sorted| > 1 && 0.0 <= rank <= (|sorted| - 1) as real
  {
    var low := rank.Floor;
    if low + 1 >= |sorted| then sorted[|sorted| - 1] else Between(sorted[low], sorted[low + 1], rank - low as real)
  }

  function Between(a: real, b: real, t: real): real { a + t * (b - a) }

  lemma BetweenBounds(a: real, b: real, t: real, u: real)
    requires a <= b && 0.0 <= t <= u <= 1.0
    ensures a <= Between(a, b, t) <= Between(a, b, u) <= b
  {
    BetweenRises(a, b, 0.0, t);
    BetweenRises(a, b, t, u);
    BetweenRises(a, b, u, 1.0);
  }

  lemma BetweenRises(a: real, b: real, t: real, u: real)
    requires a <= b && t <= u
    ensures Between(a, b, t) <= Between(a, b, u)
  {
    NonNegative(u - t, b - a);
    assert (u - t) * (b - a) == u * (b - a) - t * (b - a);
  }

  lemma NonNegative(x: real, y: real)
    requires x >= 0.0 && y >= 0.0
    ensures x * y >= 0.0
  {
  }

  ghost predicate Rising(s: seq<real>) { forall i, j :: 0 <= i <= j < |s| ==> s[i] <= s[j] }

  lemma AtRankMonotone(s: seq<real>, x: real, y: real)
    requires |s| > 1 && Rising(s) && 0.0 <= x <= y <= (|s| - 1) as real
    ensures s[0] <= AtRank(s, x) <= AtRank(s, y) <= s[|s| - 1]
  {
    var a, b := x.Floor, y.Floor;
    if b + 1 < |s| {
      BetweenBounds(s[a], s[a + 1], x - a as real, 1.0);
      BetweenBounds(s[b], s[b + 1], y - b as real, 1.0);
      if a == b { BetweenBounds(s[a], s[a + 1], x - a as real, y - a as real); }
    } else if a + 1 < |s| {
      BetweenBounds(s[a], s[a + 1], x - a as real, 1.0);
    }
  }

  lemma RanksOrdered(q: real, r: real, n: nat)
    requires q <= r
    ensures q * n as real <= r * n as real
  {
    assert (r - q) * n as real >= 0.0;
  }

  /** Percentiles of sorted values never leave their range and never fall as the fraction rises. */
  lemma PercentileMonotone(s: seq<real>, q: real, r: real)
    requires s != [] && Rising(s) && 0.0 <= q <= r <= 1.0
    ensures s[0] <= Percentile(s, q) <= Percentile(s, r) <= s[|s| - 1]
  {
    if |s| > 1 {
      RankInRange(q, |s| - 1);
      RankInRange(r, |s| - 1);
      RanksOrdered(q, r, |s| - 1);
      AtRankMonotone(s, q * (|s| - 1) as real, r * (|s| - 1) as real);
    }
  }

  /** So the latency percentiles an iteration publishes are ordered. */
  lemma LatenciesOrdered(outcomes: seq<CaseOutcome>)
    requires outcomes != []
    ensures var s := Sort(Latencies(outcomes), RealLe);
            Percentile(s, 0.50) <= Percentile(s, 0.95) <= Percentile(s, 0.99)
  {
    var s := Sort(Latencies(outcomes), RealLe);
    SortPermutes(Latencies(outcomes), RealLe);
    SortSorted(Latencies(outcomes), RealLe);
    SortedRises(s);
    PercentileMonotone(s, 0.50, 0.95);
    PercentileMonotone(s, 0.95, 0.99);
  }

  lemma SortedRises(s: seq<real>)
    requires Sorted(s, RealLe)
    ensures Rising(s)
  {
    forall i, j | 0 <= i <= j < |s|
      ensures s[i] <= s[j]
    {
      assert i < j ==> RealLe(s[i], s[j]);
    }
  }

  lemma RankInRange(q: real, n: nat)
    requires 0.0 <= q <= 1.0
    ensures 0.0 <= q * n as real <= n as real
    ensures 0 <= (q * n as real).Floor <= n
  {
    assert (1.0 - q) * n as real >= 0.0;
  }

  /** The guardrail metrics an iteration publishes. */
  function Guardrails(n: nat, cost: real, duration: int, latencies: seq<real>, weighted: int, critical: int)
    : map<Metric, real>
    requires n > 0
  {
    (if cost > 0.0 then map[CostUsdPerCase := Mean(cost, n)] else map[])
    + (if duration > 0 then
         map[LatencyMsPerCaseAvg := Mean(duration as real, n),
             LatencyMsP50 := Percentile(latencies, 0.50),
             LatencyMsP95 := Percentile(latencies, 0.95),
             LatencyMsP99 := Percentile(latencies, 0.99)]
       else map[])
    + (if weighted > 0 then
         map[WeightedFailureTotal := weighted as real,
             WeightedFailurePerCase := Mean(weighted as real, n)]
       else map[])
    + map[CriticalFailureCount := critical as real]
  }

  function GuardrailsOf(outcomes: seq<CaseOutcome>): map<Metric, real>
    requires outcomes != []
  {
    Guardrails(|outcomes|, Sum(outcomes, Cost), SumInt(outcomes, Duration), Sort(Latencies(outcomes), RealLe),
               SumInt(outcomes, WeightedFailures), SumInt(outcomes, CriticalFailures))
  }

  /** The graders that gave at least one case a verdict. */
  function GradersThatRan(outcomes: seq<CaseOutcome>): set<string> {
    set o, g | o in outcomes && g in o.perGrader && o.perGrader[g] != [] :: g
  }

  function PassRate(outcomes: seq<CaseOutcome>): string -> real {
    g => Ratio(Count(outcomes, PassesFor(g)), Count(outcomes, RanFor(g)))
  }

  function PerGraderRates(outcomes: seq<CaseOutcome>): map<string, real> {
    map g | g in GradersThatRan(outcomes) :: PassRate(outcomes)(g)
  }

  function ComputeOn(outcomes: seq<CaseOutcome>): Metric -> Result<real> { m => Compute(m, outcomes, None) }

  /** The values of `metrics` under `f`; one that fails fails them all. */
  function Values(metrics: seq<Metric>, f: Metric -> Result<real>): Result<map<Metric, real>> {
    if forall m :: m in metrics ==> f(m).Ok?
    then Ok(map m | m in metrics :: f(m).value)
    else Err(ValueError)
  }

  /** Reliability metrics are always worst-of across graders. */
  function Reliability(metrics: seq<Metric>, outcomes: seq<CaseOutcome>): Result<map<Metric, real>> {
    Values(metrics, ComputeOn(outcomes))
  }

  function ConfusionOf(pairs: seq<Pair>): Option<Confusion.ConfusionReport> {
    if pairs == [] then None else Some(Confusion.Report(pairs))
  }

  function EmptyAggregate(primary: Metric, grader: Option<string>): IterationAggregate {
    IterationAggregate(primary, 0.0, map[], map[], map[], 0.0, 0, 0, 0, 0, [], map[], map[], grader, 0.0, None)
  }

  /** The aggregate of an iteration as sums and counts over its outcomes. */
  function Aggregate(outcomes: seq<CaseOutcome>, primary: Metric, reliability: seq<Metric>, grader: Option<string>)
    : Result<IterationAggregate>
  {
    if outcomes == [] then Ok(EmptyAggregate(primary, grader))
    else
      var primaryValue :- Compute(primary, outcomes, grader);
      var reliabilityValues :- Reliability(reliability, outcomes);
      Ok(IterationAggregate(
        primary, primaryValue,
        GuardrailsOf(outcomes),
        reliabilityValues,
        Tally(FlatMap(outcomes, FailureModes)),
        Sum(outcomes, Cost), SumInt(outcomes, Duration),
        SumInt(outcomes, CacheHits), SumInt(outcomes, LlmCalls),
        |outcomes|, outcomes,
        Rollup(AllBreakdowns(outcomes)),
        PerGraderRates(outcomes),
        grader,
        Ratio(Count(outcomes, Errored), |outcomes|),
        ConfusionOf(AllCells(outcomes))))
  }

  // ---- The computation ----

  lemma CountedNext(order: seq<string>, i: nat, p: string -> bool, f: string -> int)
    requires i < |order|
    ensures SumInt(Filter(order[..i + 1], p), f)
            == SumInt(Filter(order[..i], p), f) + if p(order[i]) then f(order[i]) else 0
  {
    var before := Filter(order[..i], p);
    FilterSnoc(order, i, p);
    SumIntAppend(before, [order[i]], f);
    assert before + [] == before;
  }

  /** One case's failures, through a per-case counter as the source weighs them. */
  method WeighCase(o: CaseOutcome) returns (weighted: int, critical: int)
    ensures weighted == WeightedFailures(o) && critical == CriticalFailures(o)
  {
    var order, counts := CountEach(o.failureModes);
    weighted, critical := 0, 0;
    var weight := WeightIn(o.failureWeights);
    for i := 0 to |order|
      invariant weighted == SumInt(order[..i], Weighed(counts, weight))
      invariant critical == SumInt(Filter(order[..i], Among(o.criticalModes)), Lookup(counts))
    {
      var mode := order[i];
      SumIntSnoc(order, i, Weighed(counts, weight));
      CountedNext(order, i, Among(o.criticalModes), Lookup(counts));
      weighted := weighted + Weighed(counts, weight)(mode);
      if mode in o.criticalModes { critical := critical + Lookup(counts)(mode); }
    }
    assert order[..|order|] == order;
    WeighedSum(o.failureModes, order, weight);
    CounterSum(o.failureModes, order, Among(o.criticalModes));
  }

  lemma FailuresNext(outcomes: seq<CaseOutcome>, i: nat)
    requires i < |outcomes|
    ensures Tally(FlatMap(outcomes[..i + 1], FailureModes))
            == BumpAll(Tally(FlatMap(outcomes[..i], FailureModes)), outcomes[i].failureModes)
    ensures SumInt(outcomes[..i + 1], WeightedFailures)
            == SumInt(outcomes[..i], WeightedFailures) + WeightedFailures(outcomes[i])
    ensures SumInt(outcomes[..i + 1], CriticalFailures)
            == SumInt(outcomes[..i], CriticalFailures) + CriticalFailures(outcomes[i])
  {
    FlatMapSnoc(outcomes, i, FailureModes);
    TallyBumpAll(FlatMap(outcomes[..i], FailureModes), outcomes[i].failureModes);
    SumIntSnoc(outcomes, i, WeightedFailures);
    SumIntSnoc(outcomes, i, CriticalFailures);
  }

  /** The failure loop of `aggregate_iteration`. */
  method CountFailures(outcomes: seq<CaseOutcome>)
    returns (modes: map<string, int>, weighted: int, critical: int)
    ensures modes == Tally(FlatMap(outcomes, FailureModes))
    ensures weighted == SumInt(outcomes, WeightedFailures) && critical == SumInt(outcomes, CriticalFailures)
  {
    modes, weighted, critical := map[], 0, 0;
    for i := 0 to |outcomes|
      invariant modes == Tally(FlatMap(outcomes[..i], FailureModes))
      invariant weighted == SumInt(outcomes[..i], WeightedFailures)
      invariant critical == SumInt(outcomes[..i], CriticalFailures)
    {
      modes := CountInto(modes, outcomes[i].failureModes);
      var w, c := WeighCase(outcomes[i]);
      weighted, critical := weighted + w, critical + c;
      FailuresNext(outcomes, i);
    }
    assert outcomes[..|outcomes|] == outcomes;
  }

  datatype Tallies = Tallies(passes: map<string, int>, runs: map<string, int>)

  /** What grader `g` has passed and run on among `outcomes`, if it ran at all. */
  ghost predicate RateSoFar(outcomes: seq<CaseOutcome>, t: Tallies, g: string) {
    && (g in t.passes <==> g in t.runs)
    && (g in t.runs <==> Count(outcomes, RanFor(g)) > 0)
    && Lookup(t.passes)(g) == Count(outcomes, PassesFor(g))
    && Lookup(t.runs)(g) == Count(outcomes, RanFor(g))
  }

  function AddRate(o: CaseOutcome, t: Tallies, g: string): Tallies {
    if !Ran(o, g) then t
    else Tallies(t.passes[g := Lookup(t.passes)(g) + if PassesFor(g)(o) then 1 else 0],
                 t.runs[g := Lookup(t.runs)(g) + 1])
  }

  predicate SameRate(t: Tallies, u: Tallies, g: string) {
    && (g in t.passes <==> g in u.passes) && (g in t.runs <==> g in u.runs)
    && Lookup(t.passes)(g) == Lookup(u.passes)(g) && Lookup(t.runs)(g) == Lookup(u.runs)(g)
  }

  /** The graders of one case, each added once to the running figures. */
  method AddCaseRates(o: CaseOutcome, t: Tallies) returns (u: Tallies)
    ensures forall g :: SameRate(u, AddRate(o, t, g), g)
  {
    u := t;
    var todo := o.perGrader.Keys;
    while todo != {}
      invariant todo <= o.perGrader.Keys
      invariant forall g :: SameRate(u, if g in todo then t else AddRate(o, t, g), g)
    {
      var h :| h in todo;
      ghost var before := u;
      todo, u := todo - {h}, AddRate(o, u, h);
      forall g
        ensures SameRate(u, if g in todo then t else AddRate(o, t, g), g)
      {
        assert SameRate(before, if g in todo + {h} then t else AddRate(o, t, g), g);
        if g == h { AddRateAlike(o, before, t, g); } else { AddRateElsewhere(o, before, g, h); }
      }
    }
  }

  lemma AddRateElsewhere(o: CaseOutcome, u: Tallies, g: string, h: string)
    requires g != h
    ensures SameRate(AddRate(o, u, h), u, g)
  {
  }

  lemma AddRateAlike(o: CaseOutcome, u: Tallies, t: Tallies, g: string)
    requires SameRate(u, t, g)
    ensures SameRate(AddRate(o, u, g), AddRate(o, t, g), g)
  {
  }

  lemma RateSnoc(outcomes: seq<CaseOutcome>, o: CaseOutcome, t: Tallies, g: string)
    requires RateSoFar(outcomes, t, g)
    ensures RateSoFar(outcomes + [o], AddRate(o, t, g), g)
  {
    FilterAppend(outcomes, [o], PassesFor(g));
    FilterAppend(outcomes, [o], RanFor(g));
  }

  lemma RanExactly(outcomes: seq<CaseOutcome>, g: string)
    ensures g in GradersThatRan(outcomes) <==> Count(outcomes, RanFor(g)) > 0
  {
    CountPositive(outcomes, RanFor(g));
  }

  method TallyRates(outcomes: seq<CaseOutcome>) returns (t: Tallies)
    ensures forall g :: RateSoFar(outcomes, t, g)
  {
    t := Tallies(map[], map[]);
    for i := 0 to |outcomes|
      invariant forall g :: RateSoFar(outcomes[..i], t, g)
    {
      ghost var before := t;
      t := AddCaseRates(outcomes[i], t);
      ghost var upto := outcomes[..i + 1];
      assert upto == outcomes[..i] + [outcomes[i]];
      forall g
        ensures RateSoFar(upto, t, g)
      {
        RateSnoc(outcomes[..i], outcomes[i], before, g);
        assert SameRate(t, AddRate(outcomes[i], before, g), g);
      }
    }
    assert outcomes[..|outcomes|] == outcomes;
  }

  function Rates(t: Tallies): map<string, real> { map g | g in t.runs :: Ratio(Lookup(t.passes)(g), t.runs[g]) }

  lemma RateExactly(outcomes: seq<CaseOutcome>, t: Tallies, g: string)
    requires RateSoFar(outcomes, t, g)
    ensures g in Rates(t) <==> g in GradersThatRan(outcomes)
    ensures g in Rates(t) ==> Rates(t)[g] == PassRate(outcomes)(g)
  {
    RanExactly(outcomes, g);
  }

  /** `_per_grader_pass_rate`. */
  method PerGraderPassRate(outcomes: seq<CaseOutcome>) returns (rates: map<string, real>)
    ensures rates == PerGraderRates(outcomes)
  {
    var t := TallyRates(outcomes);
    rates := Rates(t);
    forall g
      ensures g in rates <==> g in GradersThatRan(outcomes)
      ensures g in rates ==> rates[g] == PassRate(outcomes)(g)
    {
      RateExactly(outcomes, t, g);
    }
  }

  /** `_rollup_confusion`. */
  method RollupConfusion(outcomes: seq<CaseOutcome>) returns (r: Option<Confusion.ConfusionReport>)
    ensures r == ConfusionOf(AllCells(outcomes))
  {
    var pairs := GatherCells(outcomes);
    if pairs == [] { return None; }
    var report := Confusion.ConfusionFromPairs(pairs);
    r := Some(report);
  }

  /** `aggregate_iteration`. */
  method AggregateIteration(outcomes: seq<CaseOutcome>, primary: Metric, reliability: seq<Metric>,
                            grader: Option<string>)
    returns (r: Result<IterationAggregate>)
    ensures r == Aggregate(outcomes, primary, reliability, grader)
  {
    if outcomes == [] {
      return Ok(EmptyAggregate(primary, grader));
    }
    var primaryValue := Compute(primary, outcomes, grader);
    if primaryValue.Err? { return Err(primaryValue.error); }
    var reliabilityValues := Reliability(reliability, outcomes);
    if reliabilityValues.Err? { return Err(reliabilityValues.error); }
    var modes, weighted, critical := CountFailures(outcomes);
    var cost, duration := Sum(outcomes, Cost), SumInt(outcomes, Duration);
    var funnel := RollupFunnel(outcomes);
    var rates := PerGraderPassRate(outcomes);
    var confusion := RollupConfusion(outcomes);
    r := Ok(IterationAggregate(
      primary, primaryValue.value,
      Guardrails(|outcomes|, cost, duration, Sort(Latencies(outcomes), RealLe), weighted, critical),
      reliabilityValues.value, modes, cost, duration,
      SumInt(outcomes, CacheHits), SumInt(outcomes, LlmCalls), |outcomes|, outcomes,
      funnel, rates, grader, Ratio(Count(outcomes, Errored), |outcomes|), confusion));
  }

  // ---- Order does not matter ----

  /** Everything in an aggregate but the list of outcomes it was built from. */
  function Core(r: Result<IterationAggregate>): Result<IterationAggregate> {
    if r.Ok? then Ok(r.value.(caseOutcomes := [])) else r
  }

  lemma CellsOrderFree(a: seq<CaseOutcome>, b: seq<CaseOutcome>)
    requires Permutes(a, b)
    ensures ConfusionOf(AllCells(a)) == ConfusionOf(AllCells(b))
  {
    FlatMapPermutes(a, b, CellsOfOutcome);
    PermutesLength(AllCells(a), AllCells(b));
    Confusion.ReportOrderFree(AllCells(a), AllCells(b));
  }

  lemma FunnelOrderFree(a: seq<CaseOutcome>, b: seq<CaseOutcome>)
    requires Permutes(a, b)
    ensures Rollup(AllBreakdowns(a)) == Rollup(AllBreakdowns(b))
  {
    FlatMapPermutes(a, b, BreakdownsOf);
    RollupOrderFree(AllBreakdowns(a), AllBreakdowns(b));
  }

  lemma RatesOrderFree(a: seq<CaseOutcome>, b: seq<CaseOutcome>)
    requires Permutes(a, b)
    ensures PerGraderRates(a) == PerGraderRates(b)
  {
    SameMembers(a, b);
    assert GradersThatRan(a) == GradersThatRan(b);
    forall g | g in GradersThatRan(a)
      ensures PassRate(a)(g) == PassRate(b)(g)
    {
      CountPermutes(a, b, PassesFor(g));
      CountPermutes(a, b, RanFor(g));
    }
  }

  lemma GuardrailInputsOrderFree(a: seq<CaseOutcome>, b: seq<CaseOutcome>)
    requires Permutes(a, b)
    ensures Sum(a, Cost) == Sum(b, Cost) && SumInt(a, Duration) == SumInt(b, Duration)
    ensures Sort(Latencies(a), RealLe) == Sort(Latencies(b), RealLe)
    ensures SumInt(a, WeightedFailures) == SumInt(b, WeightedFailures)
    ensures SumInt(a, CriticalFailures) == SumInt(b, CriticalFailures)
  {
    SumPermutes(a, b, Cost);
    SumIntPermutes(a, b, Duration);
    SumIntPermutes(a, b, WeightedFailures);
    SumIntPermutes(a, b, CriticalFailures);
    FlatMapPermutes(a, b, LatencyOf);
    SortOrderFree(Latencies(a), Latencies(b), RealLe);
  }

  lemma ValuesExtensional(metrics: seq<Metric>, f: Metric -> Result<real>, g: Metric -> Result<real>)
    requires forall m :: m in metrics ==> f(m) == g(m)
    ensures Values(metrics, f) == Values(metrics, g)
  {
    if forall m :: m in metrics ==> f(m).Ok? {
      assert Values(metrics, f).value == Values(metrics, g).value;
    }
  }

  lemma ReliabilityOrderFree(metrics: seq<Metric>, a: seq<CaseOutcome>, b: seq<CaseOutcome>)
    requires Permutes(a, b)
    ensures Reliability(metrics, a) == Reliability(metrics, b)
  {
    forall m | m in metrics
      ensures ComputeOn(a)(m) == ComputeOn(b)(m)
    {
      MetricOrderFree(m, a, b, None);
    }
    ValuesExtensional(metrics, ComputeOn(a), ComputeOn(b));
  }

  /** Every field of the aggregate, except the order of the outcome list, ignores the order. */
  lemma AggregateOrderFree(a: seq<CaseOutcome>, b: seq<CaseOutcome>, primary: Metric, reliability: seq<Metric>,
                           grader: Option<string>)
    requires Permutes(a, b)
    ensures Core(Aggregate(a, primary, reliability, grader)) == Core(Aggregate(b, primary, reliability, grader))
  {
    PermutesLength(a, b);
    MetricOrderFree(primary, a, b, grader);
    ReliabilityOrderFree(reliability, a, b);
    GuardrailInputsOrderFree(a, b);
    FlatMapPermutes(a, b, FailureModes);
    TallyOrderFree(FlatMap(a, FailureModes), FlatMap(b, FailureModes));
    SumIntPermutes(a, b, CacheHits);
    SumIntPermutes(a, b, LlmCalls);
    CountPermutes(a, b, Errored);
    RatesOrderFree(a, b);
    FunnelOrderFree(a, b);
    CellsOrderFree(a, b);
  }
}
