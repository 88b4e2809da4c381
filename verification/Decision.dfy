/** The decision on one iteration against the best so far (decision/matrix.py). */
module Decision {
  import opened Wrappers
  import opened Sums
  import opened Metrics
  import opened Aggregator

  datatype Operator = Gt | Ge | Lt | Le | Eq

  datatype MetricTarget = MetricTarget(name: Metric, operator: Operator, value: real)

  datatype Verdict = KEEP_CANDIDATE | REJECT | INVESTIGATE | SPAWN_SUBEXPERIMENT | REQUIRE_TRADEOFF_REVIEW

  /** What the experiment says to do; any policy the matrix does not know is `Unlisted`. */
  datatype RegressionPolicy = OnRegressionReject | OnRegressionInvestigate | OnRegressionSpawn | UnlistedRegression
  datatype GuardrailPolicy = OnViolationReject | OnViolationReview | UnlistedViolation

  datatype Experiment = Experiment(
    target: MetricTarget,
    guardrails: seq<MetricTarget>,
    ifRegressionFails: RegressionPolicy,
    ifGuardrailFails: GuardrailPolicy)

  datatype Evaluation = Evaluation(verdict: Verdict, violated: seq<MetricTarget>, delta: Option<real>)

  function Check(value: real, operator: Operator, threshold: real): bool {
    match operator
    case Gt => value > threshold
    case Ge => value >= threshold
    case Lt => value < threshold
    case Le => value <= threshold
    case Eq => value == threshold
  }

  /** A published guardrail value, or else a reliability value of that name. */
  function Observed(aggregate: IterationAggregate, name: Metric): Option<real> {
    if name in aggregate.guardrails then Some(aggregate.guardrails[name])
    else if name in aggregate.reliability then Some(aggregate.reliability[name])
    else None
  }

  /** A guardrail with no observed value passes. */
  predicate Violates(aggregate: IterationAggregate, g: MetricTarget) {
    var value := Observed(aggregate, g.name);
    value.Some? && !Check(value.value, g.operator, g.value)
  }

  function ViolatedBy(aggregate: IterationAggregate): MetricTarget -> bool {
    (g: MetricTarget) => Violates(aggregate, g)
  }

  /** `_guardrails_violated`. */
  method GuardrailsViolated(aggregate: IterationAggregate, guardrails: seq<MetricTarget>)
    returns (violations: seq<MetricTarget>)
    ensures violations == Filter(guardrails, ViolatedBy(aggregate))
  {
    violations := [];
    for i := 0 to |guardrails|
      invariant violations == Filter(guardrails[..i], ViolatedBy(aggregate))
    {
      FilterSnoc(guardrails, i, ViolatedBy(aggregate));
      if Violates(aggregate, guardrails[i]) { violations := violations + [guardrails[i]]; }
    }
    assert guardrails[..|guardrails|] == guardrails;
  }

  function VerdictForGuardrail(policy: GuardrailPolicy): Verdict {
    if policy == OnViolationReject then REJECT else REQUIRE_TRADEOFF_REVIEW
  }

  function VerdictForRegression(policy: RegressionPolicy): Verdict {
    match policy
    case OnRegressionInvestigate => INVESTIGATE
    case OnRegressionSpawn => SPAWN_SUBEXPERIMENT
    case _ => REJECT
  }

  function Delta(aggregate: IterationAggregate, baseline: Option<IterationAggregate>): Option<real> {
    if baseline.None? then None else Some(aggregate.primaryValue - baseline.value.primaryValue)
  }

  function MeetsTarget(e: Experiment, aggregate: IterationAggregate): bool {
    Check(aggregate.primaryValue, e.target.operator, e.target.value)
  }

  /** `evaluate_iteration`. */
  function Evaluate(e: Experiment, aggregate: IterationAggregate, baseline: Option<IterationAggregate>): Evaluation {
    var delta := Delta(aggregate, baseline);
    var violations := Filter(e.guardrails, ViolatedBy(aggregate));
    if violations != [] then Evaluation(VerdictForGuardrail(e.ifGuardrailFails), violations, delta)
    else if baseline.None? then
      Evaluation(if MeetsTarget(e, aggregate) then KEEP_CANDIDATE else INVESTIGATE, [], None)
    else if delta.value <= 0.0 then
      Evaluation(if MeetsTarget(e, aggregate) then REJECT else VerdictForRegression(e.ifRegressionFails), [], delta)
    else Evaluation(KEEP_CANDIDATE, [], delta)
  }

  method EvaluateIteration(e: Experiment, aggregate: IterationAggregate, baseline: Option<IterationAggregate>)
    returns (r: Evaluation)
    ensures r == Evaluate(e, aggregate, baseline)
  {
    var delta := Delta(aggregate, baseline);
    var violations := GuardrailsViolated(aggregate, e.guardrails);
    if violations != [] { return Evaluation(VerdictForGuardrail(e.ifGuardrailFails), violations, delta); }
    if baseline.None? {
      return Evaluation(if MeetsTarget(e, aggregate) then KEEP_CANDIDATE else INVESTIGATE, [], None);
    }
    if delta.value <= 0.0 {
      return Evaluation(if MeetsTarget(e, aggregate) then REJECT else VerdictForRegression(e.ifRegressionFails),
                        [], delta);
    }
    return Evaluation(KEEP_CANDIDATE, [], delta);
  }

  /** The value stands to the threshold as the operator says. */
  ghost predicate Stands(value: real, operator: Operator, threshold: real) {
    || (operator == Gt && value > threshold) || (operator == Ge && value >= threshold)
    || (operator == Lt && value < threshold) || (operator == Le && value <= threshold)
    || (operator == Eq && value == threshold)
  }

  /** The iteration publishes `value` under a name: as a guardrail, or else as a reliability metric. */
  ghost predicate Publishes(aggregate: IterationAggregate, name: Metric, value: real) {
    || (name in aggregate.guardrails && aggregate.guardrails[name] == value)
    || (name !in aggregate.guardrails && name in aggregate.reliability && aggregate.reliability[name] == value)
  }

  /** A guardrail fails when a value is published under its name that does not stand as it asks. */
  ghost predicate Fails(aggregate: IterationAggregate, g: MetricTarget) {
    exists value :: Publishes(aggregate, g.name, value) && !Stands(value, g.operator, g.value)
  }

  ghost predicate OnTarget(e: Experiment, aggregate: IterationAggregate) {
    Stands(aggregate.primaryValue, e.target.operator, e.target.value)
  }

  ghost predicate Clean(e: Experiment, aggregate: IterationAggregate) {
    forall g :: g in e.guardrails ==> !Fails(aggregate, g)
  }

  lemma ViolatesExactly(aggregate: IterationAggregate, g: MetricTarget)
    ensures Violates(aggregate, g) <==> Fails(aggregate, g)
  {
    if Violates(aggregate, g) {
      assert Publishes(aggregate, g.name, Observed(aggregate, g.name).value);
    }
  }

  lemma TargetExactly(e: Experiment, aggregate: IterationAggregate)
    ensures MeetsTarget(e, aggregate) <==> OnTarget(e, aggregate)
  {
  }

  /** The evaluation lists the guardrails that fail, in order, and the gain on the baseline if there is one. */
  lemma EvaluationExactly(e: Experiment, aggregate: IterationAggregate, baseline: Option<IterationAggregate>)
    ensures var r := Evaluate(e, aggregate, baseline);
            && Subsequence(r.violated, e.guardrails)
            && (forall g :: g in r.violated <==> g in e.guardrails && Fails(aggregate, g))
            && (r.delta.Some? <==> baseline.Some?)
            && (baseline.Some? ==> r.delta.value == aggregate.primaryValue - baseline.value.primaryValue)
  {
    var violations := Filter(e.guardrails, ViolatedBy(aggregate));
    FilterIsSubsequence(e.guardrails, ViolatedBy(aggregate));
    forall g
      ensures g in violations <==> g in e.guardrails && Fails(aggregate, g)
    {
      FilterMember(e.guardrails, ViolatedBy(aggregate), g);
      ViolatesExactly(aggregate, g);
    }
  }

  lemma CleanExactly(e: Experiment, aggregate: IterationAggregate)
    ensures Clean(e, aggregate) <==> Filter(e.guardrails, ViolatedBy(aggregate)) == []
  {
    var violations := Filter(e.guardrails, ViolatedBy(aggregate));
    if violations != [] {
      FilterMember(e.guardrails, ViolatedBy(aggregate), violations[0]);
      ViolatesExactly(aggregate, violations[0]);
    } else {
      forall g | g in e.guardrails
        ensures !Fails(aggregate, g)
      {
        FilterMember(e.guardrails, ViolatedBy(aggregate), g);
        ViolatesExactly(aggregate, g);
      }
    }
  }

  /** A candidate is kept exactly when no guardrail fails and it beats the baseline, or opens on target. */
  lemma KeptExactly(e: Experiment, aggregate: IterationAggregate, baseline: Option<IterationAggregate>)
    ensures Evaluate(e, aggregate, baseline).verdict == KEEP_CANDIDATE
            <==> && Clean(e, aggregate)
                 && (if baseline.None? then OnTarget(e, aggregate)
                     else aggregate.primaryValue > baseline.value.primaryValue)
  {
    CleanExactly(e, aggregate);
    TargetExactly(e, aggregate);
  }

  /** Not better than the baseline there is. */
  predicate Stagnates(aggregate: IterationAggregate, baseline: Option<IterationAggregate>) {
    baseline.Some? && aggregate.primaryValue <= baseline.value.primaryValue
  }

  /**
   When each of the other verdicts is given. A violated guardrail rejects or asks for a review, by
   its policy. A clean candidate that does not beat the baseline is rejected if it is on target, and
   otherwise handled by the regression policy; a clean opening candidate off target is investigated.
   */
  lemma OtherVerdictsExactly(e: Experiment, aggregate: IterationAggregate, baseline: Option<IterationAggregate>)
    ensures var verdict := Evaluate(e, aggregate, baseline).verdict;
            var clean, onTarget := Clean(e, aggregate), OnTarget(e, aggregate);
            var stagnates := Stagnates(aggregate, baseline);
            && (verdict == REQUIRE_TRADEOFF_REVIEW <==> !clean && e.ifGuardrailFails != OnViolationReject)
            && (verdict == REJECT
                <==> if !clean then e.ifGuardrailFails == OnViolationReject
                     else stagnates && (onTarget || e.ifRegressionFails.OnRegressionReject?
                                        || e.ifRegressionFails.UnlistedRegression?))
            && (verdict == INVESTIGATE
                <==> clean && !onTarget
                     && (baseline.None? || (stagnates && e.ifRegressionFails == OnRegressionInvestigate)))
            && (verdict == SPAWN_SUBEXPERIMENT
                <==> clean && !onTarget && stagnates && e.ifRegressionFails == OnRegressionSpawn)
  {
    CleanExactly(e, aggregate);
    TargetExactly(e, aggregate);
  }

  /** The decision reads nothing of an aggregate but its primary value and its published metrics. */
  lemma VerdictIgnoresOutcomes(e: Experiment, a: IterationAggregate, b: IterationAggregate,
                               x: Option<IterationAggregate>, y: Option<IterationAggregate>)
    requires a.(caseOutcomes := []) == b.(caseOutcomes := [])
    requires x.Some? <==> y.Some?
    requires x.Some? ==> x.value.(caseOutcomes := []) == y.value.(caseOutcomes := [])
    ensures Evaluate(e, a, x) == Evaluate(e, b, y)
  {
    assert a.primaryValue == b.primaryValue && a.guardrails == b.guardrails && a.reliability == b.reliability;
    forall g
      ensures ViolatedBy(a)(g) == ViolatedBy(b)(g)
    {
      assert Observed(a, g.name) == Observed(b, g.name);
    }
    FilterExtensional(e.guardrails, ViolatedBy(a), ViolatedBy(b));
  }
}
