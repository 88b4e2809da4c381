/**
 The optimization run (optimization/loop.py): propose, run an iteration, decide against the
 best so far, test for a plateau, stop. `RunFrom` states the run over the list of finished
 iterations alone; `RunIterations` is the loop that keeps a baseline and a value history.
 */
module OptimizationLoop {
  import Sums
  import opened Wrappers
  import opened Metrics
  import opened Aggregator
  import opened Decision
  import opened Sharding

  type Modes = map<string, int>

  /**
   What a proposer answers from the iteration index and the failure modes of the previous
   iteration: the next parameters, or None for SearchSpaceExhaustedError.
   */
  datatype Proposer =
    | Grid(combos: seq<Params>)
    | Open(propose: (nat, Modes) -> Option<Params>)

  datatype Config = Config(maxIterations: nat, minDelta: real, patience: nat, earlyStop: Option<bool>)

  /** Runs one iteration, in process or sharded. */
  type Substrate = (nat, Params) -> Result<IterationAggregate>

  datatype Iteration = Iteration(index: nat, params: Params, aggregate: IterationAggregate, decision: Evaluation)

  datatype Reason = Converged | MaxIterations | SearchSpaceExhausted

  datatype Outcome = Finished(iterations: seq<Iteration>, reason: Reason) | Raised(error: Error)

  function Propose(proposer: Proposer, index: nat, modes: Modes): Option<Params> {
    match proposer
    case Grid(combos) => if index < |combos| then Some(combos[index]) else None
    case Open(propose) => propose(index, modes)
  }

  /** An explicit setting wins; otherwise every proposer but the grid may stop early. */
  function EarlyStopEnabled(config: Config, proposer: Proposer): bool {
    if config.earlyStop.Some? then config.earlyStop.value else !proposer.Grid?
  }

  function MaxOf(s: seq<real>): (m: real)
    requires s != []
    ensures m in s && forall x :: x in s ==> x <= m
  {
    if |s| == 1 then s[0]
    else
      var rest := MaxOf(s[..|s| - 1]);
      assert forall x :: x in s ==> x in s[..|s| - 1] || x == s[|s| - 1];
      if s[|s| - 1] > rest then s[|s| - 1] else rest
  }

  /** `has_converged`: the latest value against the best of the `patience` values before it. */
  function HasConverged(values: seq<real>, minDelta: real, patience: nat): bool
    requires patience >= 1
  {
    var n := |values|;
    n >= patience + 1 && values[n - 1] - MaxOf(values[n - 1 - patience..n - 1]) < minDelta
  }

  // ---- The run, over its finished iterations ----

  function Value(it: Iteration): real { it.aggregate.primaryValue }

  function Values(its: seq<Iteration>): (r: seq<real>)
    ensures |r| == |its| && forall i :: 0 <= i < |its| ==> r[i] == Value(its[i])
  {
    if its == [] then [] else Values(its[..|its| - 1]) + [Value(its[|its| - 1])]
  }

  /** The baseline after these iterations: replaced only by a strictly greater primary value. */
  function Best(its: seq<Iteration>): Option<IterationAggregate> {
    if its == [] then None
    else
      var before := Best(its[..|its| - 1]);
      var last := its[|its| - 1].aggregate;
      if before.None? || last.primaryValue > before.value.primaryValue then Some(last) else before
  }

  function PreviousModes(its: seq<Iteration>): Modes {
    if its == [] then map[] else its[|its| - 1].aggregate.failureModeCounts
  }

  function Next(e: Experiment, its: seq<Iteration>, params: Params, aggregate: IterationAggregate): seq<Iteration> {
    its + [Iteration(|its|, params, aggregate, Evaluate(e, aggregate, Best(its)))]
  }

  function Stops(config: Config, proposer: Proposer, its: seq<Iteration>): bool
    requires config.patience >= 1
  {
    EarlyStopEnabled(config, proposer) && HasConverged(Values(its), config.minDelta, config.patience)
  }

  function RunFrom(e: Experiment, config: Config, proposer: Proposer, run: Substrate, its: seq<Iteration>): Outcome
    requires config.patience >= 1
    decreases config.maxIterations - |its|
  {
    if |its| >= config.maxIterations then Finished(its, MaxIterations)
    else
      var proposal := Propose(proposer, |its|, PreviousModes(its));
      if proposal.None? then Finished(its, SearchSpaceExhausted)
      else
        var aggregate := run(|its|, proposal.value);
        if aggregate.Err? then Raised(aggregate.error)
        else
          var next := Next(e, its, proposal.value, aggregate.value);
          if Stops(config, proposer, next) then Finished(next, Converged)
          else RunFrom(e, config, proposer, run, next)
  }

  function Run(e: Experiment, config: Config, proposer: Proposer, run: Substrate): Outcome
    requires config.patience >= 1
  {
    RunFrom(e, config, proposer, run, [])
  }

  /** `_run_iterations`, with the state the source keeps between iterations. */
  method RunIterations(e: Experiment, config: Config, proposer: Proposer, run: Substrate) returns (r: Outcome)
    requires config.patience >= 1
    ensures r == Run(e, config, proposer, run)
  {
    var iterations: seq<Iteration> := [];
    var baseline: Option<IterationAggregate> := None;
    var recentPrimary: seq<real> := [];
    var prevFailureModes: Modes := map[];
    while |iterations| < config.maxIterations
      invariant |iterations| <= config.maxIterations
      invariant baseline == Best(iterations)
      invariant recentPrimary == Values(iterations)
      invariant prevFailureModes == PreviousModes(iterations)
      invariant Run(e, config, proposer, run) == RunFrom(e, config, proposer, run, iterations)
      decreases config.maxIterations - |iterations|
    {
      var index := |iterations|;
      var proposal := Propose(proposer, index, prevFailureModes);
      if proposal.None? { return Finished(iterations, SearchSpaceExhausted); }
      var aggregate := run(index, proposal.value);
      if aggregate.Err? { return Raised(aggregate.error); }
      var decision := EvaluateIteration(e, aggregate.value, baseline);
      ghost var before := iterations;
      iterations := iterations + [Iteration(index, proposal.value, aggregate.value, decision)];
      assert iterations[..|iterations| - 1] == before;
      prevFailureModes := aggregate.value.failureModeCounts;
      recentPrimary := recentPrimary + [aggregate.value.primaryValue];
      if baseline.None? || aggregate.value.primaryValue > baseline.value.primaryValue {
        baseline := Some(aggregate.value);
      }
      if EarlyStopEnabled(config, proposer) && HasConverged(recentPrimary, config.minDelta, config.patience) {
        return Finished(iterations, Converged);
      }
    }
    return Finished(iterations, MaxIterations);
  }

  // ---- Runs as lists of steps ----

  /** Each iteration was decided against the best of those before it, and none before the last stopped the run. */
  ghost predicate IsRun(e: Experiment, config: Config, proposer: Proposer, run: Substrate, its: seq<Iteration>)
    requires config.patience >= 1
  {
    && |its| <= config.maxIterations
    && (forall i :: 0 <= i < |its| ==>
          && its[i].index == i
          && Propose(proposer, i, PreviousModes(its[..i])) == Some(its[i].params)
          && run(i, its[i].params) == Ok(its[i].aggregate)
          && its[i].decision == Evaluate(e, its[i].aggregate, Best(its[..i])))
    && (forall i :: 0 < i < |its| ==> !Stops(config, proposer, its[..i]))
  }

  /** How a run that finished ended. */
  ghost predicate EndsAs(config: Config, proposer: Proposer, its: seq<Iteration>, reason: Reason)
    requires config.patience >= 1
  {
    match reason
    case MaxIterations => |its| == config.maxIterations && (its != [] ==> !Stops(config, proposer, its))
    case SearchSpaceExhausted =>
      && |its| < config.maxIterations && (its != [] ==> !Stops(config, proposer, its))
      && Propose(proposer, |its|, PreviousModes(its)) == None
    case Converged => its != [] && Stops(config, proposer, its)
  }

  ghost predicate EndsProperly(e: Experiment, config: Config, proposer: Proposer, run: Substrate, r: Outcome)
    requires config.patience >= 1
  {
    r.Finished? ==> IsRun(e, config, proposer, run, r.iterations) && EndsAs(config, proposer, r.iterations, r.reason)
  }

  lemma {:induction false} RunFromIsRun(e: Experiment, config: Config, proposer: Proposer, run: Substrate,
                                        its: seq<Iteration>)
    requires config.patience >= 1 && IsRun(e, config, proposer, run, its)
    requires its != [] ==> !Stops(config, proposer, its)
    ensures EndsProperly(e, config, proposer, run, RunFrom(e, config, proposer, run, its))
    decreases config.maxIterations - |its|
  {
    if |its| < config.maxIterations {
      var proposal := Propose(proposer, |its|, PreviousModes(its));
      if proposal.Some? && run(|its|, proposal.value).Ok? {
        var aggregate := run(|its|, proposal.value).value;
        var next := Next(e, its, proposal.value, aggregate);
        NextIsRun(e, config, proposer, run, its, proposal.value, aggregate);
        if !Stops(config, proposer, next) { RunFromIsRun(e, config, proposer, run, next); }
      }
    }
  }

  lemma NextIsRun(e: Experiment, config: Config, proposer: Proposer, run: Substrate, its: seq<Iteration>,
                  params: Params, aggregate: IterationAggregate)
    requires config.patience >= 1 && IsRun(e, config, proposer, run, its) && |its| < config.maxIterations
    requires its != [] ==> !Stops(config, proposer, its)
    requires Propose(proposer, |its|, PreviousModes(its)) == Some(params) && run(|its|, params) == Ok(aggregate)
    ensures IsRun(e, config, proposer, run, Next(e, its, params, aggregate))
  {
    var next := Next(e, its, params, aggregate);
    forall i | 0 <= i <= |its|
      ensures next[..i] == its[..i]
      ensures i < |its| ==> next[i] == its[i]
    {
    }
    assert its[..|its|] == its;
  }

  /** Every finished run is a list of such steps. */
  lemma RunIsRun(e: Experiment, config: Config, proposer: Proposer, run: Substrate)
    requires config.patience >= 1
    ensures var r := Run(e, config, proposer, run);
            r.Finished? ==>
              && IsRun(e, config, proposer, run, r.iterations)
              && EndsAs(config, proposer, r.iterations, r.reason)
  {
    RunFromIsRun(e, config, proposer, run, []);
  }

  // ---- The baseline ----

  /** Iteration i has the largest primary value, and is the first to have it. */
  ghost predicate FirstMaximal(its: seq<Iteration>, i: nat) {
    && i < |its|
    && (forall j :: 0 <= j < i ==> Value(its[j]) < Value(its[i]))
    && (forall j :: i <= j < |its| ==> Value(its[j]) <= Value(its[i]))
  }

  /** The baseline is the first maximal iteration: what `best_iteration` returns. */
  lemma {:induction false} BestIsFirstMaximal(its: seq<Iteration>, i: nat)
    requires FirstMaximal(its, i)
    ensures Best(its) == Some(its[i].aggregate)
  {
    var before := its[..|its| - 1];
    if i < |its| - 1 {
      BestIsFirstMaximal(before, i);
    } else if before != [] {
      var k := FirstMaximalExists(before);
      BestIsFirstMaximal(before, k);
    }
  }

  lemma {:induction false} FirstMaximalExists(its: seq<Iteration>) returns (i: nat)
    requires its != []
    ensures FirstMaximal(its, i)
  {
    i := 0;
    if |its| > 1 {
      var before := its[..|its| - 1];
      var k := FirstMaximalExists(before);
      i := if Value(its[|its| - 1]) > Value(its[k]) then |its| - 1 else k;
    }
  }

  /** A new value beats the baseline exactly when it beats every earlier value. */
  lemma BeatsBestExactly(its: seq<Iteration>, value: real)
    requires its != []
    ensures Best(its).Some?
    ensures value > Best(its).value.primaryValue <==> forall j :: 0 <= j < |its| ==> Value(its[j]) < value
  {
    var i := FirstMaximalExists(its);
    BestIsFirstMaximal(its, i);
    assert Value(its[i]) == Best(its).value.primaryValue;
  }

  /**
   After the first iteration a candidate is kept exactly when it violates no guardrail and its
   primary value strictly exceeds every earlier one; the first is kept when it meets the target.
   */
  lemma KeptInRun(e: Experiment, config: Config, proposer: Proposer, run: Substrate, its: seq<Iteration>, i: nat)
    requires config.patience >= 1 && IsRun(e, config, proposer, run, its) && i < |its|
    ensures its[i].decision.verdict == KEEP_CANDIDATE
            <==> && Clean(e, its[i].aggregate)
                 && if i == 0 then OnTarget(e, its[i].aggregate)
                    else forall j :: 0 <= j < i ==> Value(its[j]) < Value(its[i])
  {
    KeptExactly(e, its[i].aggregate, Best(its[..i]));
    if i > 0 {
      BeatsBestExactly(its[..i], Value(its[i]));
      assert forall j :: 0 <= j < i ==> its[..i][j] == its[j];
    }
  }

  /** So the kept candidates have strictly increasing primary values. */
  lemma KeptIncrease(e: Experiment, config: Config, proposer: Proposer, run: Substrate, its: seq<Iteration>,
                     i: nat, j: nat)
    requires config.patience >= 1 && IsRun(e, config, proposer, run, its) && i < j < |its|
    requires its[i].decision.verdict == its[j].decision.verdict == KEEP_CANDIDATE
    ensures Value(its[i]) < Value(its[j])
  {
    KeptInRun(e, config, proposer, run, its, j);
  }

  // ---- The plateau test bounds the run ----

  /** Every primary value an iteration can report is a fraction. */
  ghost predicate Bounded(its: seq<Iteration>) { forall i :: 0 <= i < |its| ==> 0.0 <= Value(its[i]) <= 1.0 }

  /** No plateau after the first m iterations. */
  ghost predicate NoPlateau(config: Config, its: seq<Iteration>, m: nat)
    requires config.patience >= 1 && m <= |its|
  {
    !HasConverged(Values(its[..m]), config.minDelta, config.patience)
  }

  /** Each unconverged step past the window gains at least minDelta on the step before it. */
  lemma StepGains(config: Config, its: seq<Iteration>, m: nat)
    requires config.patience >= 1 && config.patience < m <= |its| && NoPlateau(config, its, m)
    ensures Value(its[m - 1]) >= Value(its[m - 2]) + config.minDelta
  {
    var values := Values(its[..m]);
    var window := values[m - 1 - config.patience..m - 1];
    assert window[config.patience - 1] == values[m - 2] == Value(its[m - 2]);
    assert values[m - 1] == Value(its[m - 1]);
    assert window[config.patience - 1] in window;
  }

  /** What `n` gains of at least `d` add up to. */
  ghost function Gain(n: int, d: real): real { n as real * d }

  lemma OneMoreGain(n: int, d: real)
    ensures Gain(n, d) == Gain(n - 1, d) + d && Gain(0, d) == 0.0
  {
  }

  lemma GainsFit(n: int, d: real)
    requires d > 0.0 && Gain(n, d) <= 1.0
    ensures n <= (1.0 / d).Floor
  {
    var q := 1.0 / d;
    assert q * d == 1.0;
    if n as real > q { assert (n as real - q) * d > 0.0; }
  }

  /** No plateau after any of the first `n` iterations. */
  ghost predicate Climbs(config: Config, its: seq<Iteration>, n: nat)
    requires config.patience >= 1
  {
    n <= |its| && forall k :: config.patience < k <= n ==> NoPlateau(config, its, k)
  }

  lemma {:induction false} GainsAddUp(config: Config, its: seq<Iteration>, m: nat)
    requires config.patience >= 1 && config.patience <= m && Climbs(config, its, m)
    ensures Value(its[m - 1]) >= Value(its[config.patience - 1]) + Gain(m - config.patience, config.minDelta)
  {
    OneMoreGain(m - config.patience, config.minDelta);
    if m > config.patience {
      GainsAddUp(config, its, m - 1);
      assert NoPlateau(config, its, m);
      StepGains(config, its, m);
    }
  }

  lemma RunClimbs(e: Experiment, config: Config, proposer: Proposer, run: Substrate, its: seq<Iteration>)
    requires config.patience >= 1 && EarlyStopEnabled(config, proposer)
    requires IsRun(e, config, proposer, run, its) && its != []
    ensures Climbs(config, its, |its| - 1)
  {
    forall k | config.patience < k <= |its| - 1
      ensures NoPlateau(config, its, k)
    {
      assert !Stops(config, proposer, its[..k]);
    }
  }

  /** A climb between fractions is short. */
  lemma ClimbIsShort(config: Config, its: seq<Iteration>, n: nat)
    requires config.patience >= 1 && config.minDelta > 0.0 && Bounded(its)
    requires config.patience < n && Climbs(config, its, n)
    ensures n - config.patience <= (1.0 / config.minDelta).Floor
  {
    GainsAddUp(config, its, n);
    assert Value(its[n - 1]) <= 1.0 && Value(its[config.patience - 1]) >= 0.0;
    GainsFit(n - config.patience, config.minDelta);
  }

  lemma InversePositive(d: real)
    requires d > 0.0
    ensures (1.0 / d).Floor >= 0
  {
    assert 1.0 / d > 0.0;
  }

  /**
   With early stopping on and minDelta > 0, a run over fractional primary values makes at most
   patience + floor(1/minDelta) + 1 iterations, whatever maxIterations allows.
   */
  lemma EarlyStopBoundsRun(e: Experiment, config: Config, proposer: Proposer, run: Substrate, its: seq<Iteration>)
    requires config.patience >= 1 && config.minDelta > 0.0
    requires config.earlyStop == Some(true) || (config.earlyStop == None && proposer.Open?)
    requires IsRun(e, config, proposer, run, its) && Bounded(its)
    ensures |its| <= config.patience + (1.0 / config.minDelta).Floor + 1
  {
    InversePositive(config.minDelta);
    if |its| > config.patience + 1 {
      RunClimbs(e, config, proposer, run, its);
      ClimbIsShort(config, its, |its| - 1);
    }
  }

  // ---- The grid ----

  /**
   With a grid and no early-stop setting, the run visits exactly the first
   min(maxIterations, grid size) combinations in order, and says whether the grid ran out.
   */
  lemma GridRun(e: Experiment, config: Config, combos: seq<Params>, run: Substrate)
    requires config.patience >= 1 && config.earlyStop != Some(true)
    ensures var r := Run(e, config, Grid(combos), run);
            r.Finished? ==>
              && |r.iterations| == (if |combos| < config.maxIterations then |combos| else config.maxIterations)
              && (forall i :: 0 <= i < |r.iterations| ==> r.iterations[i].params == combos[i])
              && r.reason == (if |combos| < config.maxIterations then SearchSpaceExhausted else MaxIterations)
  {
    RunIsRun(e, config, Grid(combos), run);
    var r := Run(e, config, Grid(combos), run);
    if r.Finished? {
      var n := |r.iterations|;
      if n > 0 {
        assert Propose(Grid(combos), n - 1, PreviousModes(r.iterations[..n - 1])) == Some(r.iterations[n - 1].params);
      }
    }
  }

  // ---- Two substrates, one run ----

  function CoreOf(it: Iteration): Iteration { it.(aggregate := it.aggregate.(caseOutcomes := [])) }

  function CoreRun(its: seq<Iteration>): (r: seq<Iteration>)
    ensures |r| == |its| && forall i :: 0 <= i < |its| ==> r[i] == CoreOf(its[i])
  {
    if its == [] then [] else CoreRun(its[..|its| - 1]) + [CoreOf(its[|its| - 1])]
  }

  /** A run, without the order in which each iteration lists its outcomes. */
  function CoreOutcome(o: Outcome): Outcome {
    match o
    case Finished(its, reason) => Finished(CoreRun(its), reason)
    case Raised(error) => Raised(error)
  }

  lemma {:induction false} SameBest(a: seq<Iteration>, b: seq<Iteration>)
    requires CoreRun(a) == CoreRun(b)
    ensures |a| == |b| && Values(a) == Values(b) && PreviousModes(a) == PreviousModes(b)
    ensures Best(a).Some? <==> Best(b).Some?
    ensures Best(a).Some? ==> Best(a).value.(caseOutcomes := []) == Best(b).value.(caseOutcomes := [])
  {
    assert |CoreRun(a)| == |CoreRun(b)|;
    if a != [] {
      var x, y := a[..|a| - 1], b[..|b| - 1];
      assert CoreOf(a[|a| - 1]) == CoreRun(a)[|a| - 1] == CoreOf(b[|b| - 1]);
      forall i | 0 <= i < |x|
        ensures CoreRun(x)[i] == CoreRun(y)[i]
      {
        assert CoreRun(a)[i] == CoreRun(b)[i];
      }
      SameBest(x, y);
    }
  }

  lemma SameNext(e: Experiment, a: seq<Iteration>, b: seq<Iteration>, params: Params,
                 x: IterationAggregate, y: IterationAggregate)
    requires CoreRun(a) == CoreRun(b) && x.(caseOutcomes := []) == y.(caseOutcomes := [])
    ensures CoreRun(Next(e, a, params, x)) == CoreRun(Next(e, b, params, y))
  {
    SameBest(a, b);
    VerdictIgnoresOutcomes(e, x, y, Best(a), Best(b));
    assert Next(e, a, params, x)[..|a|] == a && Next(e, b, params, y)[..|b|] == b;
  }

  /** A run reaches these iterations and proposes `params` next. */
  ghost predicate Reaches(e: Experiment, config: Config, proposer: Proposer, run: Substrate, its: seq<Iteration>,
                          params: Params)
    requires config.patience >= 1
  {
    && IsRun(e, config, proposer, run, its) && |its| < config.maxIterations
    && (its != [] ==> !Stops(config, proposer, its))
    && Propose(proposer, |its|, PreviousModes(its)) == Some(params)
  }

  /** The substrates agree, outcome order apart, on every proposal the run over the first one makes. */
  ghost predicate Agree(e: Experiment, config: Config, proposer: Proposer, one: Substrate, two: Substrate)
    requires config.patience >= 1
  {
    forall its, p :: Reaches(e, config, proposer, one, its, p) ==> Core(one(|its|, p)) == Core(two(|its|, p))
  }

  /** One iteration of both runs from states that agree: they stop alike, or go on from states that agree. */
  lemma StepsAgree(e: Experiment, config: Config, proposer: Proposer, a: seq<Iteration>, b: seq<Iteration>,
                   params: Params, x: IterationAggregate, y: IterationAggregate)
    requires config.patience >= 1 && CoreRun(a) == CoreRun(b)
    requires x.(caseOutcomes := []) == y.(caseOutcomes := [])
    ensures var nextA, nextB := Next(e, a, params, x), Next(e, b, params, y);
            CoreRun(nextA) == CoreRun(nextB) && (Stops(config, proposer, nextA) <==> Stops(config, proposer, nextB))
  {
    SameNext(e, a, b, params, x, y);
    SameBest(Next(e, a, params, x), Next(e, b, params, y));
  }

  /** One iteration of a run that goes on. */
  lemma RunFromStep(e: Experiment, config: Config, proposer: Proposer, run: Substrate, its: seq<Iteration>,
                    params: Params)
    requires config.patience >= 1 && |its| < config.maxIterations
    requires Propose(proposer, |its|, PreviousModes(its)) == Some(params)
    ensures run(|its|, params).Err? ==>
              RunFrom(e, config, proposer, run, its) == Raised(run(|its|, params).error)
    ensures run(|its|, params).Ok? ==>
              var next := Next(e, its, params, run(|its|, params).value);
              RunFrom(e, config, proposer, run, its)
              == if Stops(config, proposer, next) then Finished(next, Converged)
                 else RunFrom(e, config, proposer, run, next)
  {
  }

  lemma {:induction false} RunsAgreeFrom(e: Experiment, config: Config, proposer: Proposer, one: Substrate,
                                         two: Substrate, a: seq<Iteration>, b: seq<Iteration>)
    requires config.patience >= 1 && CoreRun(a) == CoreRun(b) && Agree(e, config, proposer, one, two)
    requires IsRun(e, config, proposer, one, a) && (a != [] ==> !Stops(config, proposer, a))
    ensures CoreOutcome(RunFrom(e, config, proposer, one, a)) == CoreOutcome(RunFrom(e, config, proposer, two, b))
    decreases config.maxIterations - |a|
  {
    SameBest(a, b);
    if |a| < config.maxIterations && Propose(proposer, |a|, PreviousModes(a)).Some? {
      var params := Propose(proposer, |a|, PreviousModes(a)).value;
      RunFromStep(e, config, proposer, one, a, params);
      RunFromStep(e, config, proposer, two, b, params);
      assert Reaches(e, config, proposer, one, a, params);
      assert Core(one(|a|, params)) == Core(two(|a|, params));
      if one(|a|, params).Ok? {
        GoingOnAgrees(e, config, proposer, one, two, a, b, params, one(|a|, params).value, two(|a|, params).value);
      }
    }
  }

  lemma {:induction false} GoingOnAgrees(e: Experiment, config: Config, proposer: Proposer, one: Substrate,
                                         two: Substrate, a: seq<Iteration>, b: seq<Iteration>, params: Params,
                                         x: IterationAggregate, y: IterationAggregate)
    requires config.patience >= 1 && CoreRun(a) == CoreRun(b) && Agree(e, config, proposer, one, two)
    requires Reaches(e, config, proposer, one, a, params)
    requires one(|a|, params) == Ok(x) && x.(caseOutcomes := []) == y.(caseOutcomes := [])
    ensures var nextA, nextB := Next(e, a, params, x), Next(e, b, params, y);
            && CoreRun(nextA) == CoreRun(nextB) && (Stops(config, proposer, nextA) <==> Stops(config, proposer, nextB))
            && (!Stops(config, proposer, nextA) ==>
                  CoreOutcome(RunFrom(e, config, proposer, one, nextA))
                  == CoreOutcome(RunFrom(e, config, proposer, two, nextB)))
    decreases config.maxIterations - |a|, 0
  {
    StepsAgree(e, config, proposer, a, b, params, x, y);
    NextIsRun(e, config, proposer, one, a, params, x);
    var nextA, nextB := Next(e, a, params, x), Next(e, b, params, y);
    if !Stops(config, proposer, nextA) { RunsAgreeFrom(e, config, proposer, one, two, nextA, nextB); }
  }

  /** Substrates that agree on every proposal one run makes, outcome order apart, give the same run. */
  lemma RunsAgree(e: Experiment, config: Config, proposer: Proposer, one: Substrate, two: Substrate)
    requires config.patience >= 1 && Agree(e, config, proposer, one, two)
    ensures CoreOutcome(Run(e, config, proposer, one)) == CoreOutcome(Run(e, config, proposer, two))
  {
    RunsAgreeFrom(e, config, proposer, one, two, [], []);
  }

  // ---- Runs over real iterations ----

  function InProcessSubstrate(exec: Exec, cases: seq<string>, target: Target): Substrate {
    (i: nat, p: Params) => InProcess(exec, cases, i, p, target)
  }

  lemma RealRunIsBounded(e: Experiment, config: Config, proposer: Proposer, exec: Exec, cases: seq<string>,
                         target: Target, its: seq<Iteration>)
    requires config.patience >= 1 && IsRun(e, config, proposer, InProcessSubstrate(exec, cases, target), its)
    ensures Bounded(its)
  {
    forall i | 0 <= i < |its|
      ensures 0.0 <= Value(its[i]) <= 1.0
    {
      assert InProcessSubstrate(exec, cases, target)(i, its[i].params) == Ok(its[i].aggregate);
      MetricInUnit(target.primary, ExecuteAll(exec, cases, i, its[i].params), target.grader);
    }
  }

  /** The early-stop bound, for any proposer, any cases and any way of executing them. */
  lemma EarlyStopBoundsRealRun(e: Experiment, config: Config, proposer: Proposer, exec: Exec,
                               cases: seq<string>, target: Target)
    requires config.patience >= 1 && config.minDelta > 0.0
    requires config.earlyStop == Some(true) || (config.earlyStop == None && proposer.Open?)
    ensures var r := Run(e, config, proposer, InProcessSubstrate(exec, cases, target));
            r.Finished? ==> |r.iterations| <= config.patience + (1.0 / config.minDelta).Floor + 1
  {
    var run := InProcessSubstrate(exec, cases, target);
    var r := Run(e, config, proposer, run);
    RunIsRun(e, config, proposer, run);
    if r.Finished? {
      RealRunIsBounded(e, config, proposer, exec, cases, target, r.iterations);
      EarlyStopBoundsRun(e, config, proposer, run, r.iterations);
    }
  }

  /**
   One growing log of everything that happens in storage during a run: iteration i's barrier
   clears once `cleared(i)` events have happened, and its rows are read after `read(i)`.
   */
  datatype Log = Log(events: seq<Event>, cleared: nat -> nat, read: nat -> nat)

  /** The store after the first n events. */
  ghost function StoreAt(exec: Exec, log: Log, n: nat): State
    requires n <= |log.events|
  {
    Sharding.Run(exec, EMPTY, log.events[..n])
  }

  /**
   The log holds iteration i of a run: planned first with `params`, always for the same cases, its
   barrier clear by then with no case given up on.
   */
  ghost predicate Drained(exec: Exec, log: Log, run: string, i: nat, cases: seq<string>, params: Params) {
    && log.cleared(i) <= log.read(i) <= |log.events|
    && PlansCases(log.events[..log.read(i)], run, i, cases)
    && FirstParams(log.events[..log.cleared(i)], run, i) == Some(params)
    && BarrierClear(StoreAt(exec, log, log.cleared(i)), run, i)
    && forall k :: k in StoreAt(exec, log, log.cleared(i)).jobs && k.run == run && k.iteration == i ==>
                     StoreAt(exec, log, log.cleared(i)).jobs[k].status != DeadLettered
  }

  /** What the coordinator reads for iteration i. */
  ghost function ShardedSubstrate(exec: Exec, log: Log, run: string, target: Target): Substrate {
    (i: nat, p: Params) =>
      if log.read(i) <= |log.events| then FromStorage(StoreAt(exec, log, log.read(i)), run, i, target)
      else Err(TimeoutError)
  }

  lemma DrainedReads(exec: Exec, log: Log, run: string, i: nat, cases: seq<string>, params: Params, target: Target)
    requires Sums.Distinct(cases) && Drained(exec, log, run, i, cases, params)
    ensures Core(ShardedSubstrate(exec, log, run, target)(i, params))
            == Core(InProcessSubstrate(exec, cases, target)(i, params))
  {
    var before, after := log.events[..log.cleared(i)], log.events[log.cleared(i)..log.read(i)];
    assert before + after == log.events[..log.read(i)];
    ShardedEqualsInProcess(exec, before, after, run, i, cases, target);
  }

  /**
   A whole run through the coordinator, all its iterations in one log, makes the same proposals,
   aggregates, decisions and stop as the in-process run, whatever interleavings the log holds, if
   every proposal the run makes is drained in it.
   */
  lemma ShardedRunEqualsInProcessRun(e: Experiment, config: Config, proposer: Proposer, exec: Exec, cases: seq<string>,
                                     run: string, target: Target, log: Log)
    requires config.patience >= 1 && Sums.Distinct(cases)
    requires forall its, p :: Reaches(e, config, proposer, ShardedSubstrate(exec, log, run, target), its, p) ==>
                                Drained(exec, log, run, |its|, cases, p)
    ensures CoreOutcome(Run(e, config, proposer, ShardedSubstrate(exec, log, run, target)))
            == CoreOutcome(Run(e, config, proposer, InProcessSubstrate(exec, cases, target)))
  {
    var one, two := ShardedSubstrate(exec, log, run, target), InProcessSubstrate(exec, cases, target);
    forall its, p | Reaches(e, config, proposer, one, its, p)
      ensures Core(one(|its|, p)) == Core(two(|its|, p))
    {
      DrainedReads(exec, log, run, |its|, cases, p, target);
    }
    RunsAgree(e, config, proposer, one, two);
  }
}
