/**
 A finished optimization run read back from its history alone (optimization/loop.py): who proposed
 what, against which baseline it was decided, and why the run ended.
 */
module RunHistory {
  import opened Wrappers
  import opened Sharding
  import opened Decision
  import opened OptimizationLoop
  import opened Convergence

  /** A plateau may end the run: when told so, or by default under an open-ended proposer. */
  ghost predicate MayStopEarly(config: Config, proposer: Proposer) {
    config.earlyStop == Some(true) || (config.earlyStop == None && proposer.Open?)
  }

  /** What iteration i was proposed, given the failure modes of the one before it. */
  ghost predicate ProposedAt(proposer: Proposer, i: nat, modes: Modes, params: Params) {
    if proposer.Grid? then i < |proposer.combos| && proposer.combos[i] == params
    else proposer.propose(i, modes) == Some(params)
  }

  ghost predicate NothingAt(proposer: Proposer, i: nat, modes: Modes) {
    if proposer.Grid? then i >= |proposer.combos| else proposer.propose(i, modes) == None
  }

  ghost function ModesBefore(its: seq<Iteration>, i: nat): Modes
    requires i <= |its|
  {
    if i == 0 then map[] else its[i - 1].aggregate.failureModeCounts
  }

  /** Iteration i was decided against the first of the best before it, or against nothing if it is the first. */
  ghost predicate DecidedAt(e: Experiment, its: seq<Iteration>, i: nat)
    requires i < |its|
  {
    if i == 0 then its[i].decision == Evaluate(e, its[i].aggregate, None)
    else exists b :: 0 <= b < i && IsFirstBest(its, i, b)
                     && its[i].decision == Evaluate(e, its[i].aggregate, Some(its[b].aggregate))
  }

  /** `b` is the first of the iterations before i with the largest primary value. */
  ghost predicate IsFirstBest(its: seq<Iteration>, i: nat, b: nat)
    requires b < i <= |its|
  {
    forall j :: 0 <= j < i ==>
      if j < b then its[j].aggregate.primaryValue < its[b].aggregate.primaryValue
      else its[j].aggregate.primaryValue <= its[b].aggregate.primaryValue
  }

  /** After n iterations, the last does not gain minDelta on one of the `patience` before it. */
  ghost predicate StallsAt(config: Config, its: seq<Iteration>, n: nat)
    requires n <= |its|
  {
    n >= config.patience + 1
    && exists b :: n - 1 - config.patience <= b < n - 1 && Stalls(config, its, n, b)
  }

  ghost predicate Stalls(config: Config, its: seq<Iteration>, n: nat, b: int)
    requires 0 <= b < n - 1 < |its|
  {
    its[n - 1].aggregate.primaryValue < its[b].aggregate.primaryValue + config.minDelta
  }

  ghost predicate StepIs(e: Experiment, proposer: Proposer, run: Substrate, its: seq<Iteration>, i: nat)
    requires i < |its|
  {
    && its[i].index == i
    && ProposedAt(proposer, i, ModesBefore(its, i), its[i].params)
    && run(i, its[i].params) == Ok(its[i].aggregate)
    && DecidedAt(e, its, i)
  }

  /** Why a run ended after its iterations. */
  ghost predicate EndedBy(config: Config, proposer: Proposer, its: seq<Iteration>, reason: Reason) {
    var n := |its|;
    var stalled := MayStopEarly(config, proposer) && StallsAt(config, its, n);
    && (reason == Converged <==> stalled)
    && (reason == MaxIterations <==> !stalled && n == config.maxIterations)
    && (reason == SearchSpaceExhausted <==> !stalled && n < config.maxIterations)
    && (reason == SearchSpaceExhausted ==> NothingAt(proposer, n, ModesBefore(its, n)))
  }

  lemma StopsIs(config: Config, proposer: Proposer, its: seq<Iteration>, n: nat)
    requires config.patience >= 1 && n <= |its|
    ensures Stops(config, proposer, its[..n]) <==> MayStopEarly(config, proposer) && StallsAt(config, its, n)
  {
    var values := Values(its[..n]);
    if n >= config.patience + 1 {
      HasConvergedEntries(values, config.minDelta, config.patience);
      forall b | n - 1 - config.patience <= b < n - 1
        ensures values[n - 1] < values[b] + config.minDelta <==> Stalls(config, its, n, b)
      {
      }
    }
  }

  lemma ProposalIsRead(e: Experiment, config: Config, proposer: Proposer, run: Substrate, its: seq<Iteration>, i: nat)
    requires config.patience >= 1 && IsRun(e, config, proposer, run, its) && i < |its|
    ensures its[i].index == i && ProposedAt(proposer, i, ModesBefore(its, i), its[i].params)
    ensures run(i, its[i].params) == Ok(its[i].aggregate)
    ensures its[i].decision == Evaluate(e, its[i].aggregate, Best(its[..i]))
  {
    assert PreviousModes(its[..i]) == ModesBefore(its, i);
  }

  lemma BaselineIsRead(its: seq<Iteration>, i: nat) returns (b: nat)
    requires 0 < i <= |its|
    ensures b < i && IsFirstBest(its, i, b) && Best(its[..i]) == Some(its[b].aggregate)
  {
    var before := its[..i];
    b := FirstMaximalExists(before);
    BestIsFirstMaximal(before, b);
    forall j | 0 <= j < i
      ensures if j < b then its[j].aggregate.primaryValue < its[b].aggregate.primaryValue
              else its[j].aggregate.primaryValue <= its[b].aggregate.primaryValue
    {
      assert before[j] == its[j] && before[b] == its[b];
    }
  }

  lemma StepIsRead(e: Experiment, config: Config, proposer: Proposer, run: Substrate, its: seq<Iteration>, i: nat)
    requires config.patience >= 1 && IsRun(e, config, proposer, run, its) && i < |its|
    ensures StepIs(e, proposer, run, its, i)
  {
    ProposalIsRead(e, config, proposer, run, its, i);
    if i > 0 { var b := BaselineIsRead(its, i); }
  }

  /**
   Every finished run: each iteration was proposed, executed and decided in turn, against the first
   of the best before it; no plateau was passed over; and the reason given is the one there was.
   */
  lemma FinishedRunIs(e: Experiment, config: Config, proposer: Proposer, run: Substrate)
    requires config.patience >= 1
    ensures var r := OptimizationLoop.Run(e, config, proposer, run);
            r.Finished? ==>
              && |r.iterations| <= config.maxIterations
              && (forall i :: 0 <= i < |r.iterations| ==> StepIs(e, proposer, run, r.iterations, i))
              && (forall n :: 0 <= n < |r.iterations| ==>
                    !(MayStopEarly(config, proposer) && StallsAt(config, r.iterations, n)))
              && EndedBy(config, proposer, r.iterations, r.reason)
  {
    RunIsRun(e, config, proposer, run);
    var r := OptimizationLoop.Run(e, config, proposer, run);
    if r.Finished? {
      var its := r.iterations;
      forall i | 0 <= i < |its| { StepIsRead(e, config, proposer, run, its, i); }
      forall n | 0 <= n <= |its| { StopsIs(config, proposer, its, n); }
      assert its[..|its|] == its;
    }
  }
}
