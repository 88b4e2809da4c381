# Selfevals evaluation engine: a verified model

The evaluation engine of selfevals runs an agent over a set of cases, grades every
repetition, rolls the grades up into an iteration's aggregate, and lets an optimization loop
decide which candidate to keep. An iteration can run in process or be split into one job per
case that workers finish in any order. The promise the engine rests on is that its numbers do
not depend on how the work was carried out. This project models that engine and the algorithmic
modules around it, and proves the promise together with the properties each part is there for.

| file | models |
|---|---|
| `Sums.dfy`, `Counters.dfy`, `Ordering.dfy`, `Wrappers.dfy` | sums, counters, sorting and results; what they say about permutations |
| `Grades.dfy` | grades, breakdown trees, case outcomes, and their JSON form (lossless) |
| `Confusion.dfy`, `ConfusionMeaning.dfy`, `CellKeys.dfy`, `Classification.dfy` | the confusion report and what it says pair by pair, the cell keys it is gathered from, classification grades |
| `FunnelRollup.dfy`, `FunnelGrader.dfy` | the mutable funnel accumulator; the gating funnel grader |
| `CaseOutcomes.dfy`, `OutcomeMeaning.dfy`, `ScenarioExec.dfy` | one case's outcome, and what it is grade by grade; collapsing a conversation's turns |
| `Metrics.dfy`, `MetricMeaning.dfy`, `Aggregator.dfy`, `AggregateMeaning.dfy` | the metrics and the iteration aggregate, and what they measure case by case and repetition by repetition |
| `Sharding.dfy`, `Coordinator.dfy` | planning, workers, barrier and rebuild as a step protocol; the coordinator over a job store |
| `Barrier.dfy`, `Retries.dfy` | when an iteration's barrier can still clear; when a job is given up on |
| `Decision.dfy`, `OptimizationLoop.dfy`, `RunHistory.dfy`, `Convergence.dfy`, `GridSearch.dfy`, `Hypotheses.dfy` | decision matrix, the whole run and its history read back, its convergence test, the grid, hypotheses used up by the offline proposer |
| `Sampling.dfy` | largest-remainder apportionment of the optimization set |
| `Ranking.dfy`, `Likelihood.dfy`, `Elo.dfy`, `RankingMeaning.dfy`, `Pairing.dfy`, `Swiss.dfy` | tournaments: strengths and the likelihood they maximize, ratings, rows, pairings |
| `Broker.dfy`, `BrokerOverflow.dfy` | the in-process span broker; when an overflow strands a subscriber |
| `Encodings.dfy`, `Text.dfy`, `Tokens.dfy`, `Ulid.dfy` | UTF-8, base64url, decimals, signed tokens, ULIDs |

The chain of the main result: `OutcomeCodec.OutcomeRoundTrip` (nothing is lost in storage),
`FunnelRollup.RollupOrderFree`, `Confusion.ReportOrderFree` and `Metrics.MetricOrderFree`
(no rollup sees an order), `Aggregator.AggregateOrderFree`, the step invariant
`Sharding.RunKeeps`, and from these `Sharding.ShardedEqualsInProcess` for one iteration and
`OptimizationLoop.ShardedRunEqualsInProcessRun` for a whole run.

The specification functions of the main results are tied to definitions that do not use them. The files named `...Meaning`,
with `Retries`, `Likelihood` and `RunHistory`, hold most of these: they count by position, by repetition, by
outcome or by event, and state what a published number is in those terms.

Floating-point numbers are `real`. Executing a case is a deterministic function of the case, the
iteration and the parameters. Clocks, randomness, hashes, the HMAC and what other processes do
are parameters: a sample is any subset of its size, a hash shuffle any permutation, the HMAC any
function to 64 hexadecimal digits, the other processes any list of events.

Where the code and its documentation differ, the model follows the code:

- `has_converged` is documented as "the best value has not improved over the last `patience`
  values" and compares only the latest value with the `patience` values before it. It stops
  although the best has improved, and goes on although it has not, exactly in the cases of
  `Convergence.StopsAgainstDocsExactly` and `Convergence.GoesOnAgainstDocsExactly`; inputs are
  `Convergence.StopsRightAfterGain` and `Convergence.GoesOnBelowOldBest`.
- `pass@1` drops errored cases from its denominator and `pass@k` keeps them, so `pass@1 <= pass@k`
  is not a law without a primary grader; `Metrics.PassAtOneAgainstPassAt` says exactly when it
  holds. Against a primary grader it always does (`Metrics.PassAtOneForGrader`).
- `f1_score` is undefined when precision and recall are both 0 as well
  (`Confusion.F1Exact`, `Confusion.MacroF1Range`).
- A subscriber whose queue overflows is never told that it was disconnected, because the marker
  goes into the queue that just refused a span (`Broker.DisconnectNeverDelivered`). It is dropped
  from the list exactly when another subscriber leaves after that (`BrokerOverflow.DroppedExactly`),
  and then waits for ever: a stream can still end iff it is not stranded
  (`BrokerOverflow.CanEndExactly`, with a run that strands one in
  `BrokerOverflow.SlowReaderIsStranded`).
- A closed run is forgotten when its last open subscriber leaves, so a later subscriber may not be
  told of the close (`Broker.ForgottenExactly`, `Broker.ToldOfCloseExactly`, with an input in
  `Broker.NextReaderIsNotTold`).
- No caller reclaims expired scenario-job leases, so a worker that dies after claiming leaves its
  job claimed for ever (`Barrier.CrashStrands`). The barrier can still clear exactly when no job of
  the iteration is stranded so (`Barrier.BarrierCanClearExactly`).
- Re-planning keeps the parameters of the first plan (`ON CONFLICT DO NOTHING`), so the results
  below are about the first plan's parameters.
- Sampled pairing promises up to k opponents each. A candidate meets k plus those that picked it
  without being picked by it (`Pairing.OpponentsExactly`, with an input in
  `Pairing.MeetsMoreThanBudget`).
- An expected label that contains `->` is misread (`CellKeys.CellKeyRoundTrip`,
  `CellKeys.ArrowInExpectedIsMisread`), and its cell is lost to the confusion report
  (`Classification.LabelsReachOutcomeExactly`).
- Collapsing a conversation drops the grades of a turn beyond the final turn's number of graders
  and the root cell of a grade; `ScenarioExec.CellsSurviveExactly` says when that matters, and
  `Classification.UngradedFinalTurnLosesCell` is a conversation where it does.
- When agents are listed beside model parameters, the proposals drop every parameter exactly when
  some parameter is an empty list (`GridSearch.DropsParametersExactly`, with an input in
  `GridSearch.EmptyListDropsConstant`).
- `verify_token` raises something other than `TokenError` exactly when it comes to compare
  signatures outside ASCII (`Tokens.OnlyTokenErrorsExactly`, `Tokens.ForeignDigitRaisesTypeError`).
- `next_swiss_round` can pair a candidate with itself: under some standings it does so exactly when
  its list repeats the candidate and the candidate has not met itself before
  (`Swiss.SelfPairExactly`, `Swiss.NoSelfPairExactly`, with an input in `Swiss.MeetsItself`).
- Bradley-Terry accepts negative weights, and with one it can divide by zero
  (`Ranking.NegativeWeightDividesByZero`); when its tables of wins and games are consistent, as with
  weights of 0 or more, it never does (`Ranking.NeverDividesByZero`, `Ranking.TablesConsistent`).
- `is_ulid` accepts a valid text followed by a newline (`Ulid.IsUlidExactly`).

## Model

| member | source | states |
|---|---|---|
| OutcomeCodec.BreakdownRoundTrip | src/selfevals/graders/base.py:65-90 | `from_dict` inverts `to_dict` on breakdown trees of any depth |
| OutcomeCodec.OutcomeRoundTrip | src/selfevals/optimization/scenario_outcomes.py:27-70 | a case outcome read back from its row is the outcome that was written: no field is lost |
| Confusion.CountPairs | src/selfevals/graders/_confusion.py:118-125 | one pass gives the counter of the pairs, its keys in first-seen order and the number correct |
| Confusion.ScoreClasses | src/selfevals/graders/_confusion.py:131-148 | the pass over sorted classes gives each class its ratios from the pairs, and the sum and number of defined F1s |
| Confusion.ConfusionFromPairs | src/selfevals/graders/_confusion.py:111-158 | the loops compute the report defined over the pairs themselves: per-class ratios from counts of pairs, sorted classes, accuracy, macro-F1 |
| Confusion.F1Exact | src/selfevals/graders/_confusion.py:32-41 | a class F1 is defined iff the class has a true positive, and then is 2tp/(predicted+actual), in (0,1] |
| Confusion.CellsSumToPairs | src/selfevals/graders/_confusion.py:111-158 | the cells add up to the number of pairs, however they are enumerated |
| Confusion.AccuracyIsWeightedRecall | src/selfevals/graders/_confusion.py:111-158 | accuracy is the support-weighted mean of the class recalls |
| Confusion.MacroF1Range | src/selfevals/graders/_confusion.py:111-158 | macro-F1 is undefined iff accuracy is 0, and otherwise in (0,1] |
| Confusion.ReportOrderFree | src/selfevals/graders/_confusion.py:111-158 | permuted pairs give the same report |
| Confusion.ToNested | src/selfevals/graders/_confusion.py:67-76 | one row per expected class, holding exactly the observed cells |
| Confusion.FromNested | src/selfevals/graders/_confusion.py:91-108 | reading nested rows gives back the counter they were written from |
| Confusion.ReportRoundTrip | src/selfevals/graders/_confusion.py:78-108 | `from_dict` inverts `to_dict` on every report of `confusion_from_pairs` |
| ConfusionMeaning.ReportExactly | src/selfevals/graders/_confusion.py:111-158 | pair by pair: accuracy is the share of equal pairs, cells count their pairs, precision divides the hits by the pairs predicted as the class and recall by those expected as it, F1 is 2tp/(predicted+expected), macro-F1 the mean of the F1s that are defined, and the labels are the names that occur, sorted |
| ConfusionMeaning.ReportOfNone | src/selfevals/graders/_confusion.py:118-130 | no pair: zero counts, nothing defined |
| CellKeys.CellKeyRoundTrip | src/selfevals/graders/classification.py:75-93 | parsing inverts printing iff both labels are non-empty and the expected one holds no arrow |
| CellKeys.ParsedExactly | src/selfevals/graders/classification.py:80-93 | a key is read as a pair iff it is `cell:<expected>-><predicted>` with both non-empty and no arrow in the expected one; nothing else is a cell |
| CellKeys.ArrowInExpectedIsMisread | src/selfevals/graders/classification.py:75-93 | a concrete expected label with an arrow is parsed as another cell and shares its key |
| CellKeys.CollectCellPairs | src/selfevals/optimization/aggregator.py:404-415 | appends the cells of a tree, in preorder, to the pairs gathered so far |
| CellKeys.GatherCells | src/selfevals/optimization/aggregator.py:418-436 | gathers the cells of every tree of every case |
| FunnelRollup.Accumulator.constructor | src/selfevals/optimization/aggregator.py:340-352 | a fresh accumulator holds nothing |
| FunnelRollup.Accumulator.Add | src/selfevals/optimization/aggregator.py:353-370 | merging a node and its subtree keeps the accumulator the sum over all nodes added, with disjoint footprints below it |
| FunnelRollup.Accumulator.AddScalars | src/selfevals/optimization/aggregator.py:353-365 | count, weights, score sums and tallies each move by exactly what the node contributes |
| FunnelRollup.AddTo | src/selfevals/optimization/aggregator.py:366-370 | finds or creates the accumulator of a key; all others are untouched |
| FunnelRollup.RollupFunnel | src/selfevals/optimization/aggregator.py:385-401 | the mutable trees, frozen, are the rollup defined over all breakdown nodes |
| FunnelRollup.RollupAtPath | src/selfevals/optimization/aggregator.py:340-401 | for every key path: a funnel node is there iff some place of the trees spells the path; its count is the number of places, and its weight, tallies and weighted mean are sums over the nodes there |
| FunnelRollup.FiguresAtPath | src/selfevals/optimization/aggregator.py:340-401 | the figures at a path, over the nodes at its places: their weight, the mean of their scores weighted by their weights (none when the scored weight is 0), and how often each label and failure mode occurs |
| FunnelRollup.AtPlaces | src/selfevals/optimization/aggregator.py:340-401 | the nodes gathered at a path are the nodes at its places, one for one and in order |
| FunnelRollup.PlacesExactly | src/selfevals/optimization/aggregator.py:340-401 | the places listed for a path are, once each, those whose keys from a root down spell it |
| FunnelRollup.RollupOrderFree | src/selfevals/optimization/aggregator.py:385-401 | permuted cases, repetitions or siblings give the same funnel |
| FunnelRollup.AdvisoryKeepsMean | src/selfevals/optimization/aggregator.py:353-383 | weight-0 and unscored nodes never move a mean |
| FunnelRollup.MeanInUnit | src/selfevals/optimization/aggregator.py:353-383 | scores in [0,1] with non-negative weights give means in [0,1] |
| FunnelGrader.NewFunnel | src/selfevals/graders/funnel.py:265-274 | a funnel is accepted iff it has a name, a level, and no key twice in its tree; otherwise ValueError |
| FunnelGrader.Run.RunLevels | src/selfevals/graders/funnel.py:276-280 | a row of levels appends its nodes, and the evaluated ones to the shared list, children before parents |
| FunnelGrader.Run.RunLevel | src/selfevals/graders/funnel.py:324-375 | one level: skipped subtree if gated off, otherwise its match (a raise is an ERROR) and its children under the gate |
| FunnelGrader.Grade | src/selfevals/graders/funnel.py:276-321 | the result of a run is the verdict, mean score, failure modes and tree defined over the levels |
| FunnelGrader.TreeShowsEveryLevel | src/selfevals/graders/funnel.py:324-387 | at every place: below a gate that raised, failed or errored the node is SKIPPED with weight 0, no score and no failure modes; anywhere else it has weight 1 and what its match answered, an ERROR with its failure mode if the match raised |
| FunnelGrader.StopsExactly | src/selfevals/graders/funnel.py:353-359 | a level stops its children iff it is a gate and its match raised or answered FAIL or ERROR |
| FunnelGrader.CensusPlaces | src/selfevals/graders/funnel.py:324-387 | a level is recorded as blocked or open exactly as the places of the tree say |
| FunnelGrader.VotersAreUnblocked | src/selfevals/graders/funnel.py:276-375 | the nodes that vote are, one each, those of the levels with no failing gate above them |
| FunnelGrader.EvaluatedPlusSkipped | src/selfevals/graders/funnel.py:302-321 | evaluated plus skipped levels are the keys of the tree |
| FunnelGrader.SkippedNeverMatter | src/selfevals/graders/funnel.py:324-387 | judges that differ only on skipped levels give the same verdict, score and tree |
| FunnelGrader.VerdictExactly | src/selfevals/graders/funnel.py:282-291 | ERROR iff an unskipped level errors, else FAIL iff one fails, else PASS |
| FunnelGrader.VerdictFromPlaces | src/selfevals/graders/funnel.py:282-291 | ERROR iff some place without a failed gate above it raised or errored, else FAIL iff one failed, else PASS |
| FunnelGrader.ScoreExactly | src/selfevals/graders/funnel.py:293-294 | the score is the mean over the unskipped levels that have one |
| FunnelGrader.ScoreIsMean | src/selfevals/graders/funnel.py:293-294 | there is a score iff an unskipped level returned one, and it is their sum over their number |
| FunnelGrader.ModesExactly | src/selfevals/graders/funnel.py:296-310 | the failure modes of the result are those of the evaluated nodes, each once |
| CaseOutcomes.AddRepetition | src/selfevals/optimization/aggregator.py:314-320 | one repetition appends its failure modes and trees and adds each verdict under its grader |
| CaseOutcomes.OutcomeFor | src/selfevals/optimization/aggregator.py:296-337 | the loops build the outcome specified over repetitions and grades |
| OutcomeMeaning.OutcomeExactly | src/selfevals/optimization/aggregator.py:296-337 | every field from grades and traces: labels and scores repetition by repetition, failure modes and trees in order, each grader's labels in order, cost, duration, LLM calls and cache hits |
| OutcomeMeaning.PickLabelExactly | src/selfevals/optimization/aggregator.py:259-273 | ERROR iff somebody gave it, else FAIL, else PARTIAL; PASS iff there are grades and all pass; SKIPPED without any |
| OutcomeMeaning.PickScoreExactly | src/selfevals/optimization/aggregator.py:276-293 | the mean of the scores given; without any, passes plus half the partial passes over the grades; 0 without grades |
| CaseOutcomes.PickLabelIsWorst | src/selfevals/optimization/aggregator.py:259-273 | the label of a repetition is one of its graders' labels and the worst of them |
| CaseOutcomes.PassIsConjunctive | src/selfevals/optimization/aggregator.py:259-337 | a repetition passes iff it did not error, was graded, and every grader passed it |
| CaseOutcomes.WorstOfBoundsEachGrader | src/selfevals/optimization/aggregator.py:77-92 | a case that passes first time passes for each grader of that repetition |
| CaseOutcomes.OutcomeCells | src/selfevals/optimization/aggregator.py:296-337 | the confusion cells of an outcome are those of its grades |
| CaseOutcomes.ConversationCellsReachOutcome | src/selfevals/optimization/scenario_exec.py:126-200 | the outcome of a collapsed conversation carries the cells of all its turns, each as often, iff no turn loses any |
| ScenarioExec.Collapse | src/selfevals/optimization/scenario_exec.py:126-200 | one collapsed turn per thread in first-seen order, made from that thread's turns in position order; unequal lengths raise ValueError |
| ScenarioExec.ThreadInOrder | src/selfevals/optimization/scenario_exec.py:144-156 | a thread's turns are those that name it, or whose trace it is when they name none, by position with a missing one counting 0 |
| ScenarioExec.ThreadIsStable | src/selfevals/optimization/scenario_exec.py:153-156 | turns at the same position stay as they were recorded |
| ScenarioExec.CollapsedShowsTurns | src/selfevals/optimization/scenario_exec.py:152-200 | the collapsed turn has the final turn's trace and grades, errored iff some turn is, each grade over one node of weight 0 per turn that holds the turn's label, score and children under that grader |
| ScenarioExec.CollapseConservesCells | src/selfevals/optimization/scenario_exec.py:126-200 | kept cells plus discarded cells are the cells of the turns, as multisets |
| ScenarioExec.CellsSurviveExactly | src/selfevals/optimization/scenario_exec.py:126-200 | the cells survive as a multiset iff no turn has a grader beyond the final turn's or a root cell |
| Classification.UngradedFinalTurnLosesCell | src/selfevals/optimization/scenario_exec.py:126-200 | a conversation of two turns, the final one ungraded, whose collapse loses the only cell |
| Classification.BreakdownCellExactly | src/selfevals/graders/classification.py:221-252 | the breakdown of a grade carries exactly its (expected, predicted) cell iff both labels are non-empty and the expected one has no arrow |
| Classification.ClassifyExactly | src/selfevals/graders/classification.py:166-252 | PASS iff both classes are there and equal; otherwise FAIL with score 0 and the failure mode of what is missing or confused; label, score and failure mode of the cell are the grade's |
| Classification.LabelsReachOutcomeExactly | src/selfevals/graders/classification.py:166-252 | for a conversation graded by classification with equal grader counts, the cells of the case outcome are the label pairs of all its turns, each as often, iff every label pair can be read back from its key |
| ScenarioExec.VerdictIsFinalTurns | src/selfevals/optimization/scenario_exec.py:126-200 | each thread's labels and scores are its final turn's, and no turn of the thread comes later |
| Metrics.MetricInUnit | src/selfevals/optimization/aggregator.py:545-640 | a metric is computed iff it is supported (or there is no case), and lies in [0,1] |
| Metrics.MetricOrderFree | src/selfevals/optimization/aggregator.py:545-640 | permuted outcomes give the same metric |
| Metrics.PassMetricsOrdered | src/selfevals/optimization/aggregator.py:561-600 | with or without a primary grader, over any outcomes: pass^k <= pass@k, pass@k grows and pass^k falls with k |
| Metrics.PassAtOneAgainstPassAt | src/selfevals/optimization/aggregator.py:561-580 | without a primary grader, for every outcome list, pass@1 <= pass@k iff first*errored <= (any-first)*scored, for counts a caller can take beforehand |
| Metrics.PassAtOneForGrader | src/selfevals/optimization/aggregator.py:545-600 | against a primary grader pass@1 never exceeds pass@k |
| Metrics.PassAtOneCanExceedPassAtTwo | src/selfevals/optimization/aggregator.py:561-580 | two concrete cases with pass@1 = 1 and pass@2 = 1/2 |
| MetricMeaning.PassAtOneMeans | src/selfevals/optimization/aggregator.py:561-570 | the cases whose first repetition passes over those whose first does not error |
| MetricMeaning.PassAtMeans | src/selfevals/optimization/aggregator.py:571-580 | the share of cases that pass within their first k repetitions |
| MetricMeaning.PassHatMeans | src/selfevals/optimization/aggregator.py:581-591 | the share of cases that have k repetitions and pass each of the first k |
| MetricMeaning.PassHatOfOne | src/selfevals/optimization/aggregator.py:581-591 | for one case pass^k is 1 iff it has k repetitions and the first k all pass |
| MetricMeaning.ConsistencyMeans | src/selfevals/optimization/aggregator.py:592-595 | the mean over cases of the share of passing repetitions, under both its names |
| MetricMeaning.RecoveryMeans | src/selfevals/optimization/aggregator.py:596-612 | of the cases whose first repetition does not pass, the share that passes in a later one |
| MetricMeaning.GraderMeans | src/selfevals/optimization/aggregator.py:616-640 | the pass metrics of one grader: over the cases it ran on, by its own labels |
| MetricMeaning.OtherwiseMeans | src/selfevals/optimization/aggregator.py:556-613 | 0 without cases; otherwise ValueError exactly for the names that are not supported |
| Aggregator.WeighCase | src/selfevals/optimization/aggregator.py:470-478 | the per-case counter weighs failures as one weight per occurrence |
| Aggregator.CountFailures | src/selfevals/optimization/aggregator.py:464-478 | the failure loop gives the tally, the weighted and the critical totals over all cases |
| Aggregator.AddCaseRates | src/selfevals/optimization/aggregator.py:535-541 | each grader that ran on the case moves its count and passes by one case, no other grader moves |
| Aggregator.PerGraderPassRate | src/selfevals/optimization/aggregator.py:526-542 | each grader's rate is passes over runs, for exactly the graders that ran |
| Aggregator.RollupConfusion | src/selfevals/optimization/aggregator.py:418-436 | no report without cells, otherwise the report of all cells |
| Aggregator.AggregateIteration | src/selfevals/optimization/aggregator.py:439-523 | computes the aggregate specified over the outcomes, or the error of an unsupported metric |
| Aggregator.AggregateOrderFree | src/selfevals/optimization/aggregator.py:439-523 | every field but the outcome list itself ignores the order of the outcomes |
| Aggregator.PercentileMonotone | src/selfevals/optimization/aggregator.py:240-256 | percentiles stay within the values and never fall as the fraction rises |
| Aggregator.LatenciesOrdered | src/selfevals/optimization/aggregator.py:489-495 | p50 <= p95 <= p99 of an iteration's latencies |
| AggregateMeaning.PercentileExactly | src/selfevals/optimization/aggregator.py:240-256 | the point on the line between the two sorted values that the rank q(n-1) falls between, and the one value when there is one |
| AggregateMeaning.GuardrailsExactly | src/selfevals/optimization/aggregator.py:479-505 | which guardrails are published and the value of each: cost and latency means when positive, percentiles of the durations put in order, weighted failures by occurrence when positive, critical occurrences always, nothing else |
| AggregateMeaning.FieldsExactly | src/selfevals/optimization/aggregator.py:460-523 | every other field: totals by case, occurrences of each failure mode, each grader's share of first passes, the share of cases that error first, each metric asked for |
| AggregateMeaning.AggregateFailsExactly | src/selfevals/optimization/aggregator.py:460-463 | ValueError iff there are cases and the primary or a reliability metric is not supported |
| AggregateMeaning.AggregateOfNone | src/selfevals/optimization/aggregator.py:455-459 | without cases everything is zero or empty |
| Sharding.RunKeeps | src/selfevals/storage/postgres/queries.py:332-473 | over any events: rows hold what the worker computes from the job's parameters, finished jobs have rows, parameters and rows never change |
| Sharding.AttemptsBounded | src/selfevals/worker/scenario_runner.py:128-164 | no job is claimed more often than its limit |
| Retries.GivenUpExactly | src/selfevals/worker/scenario_runner.py:128-164 | over any events: a job is dead-lettered iff it has failed and as often as its limit, and its attempts are its failures plus the claim it holds or finished with |
| Retries.FailureCanBeRetried | src/selfevals/schemas/job.py:166-178 | a failure with attempts left makes the job pending, and the next claim takes it for one attempt more |
| Retries.SecondAttemptSucceeds | src/selfevals/worker/scenario_runner.py:128-164 | a run of a failure and a second attempt that writes the row and finishes |
| Retries.PlannedByFirst | src/selfevals/storage/postgres/queries.py:378-425 | over any events: a job is there iff a plan named its case, with the parameters and the limit of the first such plan |
| Sharding.StrandedForever | src/selfevals/storage/postgres/queries.py:490-538 | a claimed job whose worker died stays so over every continuation, and its barrier never clears |
| Barrier.BarrierCanClearExactly | src/selfevals/optimization/coordinator.py:120-137 | from any state that keeps the invariant, some continuation clears the barrier of an iteration iff none of its jobs is stranded |
| Barrier.CrashStrands | src/selfevals/worker/scenario_runner.py:128-164 | planning a case, claiming it and dying strands it, from the empty store on |
| Barrier.StrandedBecauseOfCrash | src/selfevals/storage/postgres/queries.py:490-538 | a job becomes stranded by no other event than the death of the worker that holds it |
| Sharding.BarrierMeansDone | src/selfevals/optimization/coordinator.py:120-137 | a cleared barrier means every case has its row or was dead-lettered |
| Sharding.StorageIs | src/selfevals/storage/postgres/queries.py:597-611 | an iteration in a reachable state holds one row, with the computed outcome, per finished case |
| Sharding.StorageMatchesExactly | src/selfevals/optimization/scenario_outcomes.py:73-97 | the rebuilt aggregate equals the in-process one iff the cases are distinct and each has its row |
| Sharding.ShardedEqualsInProcess | src/selfevals/optimization/coordinator.py:76-137 | for every interleaving of planning, re-planning, claims, writes, failures, retries and crashes, after a cleared barrier with no dead letter the rebuilt aggregate is the in-process one, outcome order apart |
| Coordinator.Store.InsertScenarioJobs | src/selfevals/storage/postgres/queries.py:378-425 | known keys are skipped, new ones inserted and counted |
| Coordinator.Store.Perform | src/selfevals/storage/postgres/queries.py:332-611 | one claim, write, finish, failure or crash is one step of the protocol |
| Coordinator.Store.InFlightCount | src/selfevals/storage/postgres/queries.py:427-445 | the count is 0 iff the barrier predicate holds |
| Coordinator.Store.OrderedCases | src/selfevals/storage/postgres/queries.py:597-611 | the cases that have a row, in ascending order |
| Coordinator.Store.AggregateFromStorage | src/selfevals/optimization/scenario_outcomes.py:73-97 | the aggregate of the decoded rows in case order |
| Coordinator.RunIteration | src/selfevals/optimization/coordinator.py:76-137 | plans, polls and rebuilds: it returns an aggregate iff the barrier cleared at a poll, and then that of the final store; else TimeoutError |
| Coordinator.RunIterationAfter | src/selfevals/optimization/coordinator.py:76-137 | over any store reached by events, with whatever other processes do before and after the polls: a cleared iteration with no dead letter returns the in-process aggregate for the parameters first planned, outcome order apart |
| Decision.GuardrailsViolated | src/selfevals/decision/matrix.py:68-101 | exactly the guardrails whose observed value fails the check, in order |
| Decision.ViolatesExactly | src/selfevals/decision/matrix.py:68-101 | a guardrail is violated iff a value is published under its name, guardrails before reliability metrics, that is not on the asked side of the threshold |
| Decision.EvaluateIteration | src/selfevals/decision/matrix.py:104-188 | the early returns compute the decision that `KeptExactly` and `OtherVerdictsExactly` characterise |
| Decision.EvaluationExactly | src/selfevals/decision/matrix.py:104-188 | the evaluation lists exactly the guardrails that fail, in order, and the gain on the baseline if there is one |
| Decision.KeptExactly | src/selfevals/decision/matrix.py:104-188 | KEEP iff no guardrail is violated and the candidate beats the baseline, or meets the target when there is none |
| Decision.OtherVerdictsExactly | src/selfevals/decision/matrix.py:104-188 | exactly when the verdict is REJECT, tradeoff review, INVESTIGATE or sub-experiment, by guardrails, target, baseline and policies |
| Decision.VerdictIgnoresOutcomes | src/selfevals/decision/matrix.py:104-188 | the decision does not read the outcome list |
| OptimizationLoop.RunIterations | src/selfevals/optimization/loop.py:255-385 | the loop with its baseline, value history and failure modes computes the run defined over finished iterations alone |
| OptimizationLoop.RunIsRun | src/selfevals/optimization/loop.py:305-385 | every finished run is a list of proposed, executed and decided steps none of which stopped it early, and ends for the reason it states |
| RunHistory.FinishedRunIs | src/selfevals/optimization/loop.py:255-385 | every finished run, read entry by entry: each step is what the proposer offers for the failure modes of the step before, executed, and decided against the first best of the earlier ones; it stops early exactly when it may and the latest value does not beat one of the patience values before it by minDelta, and its reason tells the three endings apart |
| OptimizationLoop.BestIsFirstMaximal | src/selfevals/optimization/loop.py:95-99 | the baseline is the first iteration with the largest primary value |
| OptimizationLoop.KeptInRun | src/selfevals/optimization/loop.py:326-372 | after the first, an iteration is kept iff it violates no guardrail and strictly exceeds every earlier value |
| OptimizationLoop.KeptIncrease | src/selfevals/optimization/loop.py:326-372 | kept candidates have strictly increasing primary values |
| OptimizationLoop.EarlyStopBoundsRun | src/selfevals/optimization/loop.py:305-385 | with early stop and minDelta > 0: at most patience + floor(1/minDelta) + 1 iterations, whatever maxIterations is |
| OptimizationLoop.EarlyStopBoundsRealRun | src/selfevals/optimization/loop.py:656-680 | the bound for every proposer, case set and execution, since every primary metric is a fraction |
| Convergence.StopsAgainstDocsExactly | src/selfevals/optimization/loop.py:669-680 | the code stops although the best of the last values improved on all before, iff one of them gained minDelta on all before and the latest did not gain it on each of the patience values before it |
| Convergence.GoesOnAgainstDocsExactly | src/selfevals/arena/schemas.py:126-130 | the code goes on although the best did not improve, iff the latest gained minDelta on the patience values before it but not on some older one |
| Convergence.AgreesWithDocsExactly | src/selfevals/optimization/loop.py:669-680 | the test does what is documented iff neither case holds |
| Convergence.StopsRightAfterGain | src/selfevals/optimization/loop.py:669-680 | a history that stops right after its best value rose |
| Convergence.GoesOnBelowOldBest | src/selfevals/optimization/loop.py:669-680 | a history that goes on although its best value is an old one |
| OptimizationLoop.GridRun | src/selfevals/optimization/loop.py:305-385 | a grid run visits exactly the first min(maxIterations, size) combinations in order and says which bound ended it |
| OptimizationLoop.RunsAgree | src/selfevals/optimization/loop.py:255-385 | substrates that agree on each iteration, outcome order apart, make the same run |
| OptimizationLoop.ShardedRunEqualsInProcessRun | src/selfevals/optimization/coordinator.py:56-137 | a whole sharded run over one growing event log equals the in-process run in proposals, aggregates, decisions and stop, if each proposal the run makes was drained in the log |
| GridSearch.Split | src/selfevals/optimization/proposers.py:125-133 | listed keys and values in order, and the constants |
| GridSearch.AssignAll | src/selfevals/optimization/proposers.py:137-141 | the dict of one tuple over the constants |
| GridSearch.GridCombinations | src/selfevals/optimization/proposers.py:119-142 | splitting, product and per-tuple dicts give the combinations built one entry at a time |
| GridSearch.ExpandMember | src/selfevals/optimization/proposers.py:119-142 | the combinations are exactly the choices: the keys of the space, each listed value or constant |
| GridSearch.CombosMember | src/selfevals/optimization/proposers.py:195-215 | the grid lists exactly the choices of agent and parameters |
| GridSearch.NothingToPropose | src/selfevals/optimization/proposers.py:195-215 | ValueError iff there are no agents and no parameters to choose: none in the space, or one that lists nothing |
| GridSearch.CombosDistinct | src/selfevals/optimization/proposers.py:195-215 | no combination twice when no list repeats a value |
| GridSearch.AgentsVarySlowest | src/selfevals/optimization/proposers.py:208-214 | entry i*P+j is agent i with parameters j |
| GridSearch.LastKeyVariesFastest | src/selfevals/optimization/proposers.py:119-142 | entry i*w+j is combination i of the other keys with value j of the last |
| GridSearch.NoChoiceExactly | src/selfevals/optimization/proposers.py:119-142 | the expansion is empty iff some entry is an empty list |
| GridSearch.DropsParametersExactly | src/selfevals/optimization/proposers.py:195-215 | with agents beside a non-empty parameter space, no proposal has parameters iff some parameter is an empty list, and then the proposals are the agents alone |
| GridSearch.EmptyListDropsConstant | src/selfevals/optimization/proposers.py:195-215 | one agent, an empty list and a constant: the proposal is the agent alone |
| GridSearch.GridProposer.EnsureCombos | src/selfevals/optimization/proposers.py:195-215 | the first space's combinations are computed once and kept; nothing to enumerate raises ValueError |
| GridSearch.GridProposer.Propose | src/selfevals/optimization/proposers.py:223-233 | the combination at the index, or exhausted |
| GridSearch.RunCoversGrid | src/selfevals/optimization/loop.py:305-380 | a grid run with enough iterations tries every choice at exactly one index, and its reason tells exhausted from capped |
| Hypotheses.OldestUnusedExactly | src/selfevals/optimization/loop.py:527-545 | the hypothesis taken is the oldest unused one; there is none iff all are used |
| Hypotheses.NextPending | src/selfevals/optimization/proposers.py:292-301 | the first pending record nothing has consumed |
| Hypotheses.Store.ProposeOffline | src/selfevals/optimization/proposers.py:364-373 | proposes the chosen hypothesis's parameters and stamps exactly that record, or is exhausted and changes nothing |
| Hypotheses.Store.MarkConsumed | src/selfevals/optimization/loop.py:547-553 | only the record of that id is stamped |
| Hypotheses.NeverAppliedTwice | src/selfevals/optimization/loop.py:305-321 | over a whole run, with hypotheses seeded at any time, no two iterations apply the same one |
| Hypotheses.PendingShrinks | src/selfevals/optimization/proposers.py:364-400 | a proposal uses up exactly one hypothesis |
| Sampling.TargetBounds | src/selfevals/optimization/sampling.py:121-132 | the target is the floor or ceiling of the share, within the pool, at least 1 when anything is asked of a non-empty pool |
| Sampling.TargetIsNearest | src/selfevals/optimization/sampling.py:121-132 | the target is the whole number nearest to the share, the even one of two; only a positive share that rounds to nothing is raised to one case |
| Sampling.GroupByFeature | src/selfevals/optimization/sampling.py:162-164 | each feature's indices in pool order, features in first-seen order |
| Sampling.SizesAddUp | src/selfevals/optimization/sampling.py:162-164 | the strata partition the pool |
| Sampling.ExtraSeats | src/selfevals/optimization/sampling.py:170-180 | the extra seats go to distinct strata that have a remainder and room, and complete the target |
| Sampling.AddSeats | src/selfevals/optimization/sampling.py:175-180 | one more seat each; the clamp to the stratum size never binds |
| Sampling.Apportion | src/selfevals/optimization/sampling.py:166-180 | every stratum gets the floor of its share or one more, adding up to the target; the seats above the floor go to the largest remainders, ties by name |
| Sampling.Draw | src/selfevals/optimization/sampling.py:182-188 | the drawn indices take from each stratum exactly its seats |
| Sampling.TakeStratified | src/selfevals/optimization/sampling.py:146-199 | exactly the target size, in pool order, every feature at the floor of its share or one above, and one above only for the largest remainders, ties by name; the top-up branch is dead |
| Sampling.TakeRandom | src/selfevals/optimization/sampling.py:135-143 | exactly the target size, in pool order |
| Sampling.SelectOptimizationSet | src/selfevals/optimization/sampling.py:56-101 | holdouts apart, the optimization set is an in-order part of the rest, of the size its strategy says and in largest-remainder proportion when stratified |
| Ranking.Tabulate | src/selfevals/optimization/ranking.py:158-174 | the arrays filled in place hold the sums over the outcomes |
| RankingMeaning.WinsExactly | src/selfevals/optimization/ranking.py:158-174 | a candidate's wins: the weight of each outcome it won, half of each it tied, over the outcomes between two listed candidates |
| RankingMeaning.GamesExactly | src/selfevals/optimization/ranking.py:158-170 | the games of two candidates: the weight of the outcomes between them, whoever won |
| Ranking.GamesSymmetric | src/selfevals/optimization/ranking.py:162-170 | the game matrix is symmetric |
| Ranking.WinsConserved | src/selfevals/optimization/ranking.py:162-174 | fractional wins add up to the weight of the outcomes between known candidates |
| Ranking.SafeDivision | src/selfevals/optimization/ranking.py:178-186 | of two candidates that met one has strength, so the denominator is not zero |
| Ranking.Record | src/selfevals/optimization/ranking.py:162-173 | one outcome moves the arrays by exactly its shares; an unknown id changes nothing |
| Ranking.Opponents | src/selfevals/optimization/ranking.py:179-185 | the inner loop sums the games over the strengths of those met, and divides by zero iff a strength cancels that of an opponent met |
| Ranking.Improve | src/selfevals/optimization/ranking.py:176-192 | one round in place is the round of the specification, or ZeroDivisionError |
| Ranking.RoundKeeps | src/selfevals/optimization/ranking.py:176-192 | after a round somebody of every pair that met still has strength, so no denominator is ever zero; strengths sum to 1 and are zero exactly for those who met someone and won nothing |
| Ranking.MaximizeLikelihood | src/selfevals/optimization/ranking.py:176-192 | the iteration with its tolerance exit computes the specified strengths, or raises in the first round that divides by zero |
| Likelihood.ExpectedIsDenominator | src/selfevals/optimization/ranking.py:178-186 | what a candidate is expected to win, summing g(i,j) p(i)/(p(i)+p(j)) over the others, is its strength times its denominator |
| Likelihood.ExpectedTotal | src/selfevals/optimization/ranking.py:137-140 | under any strengths every game is expected to be won once |
| Likelihood.FixedPointBalances | src/selfevals/optimization/ranking.py:176-192 | at strengths that a round leaves alone, every candidate that met another has won one common factor times what it is expected to win |
| Likelihood.RestsAtLikelihoodExactly | src/selfevals/optimization/ranking.py:137-140 | with non-negative weights and nobody against itself, a round leaves strengths alone iff they solve the likelihood equations: everybody has won exactly what it is expected to win |
| Likelihood.StoppedStrengths | src/selfevals/optimization/ranking.py:176-192 | how far the strengths of a run that stops by its tolerance can miss this: times the strength, by at most twice the tolerance of the expected wins |
| Ranking.StrengthsAreDistribution | src/selfevals/optimization/ranking.py:131-195 | whenever the tables are consistent: non-negative strengths that sum to 1, zero exactly for candidates that met another and took no share of a win |
| Ranking.NeverDividesByZero | src/selfevals/optimization/ranking.py:176-192 | when the tables of wins and games are consistent no round divides by zero, even with negative weights |
| Ranking.TablesConsistent | src/selfevals/optimization/ranking.py:158-174 | non-negative weights give consistent tables: nothing negative, games symmetric, one of two that met has a share of a win |
| Ranking.NegativeWeightDividesByZero | src/selfevals/optimization/ranking.py:176-192 | three outcomes, one of weight -1, whose second round divides by zero |
| Ranking.BradleyTerry | src/selfevals/optimization/ranking.py:131-195 | rows of the strengths, best first, for any number of candidates and any weights; it raises ZeroDivisionError iff a round divides by zero, and never with consistent tables |
| RankingMeaning.BradleyTerryExactly | src/selfevals/optimization/ranking.py:83-100 | one row per listed candidate with its strength, or 1 if it is alone, and its outcomes won, lost and tied, best first and equal scores by name |
| Ranking.BradleyTerryOrderFree | src/selfevals/optimization/ranking.py:131-195 | permuted outcomes give the same rows, and raise ZeroDivisionError or not alike |
| Elo.Play | src/selfevals/optimization/ranking.py:119-127 | one outcome moves the two ratings by the weighted surprise, an unknown id nothing |
| Elo.Rate | src/selfevals/optimization/ranking.py:115-128 | the rating loop computes the ratings after each outcome in turn |
| Elo.EloRatings | src/selfevals/optimization/ranking.py:103-128 | rows of the final ratings, best first |
| Elo.PointsConserved | src/selfevals/optimization/ranking.py:115-128 | rating points are conserved, less half a step for each outcome in which a candidate beats itself |
| Elo.WinMovesUp | src/selfevals/optimization/ranking.py:115-128 | a win raises the winner by less than a step at the loser's cost and moves nobody else |
| RankingMeaning.UpsetsPayMore | src/selfevals/optimization/ranking.py:119-127 | the same result moves the ratings more the less the winner led, for every rising expectation curve |
| RankingMeaning.EqualsAndTies | src/selfevals/optimization/ranking.py:119-127 | beating an equal moves half a step, tying with one nothing, and a tie helps exactly the weaker side |
| RankingMeaning.WinAgainstTie | src/selfevals/optimization/ranking.py:119-127 | at any ratings a win is worth half a step more than a tie |
| RankingMeaning.RowsExactly | src/selfevals/optimization/ranking.py:62-100 | one row per listed candidate, counting what it won, lost and tied against anybody, best first and equal scores by name |
| Pairing.AllPairs | src/selfevals/optimization/pairing.py:49-56 | every unordered pair once, n(n-1)/2 of them |
| Pairing.AddOpponents | src/selfevals/optimization/pairing.py:82-86 | adds exactly the canonical pairs with the picks that were not there |
| Pairing.PickOpponents | src/selfevals/optimization/pairing.py:80-82 | k distinct others |
| Pairing.SamplePairs | src/selfevals/optimization/pairing.py:59-87 | distinct canonical pairs of the picks made, each candidate meeting its k picks and the surplus of those that picked it, between nk/2 and nk pairs; a full budget is the round-robin |
| Pairing.OpponentsExactly | src/selfevals/optimization/pairing.py:59-87 | a candidate meets k opponents plus those that picked it and were not picked by it; exactly k iff everyone who picked it was picked by it |
| Pairing.MeetsMoreThanBudget | src/selfevals/optimization/pairing.py:59-87 | picks of three candidates with a budget of one, where one meets two |
| Pairing.Handshake | src/selfevals/optimization/pairing.py:59-87 | the degrees add up to twice the pairs |
| Swiss.FindOpponent | src/selfevals/optimization/pairing.py:109-118 | the first later candidate that is free and unmet, or none |
| Swiss.NextRound | src/selfevals/optimization/pairing.py:90-119 | for any list, repeats included, the round that `RoundOf` defines place by place: pairs from two places, avoiding played pairs, nobody in two pairs, maximal, each taking its nearest free opponent in the standings |
| Swiss.RoundByStanding | src/selfevals/optimization/pairing.py:90-119 | for any standings: the pairs are made in order of standing, the first of a pair stands ahead of the second, and everyone standing between them was paired before or has met the first |
| Swiss.SelfPairExactly | src/selfevals/optimization/pairing.py:90-119 | some standings make a round pair a candidate with itself iff the list repeats it and it has not met itself |
| Swiss.NoSelfPairExactly | src/selfevals/optimization/pairing.py:90-119 | no standings pair anyone with itself iff every repeated candidate has met itself |
| Swiss.SelfPairInRound | src/selfevals/optimization/pairing.py:90-119 | under given standings, a candidate is paired with itself iff it is repeated, has not met itself and nobody standing before takes it |
| Swiss.MeetsItself | src/selfevals/optimization/pairing.py:90-119 | a list of one candidate twice, paired with itself |
| Swiss.RoundKeysNew | src/selfevals/optimization/pairing.py:90-119 | the canonical pairs of a round are new and distinct, and of different candidates unless the list repeats one |
| Swiss.RunRounds | src/selfevals/runner/pairwise_tournament.py:173-198 | over all rounds no pair repeats, at most n(n-1)/2 are played, and stopping early means all have met |
| Broker.RunKeeps | src/selfevals/api/broker.py:110-220 | over every interleaving queues stay within 256 and each unclosed subscriber is listed once, in its own channel |
| Broker.StreamConserved | src/selfevals/api/broker.py:114-220 | seen plus queued is an in-order part of what was offered, and refused offers are exactly the rest |
| Broker.StreamIsPartOfIdeal | src/selfevals/api/broker.py:114-220 | for every subscriber of an open run, overflowed and dropped ones included: it is offered a beginning of what was published and closed since it attached, and what it saw or has queued is an in-order part of that |
| Broker.NothingLostExactly | src/selfevals/api/broker.py:180-220 | a subscriber gets everything offered iff no offer found its queue full |
| Broker.NothingAfterClose | src/selfevals/api/broker.py:140-147 | nothing is yielded after a close, and a listening subscriber has seen none |
| Broker.DisconnectNeverDelivered | src/selfevals/api/broker.py:188-198 | every close a subscriber gets was raised by closing its own run, never by an overflow |
| Broker.TracksIdeal | src/selfevals/api/broker.py:114-220 | a subscriber that lost nothing stands exactly where an unbounded broker would have it |
| Broker.SeesAllThenOneClose | src/selfevals/api/broker.py:114-220 | it sees exactly the spans published from its attachment to the first close, then that close |
| Broker.OverflowStrands | src/selfevals/api/broker.py:148-154 | from any world: a span on a full queue and another subscriber's leaving strand the subscriber |
| BrokerOverflow.DroppedExactly | src/selfevals/api/broker.py:148-198 | over any run, a listening subscriber is marked iff a span found its queue full, and off its run's list iff another subscriber of the run left after that |
| BrokerOverflow.ListedStreamExactly | src/selfevals/api/broker.py:114-219 | over any run, marked or not: as long as a subscriber is on the list, what it saw or has queued is what a broker gives it that leaves an item out exactly when 256 given before are unread |
| BrokerOverflow.SlowReaderIsStranded | src/selfevals/api/broker.py:114-198 | a run from the empty broker, of two readers and 257 spans, that strands the slow one |
| Broker.StrandedForever | src/selfevals/api/broker.py:140-154 | then no continuation ever ends its stream |
| BrokerOverflow.CanEndExactly | src/selfevals/api/broker.py:114-219 | the stream of a listening subscriber can still end iff it is not stranded |
| Broker.ForgottenExactly | src/selfevals/api/broker.py:148-154 | a closed run is forgotten iff its last open subscriber leaves |
| Broker.ToldOfCloseExactly | src/selfevals/api/broker.py:128-154 | over any run, a newcomer is told at once of a close iff someone closed the run and since then it was not forgotten, and is told the state of the latest close |
| Broker.NextReaderIsNotTold | src/selfevals/api/broker.py:128-154 | a run whose only reader leaves after the close, so the next reader is told nothing |
| Broker.SpanBroker.constructor | src/selfevals/api/broker.py:83-86 | no channels |
| Broker.SpanBroker.MarkActiveSync | src/selfevals/api/broker.py:110-112 | opens the channel unless it is there |
| Broker.SpanBroker.Subscribe | src/selfevals/api/broker.py:123-139 | attaches, and yields a close at once iff the run is closed |
| Broker.SpanBroker.Next | src/selfevals/api/broker.py:140-147 | yields the head of the queue |
| Broker.SpanBroker.PublishSync | src/selfevals/api/broker.py:180-198 | the loop over subscribers offers the span to each |
| Broker.SpanBroker.CloseSync | src/selfevals/api/broker.py:200-219 | closes the channel, or records it closed, and offers the close to each |
| Broker.SpanBroker.Leave | src/selfevals/api/broker.py:148-154 | drops every closed subscriber, and the channel once closed and empty |
| Utf8.RoundTrip | src/selfevals/api/tokens.py:44-53 | decoding UTF-8 inverts encoding |
| Utf8.SampleCharacters | src/selfevals/api/tokens.py:44-53 | one character of each length, as RFC 3629 encodes it |
| Base64.RoundTrip | src/selfevals/api/tokens.py:44-53 | the lenient decoder inverts base64url encoding |
| Base64.TestVectors | src/selfevals/api/tokens.py:44-50 | test vectors of RFC 4648, and the two digits of its URL-safe alphabet |
| Base64.StripAndPad | src/selfevals/api/tokens.py:44-50 | stripping the padding and adding what the length asks for restores the encoding |
| Text.ParseDecimal | src/selfevals/api/tokens.py:84-137 | reading a printed integer gives it back |
| Tokens.B64RoundTrip | src/selfevals/api/tokens.py:44-53 | the token payload codec is the identity on every text, and its output has no dot |
| Tokens.PayloadReads | src/selfevals/api/tokens.py:131-143 | the last bar separates the fields whatever the user id contains |
| Tokens.IssueThenVerify | src/selfevals/api/tokens.py:73-143 | an issued token verifies to the same user and expiry at any time not past it, for every non-empty user id, and is expired after, if `int()` reads its printed expiry back |
| Tokens.VerifiedIsSigned | src/selfevals/api/tokens.py:94-143 | whatever verifies carries the signature of its own content and has not expired |
| Tokens.LegacyExactly | src/selfevals/api/tokens.py:94-119 | a v1 token verifies iff its user id has no dot and is not the version tag |
| Tokens.OnlyTokenErrorsExactly | src/selfevals/api/tokens.py:117-143 | whatever integers `int()` accepts, an error other than TokenError arises iff a comparison is reached with text outside ASCII |
| Tokens.ForeignDigitRaisesTypeError | src/selfevals/api/tokens.py:94-128 | a v1 token with an expiry digit outside ASCII and a signature outside ASCII raises TypeError |
| Ulid.Encode | src/selfevals/_internal/ids.py:29-34 | shifting and reversing gives the 26 base-32 digits, most significant first |
| Ulid.NewUlid | src/selfevals/_internal/ids.py:21-26 | the digits of the masked timestamp followed by the random bits |
| Ulid.ReadDigits | src/selfevals/_internal/ids.py:29-34 | digits determine the value, so encoding is injective |
| Ulid.DigitsOfRead | src/selfevals/_internal/ids.py:16-39 | every valid text is the encoding of its value |
| Ulid.DigitsOrder | src/selfevals/_internal/ids.py:16-34 | texts compare exactly as the values |
| Ulid.UlidsSortByTime | src/selfevals/_internal/ids.py:21-34 | ULIDs sort by their 48-bit timestamps whatever the randomness |
| Ulid.CreationOrder | src/selfevals/_internal/ids.py:21-34 | creation order is text order until the timestamp wraps |
| Ulid.FirstDigit | src/selfevals/_internal/ids.py:16-34 | 128-bit values are exactly those whose first digit is at most 7 |
| Ulid.IsUlidExactly | src/selfevals/_internal/ids.py:16-39 | what `is_ulid` accepts is the encodings, and those followed by a newline |

## Left out

- Postgres, Redis, HTTP, threads, heartbeats and sleeps: storage is an abstract table keyed by run, iteration and case, and polling a list of what the others did before each poll.
- Leases and the sweeper of run jobs: the storage compare-and-swap behind them is not part of this model; scenario jobs have no reclaiming caller.
- Floating-point rounding: sums are over `real`, and order independence holds for exact arithmetic only.
- Metric names are a datatype, so parsing of names such as `pass@3` is not modelled, nor numbers written as strings in stored JSON.
- Random and manual proposers and the LLM proposer with an adapter: any function of the index and the last failure modes stands for them in the run.
- `Proposal.validate_against`, experiment state transitions, staging of error analysis and the records written beside each iteration.
- The case count of an iteration record under sharding, which the source sets to 0; the aggregate compared here has its own count.
- `execute_and_grade_case` and `graders_for_case`: calling agents and choosing graders; a case's outcome starts from its repetitions and grades.
- The matches of the funnel grader (exists, equals, by key and index, tool and span) and `_feed`: what a match answers on its slice of the context is a parameter.
- `FunnelNode.to_dict` and `from_dict`: the funnel's own JSON form, of the same shape as the breakdown's that is proved.
- `vs_baseline` pairing and the orchestration of a tournament around an LLM judge.
- The broker's listing of open runs, which reads its channels and changes nothing.
- Subscribers and channels of the broker are values in maps keyed by identity, not objects: aliasing between the two lists is not captured, the updates are.
- Breakdown trees, outcomes and reports are immutable values, as in the source; only the funnel accumulator, the store, the broker, the proposers and the array algorithms are stateful.
- What `int()` accepts beyond plain decimals (digits and spaces outside ASCII, its length limit) is a parameter of the token functions; lone surrogates in Python strings are left out.
- Credentials, authentication modes, redis broker, taxonomy, datasets, arena, regression thresholds, compare rendering and the web application.
