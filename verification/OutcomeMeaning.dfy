/**
 What the label, the score and the figures of a case's outcome are
 (optimization/aggregator.py), grade by grade and span by span.
 */
module OutcomeMeaning {
  import opened Sums
  import opened Grades
  import opened ScenarioExec
  import opened CaseOutcomes
  import opened MetricMeaning

  // ---- The label and the score of one repetition ----

  ghost predicate Gave(results: seq<GradeResult>, grade: GradeLabel) { exists r :: r in results && r.grade == grade }

  /** An error beats a failure, a failure a partial pass, and so on; only passes make a pass. */
  lemma PickLabelExactly(results: seq<GradeResult>)
    ensures PickLabel(results) == ERROR <==> Gave(results, ERROR)
    ensures PickLabel(results) == FAIL <==> !Gave(results, ERROR) && Gave(results, FAIL)
    ensures PickLabel(results) == PARTIAL
            <==> !Gave(results, ERROR) && !Gave(results, FAIL) && Gave(results, PARTIAL)
    ensures PickLabel(results) == PASS <==> results != [] && forall r :: r in results ==> r.grade == PASS
    ensures results == [] ==> PickLabel(results) == SKIPPED
  {
    if results != [] { PickLabelIsWorst(results); }
  }

  ghost function HasScore(): GradeResult -> bool { (r: GradeResult) => r.score.Some? }
  ghost function Graded(grade: GradeLabel): GradeResult -> bool { (r: GradeResult) => r.grade == grade }
  ghost function HowMany(results: seq<GradeResult>, kind: GradeResult -> bool): nat { |Indices(results, kind)| }

  /** The scores that the grades carry, added up. */
  ghost function ScoreTotal(results: seq<GradeResult>): real {
    if results == [] then 0.0
    else (if results[0].score.Some? then results[0].score.value else 0.0) + ScoreTotal(results[1..])
  }

  lemma {:induction false} ExplicitScores(results: seq<GradeResult>)
    ensures |FlatMap(results, ScoreOf)| == Count(results, HasScore())
    ensures Sum(FlatMap(results, ScoreOf), Same) == ScoreTotal(results)
  {
    if results != [] {
      ExplicitScores(results[1..]);
      SumAppend(ScoreOf(results[0]), FlatMap(results[1..], ScoreOf), Same);
    }
  }

  lemma {:induction false} LabelScores(results: seq<GradeResult>)
    ensures Sum(results, LabelScore)
            == Count(results, Graded(PASS)) as real + 0.5 * Count(results, Graded(PARTIAL)) as real
  {
    if results != [] { LabelScores(results[1..]); }
  }

  /** The mean of the scores given; without any, a pass counts 1 and a partial pass a half. */
  ghost predicate Scored(value: real, results: seq<GradeResult>) {
    var scored, n := HowMany(results, HasScore()), |results|;
    var passes, partials := HowMany(results, Graded(PASS)), HowMany(results, Graded(PARTIAL));
    value == if scored > 0 then Average(ScoreTotal(results), scored)
             else if n > 0 then Average(passes as real + 0.5 * partials as real, n)
             else 0.0
  }

  lemma PickScoreExactly(results: seq<GradeResult>)
    ensures Scored(PickScore(results), results)
  {
    ExplicitScores(results);
    LabelScores(results);
    CountIsIndices(results, HasScore());
    CountIsIndices(results, Graded(PASS));
    CountIsIndices(results, Graded(PARTIAL));
  }

  // ---- The outcome of the case ----

  ghost function ModesIn(results: seq<GradeResult>): seq<string> {
    if results == [] then [] else results[0].failureModes + ModesIn(results[1..])
  }

  ghost function TreesIn(results: seq<GradeResult>): seq<BreakdownNode> {
    if results == [] then []
    else (if results[0].breakdown.Some? then [results[0].breakdown.value] else []) + TreesIn(results[1..])
  }

  ghost function LabelsBy(results: seq<GradeResult>, grader: string): seq<GradeLabel> {
    if results == [] then []
    else (if results[0].grader == grader then [results[0].grade] else []) + LabelsBy(results[1..], grader)
  }

  /** The grades of all repetitions, one repetition after the other. */
  ghost function InTurn(grades: seq<seq<GradeResult>>): seq<GradeResult> {
    if grades == [] then [] else grades[0] + InTurn(grades[1..])
  }

  ghost function CostIn(reps: seq<Repetition>): real {
    if reps == [] then 0.0 else reps[0].costUsd + CostIn(reps[1..])
  }

  ghost function DurationIn(reps: seq<Repetition>): int {
    if reps == [] then 0 else reps[0].durationMs + DurationIn(reps[1..])
  }

  ghost function CallsIn(reps: seq<Repetition>): nat {
    if reps == [] then 0 else |reps[0].llmSpans| + CallsIn(reps[1..])
  }

  ghost function Cached(): bool -> bool { (cached: bool) => cached }

  ghost function HitsIn(reps: seq<Repetition>): nat {
    if reps == [] then 0 else |Indices(reps[0].llmSpans, Cached())| + HitsIn(reps[1..])
  }

  lemma {:induction false} GradesInTurn(grades: seq<seq<GradeResult>>)
    ensures FlatMap(grades, All) == InTurn(grades)
  {
    if grades != [] { GradesInTurn(grades[1..]); }
  }

  lemma {:induction false} ModesAndTrees(results: seq<GradeResult>)
    ensures FlatMap(results, ModesOf) == ModesIn(results) && FlatMap(results, BreakdownList) == TreesIn(results)
  {
    if results != [] { ModesAndTrees(results[1..]); }
  }

  lemma {:induction false} LabelsOf(results: seq<GradeResult>, g: string)
    ensures FlatMap(Filter(results, By(g)), Label) == LabelsBy(results, g)
    ensures g in GraderNames(results) <==> LabelsBy(results, g) != []
  {
    if results != [] {
      LabelsOf(results[1..], g);
      FlatMapAppend(if By(g)(results[0]) then [results[0]] else [], Filter(results[1..], By(g)), Label);
      assert GraderNames(results) == {results[0].grader} + GraderNames(results[1..]);
    }
  }

  lemma {:induction false} CostAndDuration(reps: seq<Repetition>)
    ensures Sum(reps, CostOf) == CostIn(reps) && SumInt(reps, DurationOf) == DurationIn(reps)
  {
    if reps != [] { CostAndDuration(reps[1..]); }
  }

  lemma {:induction false} CallsAndHits(reps: seq<Repetition>)
    ensures |FlatMap(reps, SpansOf)| == CallsIn(reps) && Count(FlatMap(reps, SpansOf), Hit) == HitsIn(reps)
  {
    if reps != [] {
      CallsAndHits(reps[1..]);
      FilterAppend(reps[0].llmSpans, FlatMap(reps[1..], SpansOf), Hit);
      FilterExtensional(reps[0].llmSpans, Hit, Cached());
      CountIsIndices(reps[0].llmSpans, Cached());
    }
  }

  /** The worst label of the repetition, ERROR if the run itself errored. */
  ghost predicate Labelled(grade: GradeLabel, reps: seq<Repetition>, results: seq<GradeResult>, i: nat) {
    var errored := i < |reps| && reps[i].errored;
    && (grade == ERROR <==> errored || Gave(results, ERROR))
    && (grade == FAIL <==> !errored && !Gave(results, ERROR) && Gave(results, FAIL))
    && (grade == PARTIAL <==> !errored && !Gave(results, ERROR) && !Gave(results, FAIL) && Gave(results, PARTIAL))
    && (grade == PASS <==> !errored && results != [] && forall r :: r in results ==> r.grade == PASS)
  }

  /** What every grader said, in order; a grader that graded nothing is not listed. */
  ghost predicate SaidBy(perGrader: map<string, seq<GradeLabel>>, results: seq<GradeResult>) {
    forall g ::
      && (g in perGrader <==> LabelsBy(results, g) != [])
      && (g in perGrader ==> perGrader[g] == LabelsBy(results, g))
  }

  /** An outcome, from the grades and traces of its case. */
  lemma OutcomeExactly(o: CaseOutcome, c: EvalCase, reps: seq<Repetition>, grades: seq<seq<GradeResult>>)
    requires OutcomeOf(o, c, reps, grades)
    ensures o.caseId == c.id && o.failureWeights == c.failureWeights && o.criticalModes == c.criticalModes
    ensures |o.labels| == |o.scores| == |grades|
    ensures forall i :: 0 <= i < |grades| ==>
              Labelled(o.labels[i], reps, grades[i], i) && Scored(o.scores[i], grades[i])
    ensures o.failureModes == ModesIn(InTurn(grades)) && o.breakdowns == TreesIn(InTurn(grades))
    ensures SaidBy(o.perGrader, InTurn(grades))
    ensures o.costUsd == CostIn(reps) && o.durationMs == DurationIn(reps)
    ensures o.llmCalls == CallsIn(reps) && o.cacheHits == HitsIn(reps)
  {
    GradesInTurn(grades);
    ModesAndTrees(InTurn(grades));
    CostAndDuration(reps);
    CallsAndHits(reps);
    forall i | 0 <= i < |grades|
      ensures Labelled(o.labels[i], reps, grades[i], i) && Scored(o.scores[i], grades[i])
    {
      PickLabelExactly(grades[i]);
      PickScoreExactly(grades[i]);
    }
    forall g: string { LabelsOf(InTurn(grades), g); }
  }
}
