/**
 From a case's grades to its outcome (optimization/aggregator.py, `_outcome_for`).
 */
module CaseOutcomes {
  import opened Sums
  import opened Grades
  import opened CellKeys
  import opened ScenarioExec
  import Metrics

  datatype EvalCase = EvalCase(id: string, failureWeights: map<string, int>, criticalModes: seq<string>)

  function Severity(g: GradeLabel): nat {
    match g
    case ERROR => 4
    case FAIL => 3
    case PARTIAL => 2
    case SKIPPED => 1
    case PASS => 0
  }

  /** `_pick_label`: the worst label wins; no grade at all is SKIPPED. */
  function PickLabel(results: seq<GradeResult>): GradeLabel {
    if results == [] then SKIPPED
    else if |results| == 1 then results[0].grade
    else
      var rest := PickLabel(results[1..]);
      if Severity(results[0].grade) >= Severity(rest) then results[0].grade else rest
  }

  function ScoreOf(r: GradeResult): seq<real> { if r.score.Some? then [r.score.value] else [] }
  function LabelScore(r: GradeResult): real {
    match r.grade
    case PASS => 1.0
    case PARTIAL => 0.5
    case _ => 0.0
  }
  function Same(x: real): real { x }

  /** `_pick_score`: the mean of the explicit scores, or of the labels' scores. */
  function PickScore(results: seq<GradeResult>): real {
    var explicit := FlatMap(results, ScoreOf);
    if explicit != [] then Metrics.Mean(Sum(explicit, Same), |explicit|)
    else Metrics.Mean(Sum(results, LabelScore), |results|)
  }

  function BreakdownList(r: GradeResult): seq<BreakdownNode> {
    if r.breakdown.Some? then [r.breakdown.value] else []
  }
  function ModesOf(r: GradeResult): seq<string> { r.failureModes }
  function All(results: seq<GradeResult>): seq<GradeResult> { results }
  function By(grader: string): GradeResult -> bool { (r: GradeResult) => r.grader == grader }
  function Label(r: GradeResult): seq<GradeLabel> { [r.grade] }
  function CostOf(rep: Repetition): real { rep.costUsd }
  function DurationOf(rep: Repetition): int { rep.durationMs }
  function SpansOf(rep: Repetition): seq<bool> { rep.llmSpans }
  predicate Hit(cached: bool) { cached }

  function RepLabel(reps: seq<Repetition>, grades: seq<seq<GradeResult>>, i: nat): GradeLabel
    requires i < |grades|
  {
    if i < |reps| && reps[i].errored then ERROR else PickLabel(grades[i])
  }

  /** Each grader's labels, in repetition order. */
  function PerGrader(results: seq<GradeResult>): map<string, seq<GradeLabel>> {
    map g | g in GraderNames(results) :: FlatMap(Filter(results, By(g)), Label)
  }
  function GraderNames(results: seq<GradeResult>): set<string> { set r | r in results :: r.grader }

  function AddLabel(m: map<string, seq<GradeLabel>>, r: GradeResult): map<string, seq<GradeLabel>> {
    m[r.grader := (if r.grader in m then m[r.grader] else []) + [r.grade]]
  }

  lemma PerGraderLast(results: seq<GradeResult>, r: GradeResult)
    ensures PerGrader(results + [r]) == AddLabel(PerGrader(results), r)
  {
    var m := PerGrader(results + [r]);
    assert GraderNames(results + [r]) == GraderNames(results) + {r.grader};
    forall g | g in m
      ensures m[g] == AddLabel(PerGrader(results), r)[g]
    {
      FilterAppend(results, [r], By(g));
      FlatMapAppend(Filter(results, By(g)), Filter([r], By(g)), Label);
      if g !in GraderNames(results) { NoGrades(results, g); }
    }
  }

  lemma {:induction false} NoGrades(results: seq<GradeResult>, g: string)
    requires g !in GraderNames(results)
    ensures Filter(results, By(g)) == []
  {
    if results != [] {
      assert results[0] in results;
      assert forall r :: r in results[1..] ==> r in results;
      NoGrades(results[1..], g);
    }
  }

  lemma AddedNext(before: seq<GradeResult>, results: seq<GradeResult>, i: nat)
    requires i < |results|
    ensures FlatMap(before + results[..i + 1], ModesOf)
            == FlatMap(before + results[..i], ModesOf) + results[i].failureModes
    ensures FlatMap(before + results[..i + 1], BreakdownList)
            == FlatMap(before + results[..i], BreakdownList) + BreakdownList(results[i])
    ensures PerGrader(before + results[..i + 1]) == AddLabel(PerGrader(before + results[..i]), results[i])
  {
    assert before + results[..i] + [results[i]] == before + results[..i + 1];
    FlatMapLast(before + results[..i], results[i], ModesOf);
    FlatMapLast(before + results[..i], results[i], BreakdownList);
    PerGraderLast(before + results[..i], results[i]);
  }

  /** The inner loop over one repetition's grades. */
  method AddRepetition(results: seq<GradeResult>, ghost before: seq<GradeResult>, modes: seq<string>,
                       breakdowns: seq<BreakdownNode>, perGrader: map<string, seq<GradeLabel>>)
    returns (modes': seq<string>, breakdowns': seq<BreakdownNode>, perGrader': map<string, seq<GradeLabel>>)
    requires modes == FlatMap(before, ModesOf) && breakdowns == FlatMap(before, BreakdownList)
    requires perGrader == PerGrader(before)
    ensures modes' == FlatMap(before + results, ModesOf)
    ensures breakdowns' == FlatMap(before + results, BreakdownList)
    ensures perGrader' == PerGrader(before + results)
  {
    modes', breakdowns', perGrader' := modes, breakdowns, perGrader;
    assert before + results[..0] == before;
    for i := 0 to |results|
      invariant modes' == FlatMap(before + results[..i], ModesOf)
      invariant breakdowns' == FlatMap(before + results[..i], BreakdownList)
      invariant perGrader' == PerGrader(before + results[..i])
    {
      AddedNext(before, results, i);
      modes' := modes' + results[i].failureModes;
      breakdowns' := breakdowns' + BreakdownList(results[i]);
      perGrader' := AddLabel(perGrader', results[i]);
    }
    assert before + results[..|results|] == before + results;
  }

  /** What an outcome says about the grades and traces it was made from. */
  ghost predicate OutcomeOf(o: CaseOutcome, c: EvalCase, reps: seq<Repetition>, grades: seq<seq<GradeResult>>) {
    var all := FlatMap(grades, All);
    && o.caseId == c.id
    && |o.labels| == |o.scores| == |grades|
    && (forall i :: 0 <= i < |grades| ==>
          o.labels[i] == RepLabel(reps, grades, i) && o.scores[i] == PickScore(grades[i]))
    && o.failureModes == FlatMap(all, ModesOf)
    && o.breakdowns == FlatMap(all, BreakdownList)
    && o.perGrader == PerGrader(all)
    && o.costUsd == Sum(reps, CostOf)
    && o.durationMs == SumInt(reps, DurationOf)
    && o.llmCalls == |FlatMap(reps, SpansOf)|
    && o.cacheHits == Count(FlatMap(reps, SpansOf), Hit)
    && o.failureWeights == c.failureWeights
    && o.criticalModes == c.criticalModes
  }

  /** `_outcome_for`. */
  method OutcomeFor(c: EvalCase, reps: seq<Repetition>, grades: seq<seq<GradeResult>>) returns (o: CaseOutcome)
    ensures OutcomeOf(o, c, reps, grades)
  {
    var labels: seq<GradeLabel>, scores: seq<real> := [], [];
    var modes: seq<string>, breakdowns: seq<BreakdownNode> := [], [];
    var perGrader: map<string, seq<GradeLabel>> := map[];
    for i := 0 to |grades|
      invariant |labels| == |scores| == i
      invariant forall j :: 0 <= j < i ==> labels[j] == RepLabel(reps, grades, j) && scores[j] == PickScore(grades[j])
      invariant modes == FlatMap(FlatMap(grades[..i], All), ModesOf)
      invariant breakdowns == FlatMap(FlatMap(grades[..i], All), BreakdownList)
      invariant perGrader == PerGrader(FlatMap(grades[..i], All))
    {
      labels := labels + [RepLabel(reps, grades, i)];
      scores := scores + [PickScore(grades[i])];
      modes, breakdowns, perGrader :=
        AddRepetition(grades[i], FlatMap(grades[..i], All), modes, breakdowns, perGrader);
      FlatMapSnoc(grades, i, All);
    }
    assert grades[..|grades|] == grades;
    var spans := FlatMap(reps, SpansOf);
    o := CaseOutcome(c.id, labels, scores, modes, Sum(reps, CostOf), SumInt(reps, DurationOf),
                     Count(spans, Hit), |spans|, breakdowns, perGrader, c.failureWeights, c.criticalModes);
  }

  // ---- Guarantees ----

  /** The label of a repetition is the worst label any grader gave it. */
  lemma {:induction false} PickLabelIsWorst(results: seq<GradeResult>)
    requires results != []
    ensures exists r :: r in results && r.grade == PickLabel(results)
    ensures forall r :: r in results ==> Severity(r.grade) <= Severity(PickLabel(results))
  {
    if |results| > 1 {
      PickLabelIsWorst(results[1..]);
      var r :| r in results[1..] && r.grade == PickLabel(results[1..]);
      assert r in results && results[0] in results;
      assert forall x :: x in results ==> x == results[0] || x in results[1..];
    } else {
      assert results[0] in results;
      assert forall x :: x in results ==> x == results[0];
    }
  }

  /** A repetition passes exactly when it did not error, was graded, and every grader passed it. */
  lemma PassIsConjunctive(reps: seq<Repetition>, grades: seq<seq<GradeResult>>, i: nat)
    requires i < |grades|
    ensures RepLabel(reps, grades, i) == PASS
            <==> !(i < |reps| && reps[i].errored) && grades[i] != [] && forall r :: r in grades[i] ==> r.grade == PASS
  {
    if grades[i] != [] { PickLabelIsWorst(grades[i]); }
  }

  /** So a case that passes first time passes for every grader that graded that repetition. */
  lemma WorstOfBoundsEachGrader(o: CaseOutcome, c: EvalCase, reps: seq<Repetition>, grades: seq<seq<GradeResult>>,
                                r: GradeResult)
    requires OutcomeOf(o, c, reps, grades) && grades != [] && r in grades[0]
    requires Metrics.PassesFirst(o)
    ensures Metrics.PassesFor(r.grader)(o)
  {
    PassIsConjunctive(reps, grades, 0);
    var g := r.grader;
    var all := FlatMap(grades, All);
    assert all == grades[0] + FlatMap(grades[1..], All);
    assert r in all;
    FilterAppend(grades[0], FlatMap(grades[1..], All), By(g));
    FilterMember(grades[0], By(g), r);
    var mine := Filter(grades[0], By(g));
    FilterMember(grades[0], By(g), mine[0]);
    assert Filter(all, By(g))[0] == mine[0];
    assert o.perGrader[g][0] == mine[0].grade;
  }

  lemma {:induction false} BreakdownCells(results: seq<GradeResult>)
    ensures CellsOfAll(FlatMap(results, BreakdownList)) == FlatMap(results, GradeCells)
  {
    if results != [] {
      BreakdownCells(results[1..]);
      CellsOfAllIsFlatMap(FlatMap(results, BreakdownList));
      CellsOfAllIsFlatMap(FlatMap(results[1..], BreakdownList));
      CellsOfAllIsFlatMap(BreakdownList(results[0]));
      FlatMapAppend(BreakdownList(results[0]), FlatMap(results[1..], BreakdownList), CellsOf);
    }
  }

  function TurnGrades(turn: Turn): seq<GradeResult> { turn.grades }

  /** The confusion cells of an outcome are the cells of the grades it was made from. */
  lemma OutcomeCells(o: CaseOutcome, c: EvalCase, reps: seq<Repetition>, turns: seq<Turn>)
    requires OutcomeOf(o, c, reps, Map(turns, TurnGrades))
    ensures CellsOfOutcome(o) == FlatMap(turns, TurnCells)
  {
    FlattenGrades(turns);
    BreakdownCells(FlatMap(turns, TurnGrades));
    FlatMapCompose(turns, TurnGrades, GradeCells, TurnCells);
  }

  lemma {:induction false} FlattenGrades(turns: seq<Turn>)
    ensures FlatMap(Map(turns, TurnGrades), All) == FlatMap(turns, TurnGrades)
  {
    if turns != [] { FlattenGrades(turns[1..]); }
  }

  /**
   From the turns of a conversation to the confusion matrix: the outcome of the collapsed
   conversation carries the cells of all its turns, each as often, exactly when none is lost.
   */
  lemma ConversationCellsReachOutcome(turns: seq<Turn>, order: seq<string>, collapsed: seq<Turn>,
                                      o: CaseOutcome, c: EvalCase, reps: seq<Repetition>)
    requires ThreadsInOrder(turns, order) && |order| == |collapsed|
    requires forall i :: 0 <= i < |order| ==> CollapsedAs(turns, order[i], collapsed[i])
    requires OutcomeOf(o, c, reps, Map(collapsed, TurnGrades))
    ensures Permutes(CellsOfOutcome(o), FlatMap(turns, TurnCells))
            <==> forall t :: t in turns ==> LostOf(t, Width(turns, ThreadOf(t))) == []
  {
    OutcomeCells(o, c, reps, collapsed);
    CellsSurviveExactly(turns, order, collapsed);
  }
}
