/**
 The classification grader (graders/classification.py) and how far its cells get: from the labels it
 reads on every turn of a conversation to the confusion cells of the case outcome.
 */
module Classification {
  import opened Wrappers
  import opened Sums
  import opened Ordering
  import opened Grades
  import opened CellKeys
  import opened ScenarioExec
  import opened CaseOutcomes

  /** What a grader reads on a turn, already folded: None where there is no usable class. */
  datatype Reading = Reading(expected: Option<string>, predicted: Option<string>)

  datatype Classifier = Classifier(name: string, extract: string)

  function MisclassifiedMode(predicted: string, expected: string): string {
    "misclassified:" + predicted + "->" + expected
  }

  /** `_build_breakdown`: one cell below a root that is not a cell itself. */
  function Breakdown(repr: string -> string, grade: GradeLabel, expected: string, predicted: string): BreakdownNode {
    var score := if expected == predicted then 1.0 else 0.0;
    var modes := if expected == predicted then [] else [MisclassifiedMode(predicted, expected)];
    var cell := BreakdownNode(CellKey(expected, predicted), Some(grade), Some(score), 1.0,
                              "expected " + repr(expected) + " -> predicted " + repr(predicted), modes, []);
    BreakdownNode("classification", Some(grade), Some(score), 1.0, "single-label classification cell", [], [cell])
  }

  /** `ClassificationGrader.grade`. */
  function Classify(repr: string -> string, c: Classifier, r: Reading): GradeResult {
    if r.predicted.None? then
      GradeResult(c.name, FAIL, "no usable predicted class at structured_output path " + repr(c.extract), Some(0.0),
                  ["classification_no_prediction"], None)
    else if r.expected.None? then
      GradeResult(c.name, FAIL, "case declares no expected class to compare against", Some(0.0),
                  ["classification_no_expected"], None)
    else
      var expected, predicted := r.expected.value, r.predicted.value;
      var matched := predicted == expected;
      var grade := if matched then PASS else FAIL;
      GradeResult(c.name, grade,
                  "predicted " + repr(predicted) + (if matched then " == " else " != ") + "expected " + repr(expected),
                  Some(if matched then 1.0 else 0.0),
                  if matched then [] else [MisclassifiedMode(predicted, expected)],
                  Some(Breakdown(repr, grade, expected, predicted)))
  }

  /** The cell a reading stands for. */
  function LabelsOf(r: Reading): seq<Pair> {
    if r.expected.Some? && r.predicted.Some? then [(r.expected.value, r.predicted.value)] else []
  }

  function AllLabels(rs: seq<Reading>): seq<Pair> { FlatMap(rs, LabelsOf) }

  /** A cell whose key can be read back. */
  predicate Readable(p: Pair) { p.0 != "" && p.1 != "" && !HasArrow(p.0) }

  // ---- One grade ----

  lemma RootIsNoCell()
    ensures ParseCellKey("classification") == None
  {
    assert "classification"[1] == 'l' && PREFIX[1] == 'e';
  }

  lemma CellsOfBreakdown(repr: string -> string, grade: GradeLabel, expected: string, predicted: string)
    ensures CellsOf(Breakdown(repr, grade, expected, predicted))
            == var p := ParseCellKey(CellKey(expected, predicted)); if p.None? then [] else [p.value]
  {
    RootIsNoCell();
    var cell := Breakdown(repr, grade, expected, predicted).children[0];
    assert CellsOfAll([]) == [];
    assert CellsOf(cell) == OwnCell(cell) + [];
    assert CellsOfAll([cell]) == CellsOf(cell) + [];
    assert [] + OwnCell(cell) == OwnCell(cell);
  }

  /** A breakdown carries exactly its own cell iff both labels are non-empty and the expected one has no arrow. */
  lemma BreakdownCellExactly(repr: string -> string, grade: GradeLabel, expected: string, predicted: string)
    ensures CellsOf(Breakdown(repr, grade, expected, predicted)) == [(expected, predicted)]
            <==> expected != "" && predicted != "" && !HasArrow(expected)
  {
    CellsOfBreakdown(repr, grade, expected, predicted);
    CellKeyRoundTrip(expected, predicted);
  }

  /** A grade without a breakdown, for a reading that misses one of its labels. */
  ghost predicate Fails(g: GradeResult, mode: string) {
    g.grade == FAIL && g.score == Some(0.0) && g.failureModes == [mode] && g.breakdown == None
  }

  /** A grade for the two labels of a reading, and the tree it comes with. */
  ghost predicate Compares(g: GradeResult, expected: string, predicted: string) {
    && (g.grade == PASS <==> expected == predicted) && (g.grade == FAIL <==> expected != predicted)
    && g.score == Some(if expected == predicted then 1.0 else 0.0)
    && g.failureModes == (if expected == predicted then [] else ["misclassified:" + predicted + "->" + expected])
    && g.breakdown.Some?
    && var root := g.breakdown.value;
       && root.key == "classification" && root.grade == Some(g.grade) && root.score == g.score && root.weight == 1.0
       && root.failureModes == [] && |root.children| == 1
       && var cell := root.children[0];
          && cell.key == "cell:" + expected + "->" + predicted && cell.children == []
          && cell.grade == Some(g.grade) && cell.score == g.score && cell.weight == 1.0
          && cell.failureModes == g.failureModes
  }

  /** What a classification grade says: it passes exactly the readings that have both labels, and equal ones. */
  lemma ClassifyExactly(repr: string -> string, c: Classifier, r: Reading)
    ensures var g := Classify(repr, c, r);
            && g.grader == c.name
            && (r.predicted == None ==> Fails(g, "classification_no_prediction"))
            && (r.predicted != None && r.expected == None ==> Fails(g, "classification_no_expected"))
            && (r.predicted != None && r.expected != None ==> Compares(g, r.expected.value, r.predicted.value))
            && (g.grade == PASS <==> r.predicted != None && r.predicted == r.expected)
  {
  }

  lemma ReadCellIsReadable(key: string)
    ensures ParseCellKey(key).Some? ==> Readable(ParseCellKey(key).value)
  {
    if ParseCellKey(key).Some? {
      var body := key[|PREFIX|..];
      FindArrowFirst(body);
      var i := FindArrow(body).value;
      assert forall j :: 0 <= j < i ==> body[..i][j] == body[j];
    }
  }

  /** Whatever a tree carries can be read back. */
  lemma {:induction false} CellsAreReadable(nodes: seq<BreakdownNode>)
    ensures forall p :: p in CellsOfAll(nodes) ==> Readable(p)
  {
    if nodes != [] {
      ReadCellIsReadable(nodes[0].key);
      CellsAreReadable(nodes[0].children);
      CellsAreReadable(nodes[1..]);
    }
  }

  // ---- A whole turn ----

  /** A grade some classifier gives for a reading. */
  ghost predicate GradeOf(repr: string -> string, grade: GradeResult, r: Reading) {
    exists c :: grade == Classify(repr, c, r)
  }

  ghost predicate GradesOf(repr: string -> string, grades: seq<GradeResult>, rs: seq<Reading>) {
    |rs| == |grades| && forall g :: 0 <= g < |rs| ==> GradeOf(repr, grades[g], rs[g])
  }

  ghost predicate AllReadable(ps: seq<Pair>) { forall p :: p in ps ==> Readable(p) }

  lemma ReadableParts(a: seq<Pair>, b: seq<Pair>)
    ensures AllReadable(a + b) <==> AllReadable(a) && AllReadable(b)
  {
    assert forall p :: p in a + b <==> p in a || p in b;
  }

  lemma {:induction false} TurnCarriesLabels(repr: string -> string, grades: seq<GradeResult>, rs: seq<Reading>)
    requires GradesOf(repr, grades, rs) && AllReadable(AllLabels(rs))
    ensures FlatMap(grades, GradeCells) == AllLabels(rs)
  {
    if rs != [] {
      ReadableParts(LabelsOf(rs[0]), AllLabels(rs[1..]));
      GradeCarriesLabel(repr, grades[0], rs[0]);
      assert forall g :: 0 <= g < |rs[1..]| ==> rs[1..][g] == rs[g + 1] && grades[1..][g] == grades[g + 1];
      TurnCarriesLabels(repr, grades[1..], rs[1..]);
    }
  }

  lemma GradeCarriesLabel(repr: string -> string, grade: GradeResult, r: Reading)
    requires GradeOf(repr, grade, r) && AllReadable(LabelsOf(r))
    ensures GradeCells(grade) == LabelsOf(r)
  {
    if LabelsOf(r) != [] {
      assert LabelsOf(r)[0] in LabelsOf(r);
      BreakdownCellExactly(repr, grade.grade, r.expected.value, r.predicted.value);
    }
  }

  /** Every grade of the turn is a classification of its reading. */
  ghost predicate Classified(repr: string -> string, t: Turn, rs: seq<Reading>) { GradesOf(repr, t.grades, rs) }

  lemma ClassifiedLosesNothing(repr: string -> string, t: Turn, rs: seq<Reading>, width: nat)
    requires Classified(repr, t, rs) && |t.grades| <= width
    ensures LostOf(t, width) == []
  {
    forall g | g in t.grades && g.breakdown.Some?
      ensures g.breakdown.value.key == "classification"
    {
      var i :| 0 <= i < |t.grades| && t.grades[i] == g;
      assert GradeOf(repr, t.grades[i], rs[i]);
    }
    UniformClassificationLosesNothing(t, width);
  }

  // ---- A whole conversation ----

  /** Turn i was graded by `n` classifications, which read `readings[i]`. */
  ghost predicate ConversationClassified(repr: string -> string, turns: seq<Turn>, readings: seq<seq<Reading>>,
                                         n: nat) {
    && |turns| == |readings|
    && forall i :: 0 <= i < |turns| ==> Classified(repr, turns[i], readings[i]) && |readings[i]| == n
  }

  lemma {:induction false} ConversationCarriesLabels(repr: string -> string, turns: seq<Turn>,
                                                     readings: seq<seq<Reading>>, n: nat)
    requires ConversationClassified(repr, turns, readings, n) && AllReadable(FlatMap(readings, AllLabels))
    ensures FlatMap(turns, TurnCells) == FlatMap(readings, AllLabels)
  {
    if turns != [] {
      assert Classified(repr, turns[0], readings[0]);
      ReadableParts(AllLabels(readings[0]), FlatMap(readings[1..], AllLabels));
      TurnCarriesLabels(repr, turns[0].grades, readings[0]);
      LaterTurns(repr, turns, readings, n);
      ConversationCarriesLabels(repr, turns[1..], readings[1..], n);
    }
  }

  lemma LaterTurns(repr: string -> string, turns: seq<Turn>, readings: seq<seq<Reading>>, n: nat)
    requires ConversationClassified(repr, turns, readings, n) && turns != []
    ensures ConversationClassified(repr, turns[1..], readings[1..], n)
  {
    assert forall i :: 0 <= i < |turns[1..]| ==> turns[1..][i] == turns[i + 1] && readings[1..][i] == readings[i + 1];
  }

  lemma {:induction false} TurnCellsReadable(grades: seq<GradeResult>)
    ensures forall p :: p in FlatMap(grades, GradeCells) ==> Readable(p)
  {
    if grades != [] {
      TurnCellsReadable(grades[1..]);
      if grades[0].breakdown.Some? {
        var root := grades[0].breakdown.value;
        CellsAreReadable([root]);
        assert CellsOfAll([root]) == CellsOf(root) + [];
      }
    }
  }

  lemma {:induction false} AllCellsReadable(turns: seq<Turn>)
    ensures forall p :: p in FlatMap(turns, TurnCells) ==> Readable(p)
  {
    if turns != [] {
      TurnCellsReadable(turns[0].grades);
      AllCellsReadable(turns[1..]);
    }
  }

  lemma SameWidth(turns: seq<Turn>, t: Turn, n: nat)
    requires t in turns && forall u :: u in turns ==> |u.grades| == n
    ensures Width(turns, ThreadOf(t)) == n
  {
    var inOrder := InOrder(turns, ThreadOf(t));
    InOrderMember(turns, ThreadOf(t), t);
    assert inOrder != [];
    InOrderMember(turns, ThreadOf(t), inOrder[|inOrder| - 1]);
  }

  lemma NothingLost(repr: string -> string, turns: seq<Turn>, readings: seq<seq<Reading>>, n: nat)
    requires ConversationClassified(repr, turns, readings, n)
    ensures forall t :: t in turns ==> LostOf(t, Width(turns, ThreadOf(t))) == []
  {
    forall t | t in turns
      ensures LostOf(t, Width(turns, ThreadOf(t))) == []
    {
      var i :| 0 <= i < |turns| && turns[i] == t;
      forall u | u in turns
        ensures |u.grades| == n
      {
        var j :| 0 <= j < |turns| && turns[j] == u;
        assert Classified(repr, turns[j], readings[j]);
      }
      SameWidth(turns, t, n);
      assert Classified(repr, turns[i], readings[i]);
      ClassifiedLosesNothing(repr, t, readings[i], n);
    }
  }

  lemma UnreadableIsMissing(cells: seq<Pair>, labels: seq<Pair>, p: Pair)
    requires p in labels && !Readable(p) && forall q :: q in cells ==> Readable(q)
    ensures !Permutes(cells, labels)
  {
    assert p in multiset(labels) && p !in multiset(cells);
  }

  /**
   For a conversation graded by classification with as many graders on every turn, the confusion
   cells of the case outcome are the (expected, predicted) labels of all its turns, each as often,
   exactly when every pair of labels can be read back from its key.
   */
  lemma LabelsReachOutcomeExactly(repr: string -> string, turns: seq<Turn>, readings: seq<seq<Reading>>, n: nat,
                                  order: seq<string>, collapsed: seq<Turn>, o: CaseOutcome, c: EvalCase,
                                  reps: seq<Repetition>)
    requires ConversationClassified(repr, turns, readings, n)
    requires ThreadsInOrder(turns, order) && AllCollapsed(turns, order, |order|, collapsed)
    requires OutcomeOf(o, c, reps, Map(collapsed, TurnGrades))
    ensures Permutes(CellsOfOutcome(o), FlatMap(readings, AllLabels))
            <==> forall p :: p in FlatMap(readings, AllLabels) ==> Readable(p)
  {
    NothingLost(repr, turns, readings, n);
    ConversationCellsReachOutcome(turns, order, collapsed, o, c, reps);
    if AllReadable(FlatMap(readings, AllLabels)) {
      ConversationCarriesLabels(repr, turns, readings, n);
    } else {
      var p :| p in FlatMap(readings, AllLabels) && !Readable(p);
      AllCellsReadable(turns);
      UnreadableIsMissing(FlatMap(turns, TurnCells), FlatMap(readings, AllLabels), p);
    }
  }

  // ---- A conversation that loses a cell ----

  /** A turn that read "dog" for "cat", and a later one that nobody graded. */
  function TwoTurns(repr: string -> string): seq<Turn> {
    var reading := Reading(Some("cat"), Some("dog"));
    [Turn(Repetition(Some("t"), "x", Some(0), false, 0.0, 0, []), [Classify(repr, Classifier("c", "label"), reading)]),
     Turn(Repetition(Some("t"), "y", Some(1), false, 0.0, 0, []), [])]
  }

  lemma LastByPosition(turns: seq<Turn>, thread: string, t: Turn)
    requires t in turns && ThreadOf(t) == thread
    requires forall u :: u in turns && u != t ==> Position(u) < Position(t)
    ensures Width(turns, thread) == |t.grades|
  {
    var inOrder := InOrder(turns, thread);
    SortSorted(Group(turns, thread), PositionLe);
    InOrderMember(turns, thread, t);
    var i :| 0 <= i < |inOrder| && inOrder[i] == t;
    var last := inOrder[|inOrder| - 1];
    InOrderMember(turns, thread, last);
    assert i < |inOrder| - 1 ==> PositionLe(t, last);
  }

  lemma UngradedTurnIsFinal(repr: string -> string)
    ensures Width(TwoTurns(repr), "t") == 0
  {
    var turns := TwoTurns(repr);
    assert turns[1] in turns && ThreadOf(turns[1]) == "t";
    LastByPosition(turns, "t", turns[1]);
  }

  /** The collapse keeps as many grades as the final turn has, so here the cell is gone. */
  lemma UngradedFinalTurnLosesCell(repr: string -> string, order: seq<string>, collapsed: seq<Turn>)
    requires ThreadsInOrder(TwoTurns(repr), order) && AllCollapsed(TwoTurns(repr), order, |order|, collapsed)
    ensures FlatMap(TwoTurns(repr), TurnCells) == [("cat", "dog")]
    ensures !Permutes(FlatMap(collapsed, TurnCells), FlatMap(TwoTurns(repr), TurnCells))
  {
    var turns := TwoTurns(repr);
    var g := turns[0].grades[0];
    UngradedTurnIsFinal(repr);
    RootIsNoCell();
    assert !HasArrow("cat") by { assert "cat"[0] != '-' && "cat"[1] != '-' && "cat"[2] != '-'; }
    BreakdownCellExactly(repr, FAIL, "cat", "dog");
    assert ChildCells(g) == [("cat", "dog")] by { assert [] + ChildCells(g) == GradeCells(g); }
    OneGrade(g, turns[0], turns[1]);
    assert turns[0] in turns && LostOf(turns[0], Width(turns, "t")) != [];
    CellsSurviveExactly(turns, order, collapsed);
  }

  lemma OneGrade(g: GradeResult, graded: Turn, ungraded: Turn)
    requires graded.grades == [g] && ungraded.grades == []
    ensures FlatMap([graded, ungraded], TurnCells) == GradeCells(g)
    ensures LostOf(graded, 0) == RootCell(g) + ChildCells(g)
  {
    assert [g][1..] == [] && [g][0..] == [g] && [graded, ungraded][1..] == [ungraded] && [ungraded][1..] == [];
    assert FlatMap([g], GradeCells) == GradeCells(g) + [];
    assert FlatMap([g], RootCell) == RootCell(g) + [];
    assert FlatMap([g], ChildCells) == ChildCells(g) + [];
    assert FlatMap([ungraded], TurnCells) == TurnCells(ungraded) + [];
    assert TurnCells(ungraded) == [];
  }
}
