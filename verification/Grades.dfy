/**
 Grade labels, breakdown trees and per-case outcomes
 (graders/base.py, optimization/aggregator.py).
 */
module Grades {
  import opened Wrappers

  datatype GradeLabel = PASS | FAIL | PARTIAL | ERROR | SKIPPED

  /** One node of a grader's funnel breakdown. */
  datatype BreakdownNode = BreakdownNode(
    key: string,
    grade: Option<GradeLabel>,
    score: Option<real>,
    weight: real,
    reason: string,
    failureModes: seq<string>,
    children: seq<BreakdownNode>)

  datatype GradeResult = GradeResult(
    grader: string,
    grade: GradeLabel,
    reason: string,
    score: Option<real>,
    failureModes: seq<string>,
    breakdown: Option<BreakdownNode>)

  datatype CaseOutcome = CaseOutcome(
    caseId: string,
    labels: seq<GradeLabel>,
    scores: seq<real>,
    failureModes: seq<string>,
    costUsd: real,
    durationMs: int,
    cacheHits: int,
    llmCalls: int,
    breakdowns: seq<BreakdownNode>,
    perGrader: map<string, seq<GradeLabel>>,
    failureWeights: map<string, int>,
    criticalModes: seq<string>)
}

/**
 The JSON form of a breakdown tree and of a case outcome, as the workers persist it
 (graders/base.py, optimization/scenario_outcomes.py). Reading back what was written
 is lossless: without that, a sharded run's metrics would drift from the in-process run.
 */
module OutcomeCodec {
  import opened Wrappers
  import opened Grades

  datatype Json =
    | JNull
    | JInt(i: int)
    | JReal(r: real)
    | JStr(s: string)
    | JList(items: seq<Json>)
    | JObj(fields: map<string, Json>)

  type Fields = map<string, Json>

  // ---- Scalars ----

  function LabelText(grade: GradeLabel): string {
    match grade
    case PASS => "pass"
    case FAIL => "fail"
    case PARTIAL => "partial"
    case ERROR => "error"
    case SKIPPED => "skipped"
  }

  function LabelOf(text: string): Result<GradeLabel> {
    if text == "pass" then Ok(PASS)
    else if text == "fail" then Ok(FAIL)
    else if text == "partial" then Ok(PARTIAL)
    else if text == "error" then Ok(ERROR)
    else if text == "skipped" then Ok(SKIPPED)
    else Err(ValueError)
  }

  function Truncate(r: real): int {
    if r >= 0.0 then r.Floor else -((-r).Floor)
  }

  function ReadInt(j: Json): Result<int> {
    match j
    case JInt(i) => Ok(i)
    case JReal(r) => Ok(Truncate(r))
    case _ => Err(TypeError)
  }

  function ReadReal(j: Json): Result<real> {
    match j
    case JInt(i) => Ok(i as real)
    case JReal(r) => Ok(r)
    case _ => Err(TypeError)
  }

  function ReadText(j: Json): Result<string> {
    if j.JStr? then Ok(j.s) else Err(TypeError)
  }

  function ReadLabel(j: Json): Result<GradeLabel> {
    if j.JStr? then LabelOf(j.s) else Err(ValueError)
  }

  function WriteOptLabel(grade: Option<GradeLabel>): Json {
    if grade.Some? then JStr(LabelText(grade.value)) else JNull
  }

  function ReadOptLabel(j: Json): Result<Option<GradeLabel>> {
    if j.JNull? then Ok(None) else var grade :- ReadLabel(j); Ok(Some(grade))
  }

  function WriteOptReal(score: Option<real>): Json {
    if score.Some? then JReal(score.value) else JNull
  }

  function ReadOptReal(j: Json): Result<Option<real>> {
    if j.JNull? then Ok(None) else var score :- ReadReal(j); Ok(Some(score))
  }

  // ---- Lists ----

  function Texts(ss: seq<string>): seq<Json> {
    if ss == [] then [] else [JStr(ss[0])] + Texts(ss[1..])
  }

  function Labels(ls: seq<GradeLabel>): seq<Json> {
    if ls == [] then [] else [JStr(LabelText(ls[0]))] + Labels(ls[1..])
  }

  function Reals(rs: seq<real>): seq<Json> {
    if rs == [] then [] else [JReal(rs[0])] + Reals(rs[1..])
  }

  /** Reads a list element by element; the first element that fails fails the list. */
  function ReadAll<T>(js: seq<Json>, read: Json -> Result<T>): Result<seq<T>> {
    if js == [] then Ok([])
    else
      var first :- read(js[0]);
      var rest :- ReadAll(js[1..], read);
      Ok([first] + rest)
  }

  function ReadList<T>(j: Json, read: Json -> Result<T>): Result<seq<T>> {
    if j.JList? then ReadAll(j.items, read) else Err(TypeError)
  }

  // ---- Objects ----

  function Get<K>(fields: map<K, Json>, name: K, default: Json): Json {
    if name in fields then fields[name] else default
  }

  function Require<K>(fields: map<K, Json>, name: K): Result<Json> {
    if name in fields then Ok(fields[name]) else Err(KeyError)
  }

  /** Reads every value of an object; any value that fails fails the object. */
  function ReadValues<T>(j: Json, read: Json -> Result<T>): Result<map<string, T>> {
    if !j.JObj? then Err(TypeError)
    else if forall k :: k in j.fields ==> read(j.fields[k]).Ok?
    then Ok(map k | k in j.fields :: read(j.fields[k]).value)
    else Err(ValueError)
  }

  function ReadLabels(j: Json): Result<seq<GradeLabel>> { ReadList(j, ReadLabel) }

  // ---- Breakdown trees ----

  function ToJson(node: BreakdownNode): Json {
    JObj(map[
      "key" := JStr(node.key),
      "label" := WriteOptLabel(node.grade),
      "score" := WriteOptReal(node.score),
      "weight" := JReal(node.weight),
      "reason" := JStr(node.reason),
      "failure_modes" := JList(Texts(node.failureModes)),
      "children" := JList(AllToJson(node.children))])
  }

  function AllToJson(nodes: seq<BreakdownNode>): seq<Json> {
    if nodes == [] then [] else [ToJson(nodes[0])] + AllToJson(nodes[1..])
  }

  function FromJson(j: Json): Result<BreakdownNode> {
    if !j.JObj? then Err(TypeError)
    else
      var key :- Require(j.fields, "key");
      var children :=
        if "children" in j.fields then
          if j.fields["children"].JList? then AllFromJson(j.fields["children"].items) else Err(TypeError)
        else Ok([]);
      Assemble(key, Get(j.fields, "label", JNull), Get(j.fields, "score", JNull), Get(j.fields, "weight", JReal(1.0)),
               Get(j.fields, "reason", JStr("")), Get(j.fields, "failure_modes", JList([])), children)
  }

  /** A node from the values of its fields, read in the order of the source. */
  function Assemble(key: Json, grade: Json, score: Json, weight: Json, reason: Json, modes: Json,
                    children: Result<seq<BreakdownNode>>): Result<BreakdownNode> {
    var keyText :- ReadText(key);
    var gradeLabel :- ReadOptLabel(grade);
    var scoreValue :- ReadOptReal(score);
    var weightValue :- ReadReal(weight);
    var reasonText :- ReadText(reason);
    var modeTexts :- ReadList(modes, ReadText);
    var nodes :- children;
    Ok(BreakdownNode(keyText, gradeLabel, scoreValue, weightValue, reasonText, modeTexts, nodes))
  }

  function AllFromJson(js: seq<Json>): Result<seq<BreakdownNode>> {
    if js == [] then Ok([])
    else
      var first :- FromJson(js[0]);
      var rest :- AllFromJson(js[1..]);
      Ok([first] + rest)
  }

  // ---- Case outcomes ----

  /** The columns of the scenario_outcomes table that hold a case outcome. */
  datatype Column =
    | CaseId | LabelsCol | ScoresCol | PerGraderLabels | FailureModes | Breakdowns | FailureWeights
    | CriticalFailureModes | CostUsd | DurationMs | LlmCallCount | CacheHitCount

  type Row = map<Column, Json>

  function LabelMap(m: map<string, seq<GradeLabel>>): Fields { map g | g in m :: JList(Labels(m[g])) }

  function IntMap(m: map<string, int>): Fields { map k | k in m :: JInt(m[k]) }

  function ToFields(o: CaseOutcome): Row {
    map[
      CaseId := JStr(o.caseId),
      LabelsCol := JList(Labels(o.labels)),
      ScoresCol := JList(Reals(o.scores)),
      PerGraderLabels := JObj(LabelMap(o.perGrader)),
      FailureModes := JList(Texts(o.failureModes)),
      Breakdowns := JList(AllToJson(o.breakdowns)),
      FailureWeights := JObj(IntMap(o.failureWeights)),
      CriticalFailureModes := JList(Texts(o.criticalModes)),
      CostUsd := JReal(o.costUsd),
      DurationMs := JInt(o.durationMs),
      LlmCallCount := JInt(o.llmCalls),
      CacheHitCount := JInt(o.cacheHits)]
  }

  function FromFields(row: Row): Result<CaseOutcome> {
    Assembled(Require(row, CaseId), Require(row, LabelsCol), Require(row, ScoresCol),
              Get(row, PerGraderLabels, JObj(map[])), Get(row, FailureModes, JList([])),
              Get(row, Breakdowns, JList([])),
              Get(row, FailureWeights, JObj(map[])), Get(row, CriticalFailureModes, JList([])),
              Get(row, CostUsd, JReal(0.0)), Get(row, DurationMs, JInt(0)),
              Get(row, LlmCallCount, JInt(0)), Get(row, CacheHitCount, JInt(0)))
  }

  /** An outcome from the values of its columns, read in the order of the source. */
  function Assembled(caseId: Result<Json>, labels: Result<Json>, scores: Result<Json>, perGrader: Json, modes: Json,
                     breakdowns: Json, weights: Json, critical: Json, cost: Json, duration: Json, calls: Json,
                     hits: Json)
    : Result<CaseOutcome>
  {
    var caseJson :- caseId;
    var caseText :- ReadText(caseJson);
    var labelList :- labels;
    var labelValues :- ReadLabels(labelList);
    var scoreList :- scores;
    var scoreValues :- ReadList(scoreList, ReadReal);
    var graderValues :- ReadValues(perGrader, ReadLabels);
    var modeTexts :- ReadList(modes, ReadText);
    var trees :- ReadList(breakdowns, FromJson);
    var weightValues :- ReadValues(weights, ReadInt);
    var criticalTexts :- ReadList(critical, ReadText);
    var costValue :- ReadReal(cost);
    var durationValue :- ReadInt(duration);
    var callCount :- ReadInt(calls);
    var hitCount :- ReadInt(hits);
    Ok(CaseOutcome(caseText, labelValues, scoreValues, modeTexts, costValue, durationValue, hitCount, callCount,
                   trees, graderValues, weightValues, criticalTexts))
  }

  // ---- Round trips ----

  lemma {:induction false} TextsRoundTrip(ss: seq<string>)
    ensures ReadAll(Texts(ss), ReadText) == Ok(ss)
  {
    if ss != [] {
      TextsRoundTrip(ss[1..]);
      assert Texts(ss)[1..] == Texts(ss[1..]);
      assert [ss[0]] + ss[1..] == ss;
    }
  }

  lemma {:induction false} RealsRoundTrip(rs: seq<real>)
    ensures ReadAll(Reals(rs), ReadReal) == Ok(rs)
  {
    if rs != [] {
      RealsRoundTrip(rs[1..]);
      assert Reals(rs)[1..] == Reals(rs[1..]);
      assert [rs[0]] + rs[1..] == rs;
    }
  }

  lemma {:induction false} LabelsRoundTrip(ls: seq<GradeLabel>)
    ensures ReadAll(Labels(ls), ReadLabel) == Ok(ls)
  {
    if ls != [] {
      LabelsRoundTrip(ls[1..]);
      assert Labels(ls)[1..] == Labels(ls[1..]);
      assert LabelOf(LabelText(ls[0])) == Ok(ls[0]);
      assert [ls[0]] + ls[1..] == ls;
    }
  }

  /** Each field of a written node is found under its own name. */
  lemma NodeFields(node: BreakdownNode)
    ensures ToJson(node).JObj?
    ensures var f := ToJson(node).fields;
            && Require(f, "key") == Ok(JStr(node.key))
            && "children" in f && f["children"] == JList(AllToJson(node.children))
            && Get(f, "label", JNull) == WriteOptLabel(node.grade)
            && Get(f, "score", JNull) == WriteOptReal(node.score)
            && Get(f, "weight", JReal(1.0)) == JReal(node.weight)
            && Get(f, "reason", JStr("")) == JStr(node.reason)
            && Get(f, "failure_modes", JList([])) == JList(Texts(node.failureModes))
  {
  }

  lemma AssembleRoundTrip(node: BreakdownNode)
    ensures Assemble(JStr(node.key), WriteOptLabel(node.grade), WriteOptReal(node.score), JReal(node.weight),
                     JStr(node.reason), JList(Texts(node.failureModes)), Ok(node.children)) == Ok(node)
  {
    TextsRoundTrip(node.failureModes);
    if node.grade.Some? { assert LabelOf(LabelText(node.grade.value)) == Ok(node.grade.value); }
  }

  /** `BreakdownNode.from_dict` inverts `to_dict` on trees of any depth. */
  lemma {:induction false} BreakdownRoundTrip(node: BreakdownNode)
    ensures FromJson(ToJson(node)) == Ok(node)
  {
    NodeFields(node);
    AllBreakdownsRoundTrip(node.children);
    AssembleRoundTrip(node);
  }

  lemma {:induction false} AllBreakdownsRoundTrip(nodes: seq<BreakdownNode>)
    ensures AllFromJson(AllToJson(nodes)) == Ok(nodes)
    ensures ReadAll(AllToJson(nodes), FromJson) == Ok(nodes)
  {
    if nodes != [] {
      BreakdownRoundTrip(nodes[0]);
      AllBreakdownsRoundTrip(nodes[1..]);
      assert AllToJson(nodes)[1..] == AllToJson(nodes[1..]);
      assert [nodes[0]] + nodes[1..] == nodes;
    }
  }

  lemma ValuesRoundTrip<T>(fields: Fields, read: Json -> Result<T>, m: map<string, T>)
    requires fields.Keys == m.Keys
    requires forall k :: k in m ==> read(fields[k]) == Ok(m[k])
    ensures ReadValues(JObj(fields), read) == Ok(m)
  {
    var decoded := ReadValues(JObj(fields), read).value;
    assert decoded.Keys == m.Keys;
    assert decoded == m;
  }

  /** Every column of the written row decodes to the field it was written from. */
  lemma ColumnsRoundTrip(o: CaseOutcome)
    ensures ReadLabels(JList(Labels(o.labels))) == Ok(o.labels)
    ensures ReadList(JList(Reals(o.scores)), ReadReal) == Ok(o.scores)
    ensures ReadValues(JObj(LabelMap(o.perGrader)), ReadLabels) == Ok(o.perGrader)
    ensures ReadList(JList(Texts(o.failureModes)), ReadText) == Ok(o.failureModes)
    ensures ReadList(JList(AllToJson(o.breakdowns)), FromJson) == Ok(o.breakdowns)
    ensures ReadValues(JObj(IntMap(o.failureWeights)), ReadInt) == Ok(o.failureWeights)
    ensures ReadList(JList(Texts(o.criticalModes)), ReadText) == Ok(o.criticalModes)
  {
    LabelsRoundTrip(o.labels);
    RealsRoundTrip(o.scores);
    forall g | g in o.perGrader { LabelsRoundTrip(o.perGrader[g]); }
    ValuesRoundTrip(LabelMap(o.perGrader), ReadLabels, o.perGrader);
    TextsRoundTrip(o.failureModes);
    AllBreakdownsRoundTrip(o.breakdowns);
    ValuesRoundTrip(IntMap(o.failureWeights), ReadInt, o.failureWeights);
    TextsRoundTrip(o.criticalModes);
  }

  /** Each field of a written row is found in its own column. */
  lemma RowFields(o: CaseOutcome)
    ensures var row := ToFields(o);
            && Require(row, CaseId) == Ok(JStr(o.caseId))
            && Require(row, LabelsCol) == Ok(JList(Labels(o.labels)))
            && Require(row, ScoresCol) == Ok(JList(Reals(o.scores)))
            && Get(row, PerGraderLabels, JObj(map[])) == JObj(LabelMap(o.perGrader))
            && Get(row, FailureModes, JList([])) == JList(Texts(o.failureModes))
            && Get(row, Breakdowns, JList([])) == JList(AllToJson(o.breakdowns))
            && Get(row, FailureWeights, JObj(map[])) == JObj(IntMap(o.failureWeights))
            && Get(row, CriticalFailureModes, JList([])) == JList(Texts(o.criticalModes))
            && Get(row, CostUsd, JReal(0.0)) == JReal(o.costUsd)
            && Get(row, DurationMs, JInt(0)) == JInt(o.durationMs)
            && Get(row, LlmCallCount, JInt(0)) == JInt(o.llmCalls)
            && Get(row, CacheHitCount, JInt(0)) == JInt(o.cacheHits)
  {
  }

  lemma AssembledRoundTrip(o: CaseOutcome)
    ensures Assembled(Ok(JStr(o.caseId)), Ok(JList(Labels(o.labels))), Ok(JList(Reals(o.scores))),
                      JObj(LabelMap(o.perGrader)), JList(Texts(o.failureModes)), JList(AllToJson(o.breakdowns)),
                      JObj(IntMap(o.failureWeights)), JList(Texts(o.criticalModes)), JReal(o.costUsd),
                      JInt(o.durationMs), JInt(o.llmCalls), JInt(o.cacheHits)) == Ok(o)
  {
    ColumnsRoundTrip(o);
  }

  /** `case_outcome_from_fields` inverts `case_outcome_to_fields`: no field is lost. */
  lemma OutcomeRoundTrip(o: CaseOutcome)
    ensures FromFields(ToFields(o)) == Ok(o)
  {
    RowFields(o);
    AssembledRoundTrip(o);
  }
}
