/**
 The funnel grader (graders/funnel.py): a tree of levels, each scored by a sub-grader, where
 a failing gate skips everything below it. What a level's match answers on its own slice of
 the context is the parameter `judge`.
 */
module FunnelGrader {
  import opened Wrappers
  import opened Sums
  import opened Grades

  datatype Level = Level(key: string, matchName: string, gate: bool, failureMode: Option<string>, children: seq<Level>)

  /** A match returns a grade or raises. */
  datatype Attempt = Returned(result: GradeResult) | Raised(message: string)

  type Judge = Level -> Attempt

  // ---- One level ----

  predicate Failing(grade: GradeLabel) { grade == FAIL || grade == ERROR }

  /** A match that raises counts as an ERROR grade. */
  function ResultOf(judge: Judge, level: Level): GradeResult {
    match judge(level)
    case Returned(result) => result
    case Raised(message) => GradeResult(level.matchName, ERROR, "level match raised: " + message, None, [], None)
  }

  /** A gate that fails stops the levels below it. */
  predicate Stops(judge: Judge, level: Level) { level.gate && Failing(ResultOf(judge, level).grade) }

  /** A gate has failed: its match raised, or answered FAIL or ERROR. */
  ghost predicate GateFailed(judge: Judge, level: Level) {
    level.gate && (judge(level).Raised? || judge(level).result.grade == FAIL || judge(level).result.grade == ERROR)
  }

  lemma StopsExactly(judge: Judge, level: Level)
    ensures Stops(judge, level) <==> GateFailed(judge, level)
  {
  }

  function LevelFailureModes(level: Level, result: GradeResult): seq<string> {
    if !Failing(result.grade) then []
    else if level.failureMode.Some? then [level.failureMode.value]
    else if result.failureModes != [] then result.failureModes
    else ["funnel_" + level.key + "_fail"]
  }

  function Inner(result: GradeResult): seq<BreakdownNode> {
    if result.breakdown.Some? then result.breakdown.value.children else []
  }

  function SkippedNode(level: Level): BreakdownNode {
    BreakdownNode(level.key, Some(SKIPPED), None, 0.0, "skipped: an upstream gate failed", [],
                  SkippedNodes(level.children))
  }

  function SkippedNodes(levels: seq<Level>): (r: seq<BreakdownNode>)
    ensures |r| == |levels|
  {
    if levels == [] then [] else SkippedNodes(levels[..|levels| - 1]) + [SkippedNode(levels[|levels| - 1])]
  }

  function EvaluatedNode(judge: Judge, level: Level): BreakdownNode {
    var result := ResultOf(judge, level);
    BreakdownNode(level.key, Some(result.grade), result.score, 1.0, result.reason, LevelFailureModes(level, result),
                  Inner(result) + Nodes(judge, level.children, Stops(judge, level)))
  }

  /** The nodes of a row of levels, in order. */
  function Nodes(judge: Judge, levels: seq<Level>, gatedOff: bool): (r: seq<BreakdownNode>)
    ensures |r| == |levels|
  {
    if levels == [] then []
    else
      var last := levels[|levels| - 1];
      Nodes(judge, levels[..|levels| - 1], gatedOff)
      + [if gatedOff then SkippedNode(last) else EvaluatedNode(judge, last)]
  }

  /** The nodes that were evaluated, children before their parent. */
  function Evaluated(judge: Judge, levels: seq<Level>, gatedOff: bool): seq<BreakdownNode> {
    if levels == [] || gatedOff then []
    else
      var last := levels[|levels| - 1];
      Evaluated(judge, levels[..|levels| - 1], gatedOff)
      + Evaluated(judge, last.children, Stops(judge, last))
      + [EvaluatedNode(judge, last)]
  }

  // ---- The run ----

  class Run {
    var evaluated: seq<BreakdownNode>

    constructor ()
      ensures evaluated == []
    {
      evaluated := [];
    }

    /** `_run_level` over a row of levels: the nodes appended to `out` and to `evaluated`. */
    method RunLevels(judge: Judge, levels: seq<Level>, gatedOff: bool) returns (out: seq<BreakdownNode>)
      modifies this
      ensures out == Nodes(judge, levels, gatedOff)
      ensures evaluated == old(evaluated) + Evaluated(judge, levels, gatedOff)
      decreases levels, 1
    {
      out := [];
      for i := 0 to |levels|
        invariant out == Nodes(judge, levels[..i], gatedOff)
        invariant evaluated == old(evaluated) + Evaluated(judge, levels[..i], gatedOff)
      {
        RowGrows(judge, levels, i, gatedOff);
        var node := RunLevel(judge, levels[i], gatedOff);
        out := out + [node];
        Associate(old(evaluated), Evaluated(judge, levels[..i], gatedOff), OneEvaluated(judge, levels[i], gatedOff));
      }
      assert levels[..|levels|] == levels;
    }

    method RunLevel(judge: Judge, level: Level, gatedOff: bool) returns (node: BreakdownNode)
      modifies this
      ensures node == if gatedOff then SkippedNode(level) else EvaluatedNode(judge, level)
      ensures evaluated == old(evaluated) + OneEvaluated(judge, level, gatedOff)
      decreases level, 0
    {
      if gatedOff { return SkippedNode(level); }
      var result := ResultOf(judge, level);
      var failed := Failing(result.grade);
      var modes := LevelFailureModes(level, result);
      var childNodes := RunLevels(judge, level.children, gatedOff || (level.gate && failed));
      node := BreakdownNode(level.key, Some(result.grade), result.score, 1.0, result.reason, modes,
                            Inner(result) + childNodes);
      evaluated := evaluated + [node];
    }
  }

  function OneEvaluated(judge: Judge, level: Level, gatedOff: bool): seq<BreakdownNode> {
    if gatedOff then [] else Evaluated(judge, level.children, Stops(judge, level)) + [EvaluatedNode(judge, level)]
  }

  lemma RowGrows(judge: Judge, levels: seq<Level>, i: nat, gatedOff: bool)
    requires i < |levels|
    ensures Nodes(judge, levels[..i + 1], gatedOff)
            == Nodes(judge, levels[..i], gatedOff)
               + [if gatedOff then SkippedNode(levels[i]) else EvaluatedNode(judge, levels[i])]
    ensures Evaluated(judge, levels[..i + 1], gatedOff)
            == Evaluated(judge, levels[..i], gatedOff) + OneEvaluated(judge, levels[i], gatedOff)
  {
    assert levels[..i + 1][..i] == levels[..i];
  }

  // ---- The verdict ----

  function GradesOf(n: BreakdownNode): seq<GradeLabel> { if n.grade.Some? then [n.grade.value] else [] }
  function ScoresOf(n: BreakdownNode): seq<real> { if n.score.Some? then [n.score.value] else [] }
  function ModesOf(n: BreakdownNode): seq<string> { n.failureModes }
  function Value(x: real): real { x }

  function VerdictOf(grades: seq<GradeLabel>): GradeLabel {
    if ERROR in grades then ERROR else if FAIL in grades then FAIL else PASS
  }

  function MeanOf(scores: seq<real>): Option<real> {
    if scores == [] then None else Some(Sum(scores, Value) / |scores| as real)
  }

  function AllKeys(levels: seq<Level>): seq<string> {
    if levels == [] then []
    else
      var last := levels[|levels| - 1];
      AllKeys(levels[..|levels| - 1]) + [last.key] + AllKeys(last.children)
  }

  /** The verdict, score and failure modes of the nodes that were evaluated, over the tree of all nodes. */
  datatype Verdict = Verdict(grade: GradeLabel, score: Option<real>, failureModes: seq<string>, levels: nat,
                             evaluated: nat, children: seq<BreakdownNode>)

  /** `dict.fromkeys`: each element once, at its first occurrence. */
  function FirstSeen(s: seq<string>): seq<string> {
    if s == [] then []
    else
      var before := FirstSeen(s[..|s| - 1]);
      if s[|s| - 1] in before then before else before + [s[|s| - 1]]
  }

  function VerdictFrom(voters: seq<BreakdownNode>, total: nat, nodes: seq<BreakdownNode>): Verdict {
    Verdict(VerdictOf(FlatMap(voters, GradesOf)), MeanOf(FlatMap(voters, ScoresOf)),
            FirstSeen(FlatMap(voters, ModesOf)),
            total, |voters|, nodes)
  }

  function GradeOf(judge: Judge, levels: seq<Level>): Verdict {
    VerdictFrom(Evaluated(judge, levels, false), |AllKeys(levels)|, Nodes(judge, levels, false))
  }

  method CollectModes(voters: seq<BreakdownNode>) returns (r: seq<string>)
    ensures r == FlatMap(voters, ModesOf)
  {
    r := [];
    for i := 0 to |voters|
      invariant r == FlatMap(voters[..i], ModesOf)
    {
      FlatMapSnoc(voters, i, ModesOf);
      r := r + voters[i].failureModes;
    }
    assert voters[..|voters|] == voters;
  }

  method Conclude(voters: seq<BreakdownNode>, total: nat, nodes: seq<BreakdownNode>) returns (r: Verdict)
    ensures r == VerdictFrom(voters, total, nodes)
  {
    var modes := CollectModes(voters);
    r := Verdict(VerdictOf(FlatMap(voters, GradesOf)), MeanOf(FlatMap(voters, ScoresOf)),
                 FirstSeen(modes), total, |voters|, nodes);
  }

  /** `FunnelGrader.grade`. */
  method Grade(judge: Judge, levels: seq<Level>) returns (r: Verdict)
    ensures r == GradeOf(judge, levels)
  {
    var run := new Run();
    var nodes := run.RunLevels(judge, levels, false);
    assert run.evaluated == Evaluated(judge, levels, false);
    r := Conclude(run.evaluated, |AllKeys(levels)|, nodes);
  }

  // ---- Places in the level tree ----

  /** A place: the index of a top-level level, then of a child at each step down. */
  predicate IsPath(levels: seq<Level>, path: seq<nat>) {
    path != [] && path[0] < |levels| && (|path| == 1 || IsPath(levels[path[0]].children, path[1..]))
  }

  function LevelAt(levels: seq<Level>, path: seq<nat>): Level
    requires IsPath(levels, path)
  {
    if |path| == 1 then levels[path[0]] else LevelAt(levels[path[0]].children, path[1..])
  }

  lemma {:induction false} AncestorIsPath(levels: seq<Level>, path: seq<nat>, k: nat)
    requires IsPath(levels, path) && 0 < k <= |path|
    ensures IsPath(levels, path[..k])
  {
    if k > 1 {
      AncestorIsPath(levels[path[0]].children, path[1..], k - 1);
      assert path[..k][1..] == path[1..][..k - 1];
    }
  }

  /** Some proper ancestor is a gate that fails. */
  ghost predicate Blocked(judge: Judge, levels: seq<Level>, path: seq<nat>)
    requires IsPath(levels, path)
  {
    exists k {:trigger path[..k]} ::
      0 < k < |path| && IsPath(levels, path[..k]) && GateFailed(judge, LevelAt(levels, path[..k]))
  }

  /** A level below another is blocked by that one or inside it. */
  lemma BlockedBelow(judge: Judge, levels: seq<Level>, path: seq<nat>)
    requires IsPath(levels, path) && |path| > 1
    ensures Blocked(judge, levels, path)
            <==> Stops(judge, levels[path[0]]) || Blocked(judge, levels[path[0]].children, path[1..])
  {
    var inner := levels[path[0]].children;
    StopsExactly(judge, levels[path[0]]);
    if k :| 0 < k < |path| && IsPath(levels, path[..k]) && GateFailed(judge, LevelAt(levels, path[..k])) {
      if k > 1 { assert path[..k][1..] == path[1..][..k - 1]; }
    }
    if Stops(judge, levels[path[0]]) { assert IsPath(levels, path[..1]); }
    if Blocked(judge, inner, path[1..]) {
      var k :| 0 < k < |path[1..]| && IsPath(inner, path[1..][..k])
               && GateFailed(judge, LevelAt(inner, path[1..][..k]));
      assert path[..k + 1][1..] == path[1..][..k];
      assert IsPath(levels, path[..k + 1]);
    }
  }

  // ---- A level is evaluated exactly when no gate above it failed ----

  /** Where a level's node sits: its parent's node ends with one node per child level. */
  function Output(levels: seq<Level>, nodes: seq<BreakdownNode>, path: seq<nat>): Option<BreakdownNode>
    requires IsPath(levels, path)
  {
    if |nodes| != |levels| then None
    else if |path| == 1 then Some(nodes[path[0]])
    else
      var below, inner := nodes[path[0]].children, levels[path[0]].children;
      if |below| < |inner| then None else Output(inner, below[|below| - |inner|..], path[1..])
  }

  lemma {:induction false} RowNode(judge: Judge, levels: seq<Level>, gatedOff: bool, i: nat)
    requires i < |levels|
    ensures Nodes(judge, levels, gatedOff)[i]
            == if gatedOff then SkippedNode(levels[i]) else EvaluatedNode(judge, levels[i])
  {
    if i < |levels| - 1 { RowNode(judge, levels[..|levels| - 1], gatedOff, i); }
  }

  lemma {:induction false} SkippedRow(judge: Judge, levels: seq<Level>)
    ensures SkippedNodes(levels) == Nodes(judge, levels, true)
  {
    if levels != [] { SkippedRow(judge, levels[..|levels| - 1]); }
  }

  lemma {:induction false} SkippedBelow(judge: Judge, levels: seq<Level>, path: seq<nat>)
    requires IsPath(levels, path)
    ensures Output(levels, Nodes(judge, levels, true), path) == Some(SkippedNode(LevelAt(levels, path)))
  {
    RowNode(judge, levels, true, path[0]);
    if |path| > 1 {
      var inner := levels[path[0]].children;
      SkippedRow(judge, inner);
      SkippedBelow(judge, inner, path[1..]);
    }
  }

  lemma {:induction false} NodeAtPlace(judge: Judge, levels: seq<Level>, path: seq<nat>)
    requires IsPath(levels, path)
    ensures Output(levels, Nodes(judge, levels, false), path)
            == Some(if Blocked(judge, levels, path) then SkippedNode(LevelAt(levels, path))
                    else EvaluatedNode(judge, LevelAt(levels, path)))
  {
    RowNode(judge, levels, false, path[0]);
    if |path| > 1 {
      BlockedBelow(judge, levels, path);
      BelowEvaluated(judge, levels, path);
      var inner := levels[path[0]].children;
      if Stops(judge, levels[path[0]]) { SkippedBelow(judge, inner, path[1..]); }
      else { NodeAtPlace(judge, inner, path[1..]); }
    }
  }

  /** The node of a level that was skipped. */
  ghost predicate ShowsSkipped(node: BreakdownNode, level: Level) {
    && node.key == level.key && node.grade == Some(SKIPPED) && node.score == None && node.weight == 0.0
    && node.reason == "skipped: an upstream gate failed" && node.failureModes == []
    && |node.children| == |level.children|
  }

  /** The node of a level whose match raised: an error without a score. */
  ghost predicate ShowsRaise(node: BreakdownNode, level: Level, message: string) {
    && node.key == level.key && node.grade == Some(ERROR) && node.score == None && node.weight == 1.0
    && node.reason == "level match raised: " + message
    && node.failureModes == [if level.failureMode.Some? then level.failureMode.value
                             else "funnel_" + level.key + "_fail"]
    && |node.children| == |level.children|
  }

  /** The node of a level whose match answered: its grade and score, and failure modes only if it failed. */
  ghost predicate ShowsAnswer(node: BreakdownNode, level: Level, result: GradeResult) {
    && node.key == level.key && node.grade == Some(result.grade) && node.score == result.score && node.weight == 1.0
    && node.reason == result.reason
    && node.failureModes == (if result.grade != FAIL && result.grade != ERROR then []
                             else if level.failureMode.Some? then [level.failureMode.value]
                             else if result.failureModes != [] then result.failureModes
                             else ["funnel_" + level.key + "_fail"])
    && (if result.breakdown.None? then |node.children| == |level.children|
        else
          && |node.children| == |result.breakdown.value.children| + |level.children|
          && result.breakdown.value.children <= node.children)
  }

  /**
   Every level has one node in the tree, at its place. It was skipped when some proper ancestor is a
   gate that raised, failed or errored; otherwise it shows what its own match did.
   */
  lemma TreeShowsEveryLevel(judge: Judge, levels: seq<Level>, path: seq<nat>)
    requires IsPath(levels, path)
    ensures var level, node := LevelAt(levels, path), Output(levels, Nodes(judge, levels, false), path);
            && node.Some?
            && (if Blocked(judge, levels, path) then ShowsSkipped(node.value, level)
                else if judge(level).Raised? then ShowsRaise(node.value, level, judge(level).message)
                else ShowsAnswer(node.value, level, judge(level).result))
  {
    NodeAtPlace(judge, levels, path);
  }

  lemma BelowEvaluated(judge: Judge, levels: seq<Level>, path: seq<nat>)
    requires IsPath(levels, path) && |path| > 1
    ensures var inner := levels[path[0]].children;
            Output(levels, Nodes(judge, levels, false), path)
            == Output(inner, Nodes(judge, inner, Stops(judge, levels[path[0]])), path[1..])
  {
    RowNode(judge, levels, false, path[0]);
    var inner := levels[path[0]].children;
    var own, row := Inner(ResultOf(judge, levels[path[0]])), Nodes(judge, inner, Stops(judge, levels[path[0]]));
    assert (own + row)[|own + row| - |inner|..] == row;
  }

  // ---- Every level is either evaluated or skipped, once ----

  datatype Visit = Visit(level: Level, blocked: bool)

  /** Each level of the tree, parents first, with whether a failing gate stands above it. */
  ghost function Census(judge: Judge, levels: seq<Level>, blocked: bool): seq<Visit> {
    if levels == [] then []
    else
      var last := levels[|levels| - 1];
      Census(judge, levels[..|levels| - 1], blocked)
      + [Visit(last, blocked)]
      + Census(judge, last.children, blocked || Stops(judge, last))
  }

  ghost predicate VisitedAt(judge: Judge, levels: seq<Level>, blocked: bool, v: Visit, path: seq<nat>) {
    IsPath(levels, path) && v == Visit(LevelAt(levels, path), blocked || Blocked(judge, levels, path))
  }

  /** A place in a row is a place among its first levels, its last level, or a place below that. */
  lemma PlaceInRow(judge: Judge, levels: seq<Level>, blocked: bool, v: Visit, path: seq<nat>)
    requires levels != [] && path != []
    ensures var front, last := levels[..|levels| - 1], levels[|levels| - 1];
            VisitedAt(judge, levels, blocked, v, path)
            <==> if path[0] != |levels| - 1 then VisitedAt(judge, front, blocked, v, path)
                 else if |path| == 1 then v == Visit(last, blocked)
                 else VisitedAt(judge, last.children, blocked || Stops(judge, last), v, path[1..])
  {
    var front := levels[..|levels| - 1];
    if path[0] < |levels| - 1 {
      assert IsPath(front, path) <==> IsPath(levels, path);
      if IsPath(levels, path) && |path| > 1 {
        BlockedBelow(judge, levels, path);
        BlockedBelow(judge, front, path);
      }
    } else if |path| > 1 && IsPath(levels, path) {
      BlockedBelow(judge, levels, path);
    }
  }

  /** The census records each level under the flag the places of the tree give it. */
  lemma {:induction false} CensusPlaces(judge: Judge, levels: seq<Level>, blocked: bool, v: Visit)
    ensures v in Census(judge, levels, blocked) <==> exists path :: VisitedAt(judge, levels, blocked, v, path)
  {
    if levels != [] {
      var front, last := levels[..|levels| - 1], levels[|levels| - 1];
      var inner, below := last.children, blocked || Stops(judge, last);
      CensusPlaces(judge, front, blocked, v);
      CensusPlaces(judge, inner, below, v);
      if v in Census(judge, front, blocked) {
        var path :| VisitedAt(judge, front, blocked, v, path);
        PlaceInRow(judge, levels, blocked, v, path);
      } else if v == Visit(last, blocked) {
        PlaceInRow(judge, levels, blocked, v, [|levels| - 1]);
      } else if v in Census(judge, inner, below) {
        var path :| VisitedAt(judge, inner, below, v, path);
        assert ([|levels| - 1] + path)[1..] == path;
        PlaceInRow(judge, levels, blocked, v, [|levels| - 1] + path);
      }
      if path :| VisitedAt(judge, levels, blocked, v, path) { PlaceInRow(judge, levels, blocked, v, path); }
    }
  }

  predicate Open(v: Visit) { !v.blocked }
  predicate Closed(v: Visit) { v.blocked }
  function VisitKey(v: Visit): string { v.level.key }
  function VoterOf(judge: Judge): Visit -> BreakdownNode { (v: Visit) => EvaluatedNode(judge, v.level) }

  lemma MapAppend<T, U>(a: seq<T>, b: seq<T>, f: T -> U)
    ensures Map(a + b, f) == Map(a, f) + Map(b, f)
  {
  }

  lemma {:induction false} BlockedCensus(judge: Judge, levels: seq<Level>)
    ensures Filter(Census(judge, levels, true), Open) == []
  {
    if levels != [] {
      var front, last := levels[..|levels| - 1], levels[|levels| - 1];
      BlockedCensus(judge, front);
      BlockedCensus(judge, last.children);
      FilterAppend(Census(judge, front, true) + [Visit(last, true)], Census(judge, last.children, true), Open);
      FilterAppend(Census(judge, front, true), [Visit(last, true)], Open);
    }
  }

  ghost function Voters(judge: Judge, levels: seq<Level>, blocked: bool): seq<BreakdownNode> {
    Map(Filter(Census(judge, levels, blocked), Open), VoterOf(judge))
  }

  lemma VotersGrow(judge: Judge, levels: seq<Level>)
    requires levels != []
    ensures var front, last := levels[..|levels| - 1], levels[|levels| - 1];
            Voters(judge, levels, false)
            == Voters(judge, front, false) + [EvaluatedNode(judge, last)]
               + Voters(judge, last.children, Stops(judge, last))
  {
    var front, last := levels[..|levels| - 1], levels[|levels| - 1];
    var a, b, c := Census(judge, front, false), [Visit(last, false)], Census(judge, last.children, Stops(judge, last));
    FilterAppend(a + b, c, Open);
    FilterAppend(a, b, Open);
    MapAppend(Filter(a, Open) + Filter(b, Open), Filter(c, Open), VoterOf(judge));
    MapAppend(Filter(a, Open), Filter(b, Open), VoterOf(judge));
    assert Map(b, VoterOf(judge)) == [EvaluatedNode(judge, last)];
  }

  /** The nodes that vote are those of the levels with no failing gate above them, one each. */
  lemma {:induction false} VotersAreUnblocked(judge: Judge, levels: seq<Level>, blocked: bool)
    ensures Permutes(Evaluated(judge, levels, blocked), Voters(judge, levels, blocked))
  {
    if blocked {
      BlockedCensus(judge, levels);
    } else if levels != [] {
      var front, last := levels[..|levels| - 1], levels[|levels| - 1];
      VotersAreUnblocked(judge, front, false);
      VotersAreUnblocked(judge, last.children, Stops(judge, last));
      VotersGrow(judge, levels);
    }
  }

  lemma {:induction false} CensusKeys(judge: Judge, levels: seq<Level>, blocked: bool)
    ensures Map(Census(judge, levels, blocked), VisitKey) == AllKeys(levels)
  {
    if levels != [] {
      var front, last := levels[..|levels| - 1], levels[|levels| - 1];
      var below := blocked || Stops(judge, last);
      CensusKeys(judge, front, blocked);
      CensusKeys(judge, last.children, below);
      var a, b, c := Census(judge, front, blocked), [Visit(last, blocked)], Census(judge, last.children, below);
      MapAppend(a + b, c, VisitKey);
      MapAppend(a, b, VisitKey);
      assert Map(b, VisitKey) == [last.key];
    }
  }

  lemma {:induction false} OpenOrClosed(census: seq<Visit>)
    ensures Count(census, Open) + Count(census, Closed) == |census|
  {
    if census != [] { OpenOrClosed(census[1..]); }
  }

  /** Evaluated levels and levels below a failing gate add up to the keys of the tree. */
  lemma EvaluatedPlusSkipped(judge: Judge, levels: seq<Level>)
    ensures GradeOf(judge, levels).evaluated + Count(Census(judge, levels, false), Closed)
            == GradeOf(judge, levels).levels
  {
    var census := Census(judge, levels, false);
    VotersAreUnblocked(judge, levels, false);
    PermutesLength(Evaluated(judge, levels, false), Voters(judge, levels, false));
    CensusKeys(judge, levels, false);
    OpenOrClosed(census);
  }

  // ---- Skipped levels affect nothing ----

  /** Two judges that agree on every level no failing gate stands above. */
  ghost predicate AgreeWhereOpen(one: Judge, two: Judge, levels: seq<Level>, blocked: bool) {
    forall v :: v in Census(one, levels, blocked) && !v.blocked ==> one(v.level) == two(v.level)
  }

  /** What a skipped level's match would have said changes neither verdict, score, nor any node. */
  lemma {:induction false} SkippedNeverMatter(one: Judge, two: Judge, levels: seq<Level>, blocked: bool)
    requires AgreeWhereOpen(one, two, levels, blocked)
    ensures Nodes(one, levels, blocked) == Nodes(two, levels, blocked)
    ensures Evaluated(one, levels, blocked) == Evaluated(two, levels, blocked)
    ensures !blocked ==> GradeOf(one, levels) == GradeOf(two, levels)
  {
    if levels != [] {
      var front, last := levels[..|levels| - 1], levels[|levels| - 1];
      assert forall v :: v in Census(one, front, blocked) ==> v in Census(one, levels, blocked);
      SkippedNeverMatter(one, two, front, blocked);
      if !blocked {
        assert Visit(last, false) in Census(one, levels, false);
        assert forall v :: v in Census(one, last.children, Stops(one, last)) ==> v in Census(one, levels, false);
        SkippedNeverMatter(one, two, last.children, Stops(one, last));
      }
    }
  }

  // ---- The verdict ----

  ghost predicate SomeOpen(judge: Judge, levels: seq<Level>, grade: GradeLabel) {
    exists v :: v in Census(judge, levels, false) && !v.blocked && ResultOf(judge, v.level).grade == grade
  }

  lemma OpenVisit(judge: Judge, census: seq<Visit>, n: BreakdownNode)
    ensures n in Map(Filter(census, Open), VoterOf(judge))
            <==> exists v :: v in census && !v.blocked && n == EvaluatedNode(judge, v.level)
  {
    var open := Filter(census, Open);
    if n in Map(open, VoterOf(judge)) {
      var j :| 0 <= j < |open| && Map(open, VoterOf(judge))[j] == n;
      FilterMember(census, Open, open[j]);
    }
    if v :| v in census && !v.blocked && n == EvaluatedNode(judge, v.level) {
      FilterMember(census, Open, v);
      var j :| 0 <= j < |open| && open[j] == v;
      assert Map(open, VoterOf(judge))[j] == n;
    }
  }

  lemma VoterIsOpen(judge: Judge, levels: seq<Level>, n: BreakdownNode)
    ensures n in Evaluated(judge, levels, false)
            <==> exists v :: v in Census(judge, levels, false) && !v.blocked && n == EvaluatedNode(judge, v.level)
  {
    VotersAreUnblocked(judge, levels, false);
    SameMembers(Evaluated(judge, levels, false), Voters(judge, levels, false));
    OpenVisit(judge, Census(judge, levels, false), n);
  }

  lemma VoterGrade(judge: Judge, voters: seq<BreakdownNode>, v: Visit, grade: GradeLabel)
    requires EvaluatedNode(judge, v.level) in voters && ResultOf(judge, v.level).grade == grade
    ensures exists i :: 0 <= i < |voters| && grade in GradesOf(voters[i])
  {
    var i :| 0 <= i < |voters| && voters[i] == EvaluatedNode(judge, v.level);
    assert grade in GradesOf(voters[i]);
  }

  lemma VoterGrades(judge: Judge, levels: seq<Level>, grade: GradeLabel)
    ensures grade in FlatMap(Evaluated(judge, levels, false), GradesOf) <==> SomeOpen(judge, levels, grade)
  {
    var voters, census := Evaluated(judge, levels, false), Census(judge, levels, false);
    FlatMapMember(voters, GradesOf, grade);
    if i :| 0 <= i < |voters| && grade in GradesOf(voters[i]) { VoterIsOpen(judge, levels, voters[i]); }
    if v :| v in census && !v.blocked && ResultOf(judge, v.level).grade == grade {
      VoterIsOpen(judge, levels, EvaluatedNode(judge, v.level));
      VoterGrade(judge, voters, v, grade);
    }
  }

  /** The score is the mean over the unskipped levels that have one. */
  lemma ScoreExactly(judge: Judge, levels: seq<Level>)
    ensures GradeOf(judge, levels).score == MeanOf(FlatMap(Voters(judge, levels, false), ScoresOf))
  {
    var one, two := FlatMap(Evaluated(judge, levels, false), ScoresOf), FlatMap(Voters(judge, levels, false), ScoresOf);
    VotersAreUnblocked(judge, levels, false);
    FlatMapPermutes(Evaluated(judge, levels, false), Voters(judge, levels, false), ScoresOf);
    PermutesLength(one, two);
    SumPermutes(one, two, Value);
  }

  /** ERROR when some unskipped level errors, else FAIL when one fails, else PASS. */
  lemma VerdictExactly(judge: Judge, levels: seq<Level>)
    ensures GradeOf(judge, levels).grade
            == if SomeOpen(judge, levels, ERROR) then ERROR else if SomeOpen(judge, levels, FAIL) then FAIL else PASS
  {
    VoterGrades(judge, levels, ERROR);
    VoterGrades(judge, levels, FAIL);
  }

  // ---- The result, told from the places of the tree ----

  /** An unskipped level whose match errored, a raise included, or failed. */
  ghost predicate SomePlace(judge: Judge, levels: seq<Level>, path: seq<nat>, grade: GradeLabel) {
    IsPath(levels, path) && !Blocked(judge, levels, path)
    && if judge(LevelAt(levels, path)).Raised? then grade == ERROR
       else judge(LevelAt(levels, path)).result.grade == grade
  }

  lemma OpenPlaces(judge: Judge, levels: seq<Level>, grade: GradeLabel)
    ensures SomeOpen(judge, levels, grade) <==> exists path :: SomePlace(judge, levels, path, grade)
  {
    if SomeOpen(judge, levels, grade) {
      var v :| v in Census(judge, levels, false) && !v.blocked && ResultOf(judge, v.level).grade == grade;
      CensusPlaces(judge, levels, false, v);
      var path :| VisitedAt(judge, levels, false, v, path);
      assert SomePlace(judge, levels, path, grade);
    }
    if path :| SomePlace(judge, levels, path, grade) {
      var v := Visit(LevelAt(levels, path), false);
      assert VisitedAt(judge, levels, false, v, path);
      CensusPlaces(judge, levels, false, v);
      assert ResultOf(judge, v.level).grade == grade;
    }
  }

  /** ERROR when an unskipped level's match raised or errored, else FAIL when one failed, else PASS. */
  lemma VerdictFromPlaces(judge: Judge, levels: seq<Level>)
    ensures GradeOf(judge, levels).grade
            == if exists path :: SomePlace(judge, levels, path, ERROR) then ERROR
               else if exists path :: SomePlace(judge, levels, path, FAIL) then FAIL else PASS
  {
    VerdictExactly(judge, levels);
    OpenPlaces(judge, levels, ERROR);
    OpenPlaces(judge, levels, FAIL);
  }

  /** How many of the visits are unskipped levels with a score, and what those scores add up to. */
  ghost function Scorers(judge: Judge, visits: seq<Visit>): nat {
    if visits == [] then 0
    else
      var v := visits[|visits| - 1];
      Scorers(judge, visits[..|visits| - 1])
      + if !v.blocked && judge(v.level).Returned? && judge(v.level).result.score.Some? then 1 else 0
  }

  ghost function ScoreTotal(judge: Judge, visits: seq<Visit>): real {
    if visits == [] then 0.0
    else
      var v := visits[|visits| - 1];
      ScoreTotal(judge, visits[..|visits| - 1])
      + if !v.blocked && judge(v.level).Returned? && judge(v.level).result.score.Some?
        then judge(v.level).result.score.value else 0.0
  }

  /** The scores of the unskipped levels. */
  ghost function OpenScores(judge: Judge, visits: seq<Visit>): seq<real> {
    FlatMap(Map(Filter(visits, Open), VoterOf(judge)), ScoresOf)
  }

  ghost predicate Scores(judge: Judge, v: Visit) {
    !v.blocked && judge(v.level).Returned? && judge(v.level).result.score.Some?
  }

  lemma OneMoreVisit(judge: Judge, front: seq<Visit>, v: Visit)
    ensures OpenScores(judge, front + [v])
            == OpenScores(judge, front) + if Scores(judge, v) then [judge(v.level).result.score.value] else []
  {
    var own := if v.blocked then [] else [v];
    OneMoreOpen(front, v, own);
    JoinedScores(judge, Filter(front, Open), own);
    OwnScore(judge, v, own);
  }

  lemma OneMoreOpen(front: seq<Visit>, v: Visit, own: seq<Visit>)
    requires own == if v.blocked then [] else [v]
    ensures Filter(front + [v], Open) == Filter(front, Open) + own
  {
    FilterAppend(front, [v], Open);
    assert Filter([v], Open) == own + [] == own;
  }

  lemma JoinedScores(judge: Judge, a: seq<Visit>, b: seq<Visit>)
    ensures FlatMap(Map(a + b, VoterOf(judge)), ScoresOf)
            == FlatMap(Map(a, VoterOf(judge)), ScoresOf) + FlatMap(Map(b, VoterOf(judge)), ScoresOf)
  {
    MapAppend(a, b, VoterOf(judge));
    FlatMapAppend(Map(a, VoterOf(judge)), Map(b, VoterOf(judge)), ScoresOf);
  }

  lemma OwnScore(judge: Judge, v: Visit, own: seq<Visit>)
    requires own == if v.blocked then [] else [v]
    ensures FlatMap(Map(own, VoterOf(judge)), ScoresOf)
            == if Scores(judge, v) then [judge(v.level).result.score.value] else []
  {
    if !v.blocked {
      var node := EvaluatedNode(judge, v.level);
      assert Map(own, VoterOf(judge)) == [node] && [node][1..] == [];
      assert FlatMap([node], ScoresOf) == ScoresOf(node) + [];
    }
  }

  lemma {:induction false} ScoresAdd(judge: Judge, visits: seq<Visit>)
    ensures |OpenScores(judge, visits)| == Scorers(judge, visits)
    ensures Sum(OpenScores(judge, visits), Value) == ScoreTotal(judge, visits)
  {
    if visits != [] {
      var front, v := visits[..|visits| - 1], visits[|visits| - 1];
      ScoresAdd(judge, front);
      assert visits == front + [v];
      OneMoreVisit(judge, front, v);
      if Scores(judge, v) { SumLast(OpenScores(judge, front), judge(v.level).result.score.value, Value); }
      else { assert OpenScores(judge, front) + [] == OpenScores(judge, front); }
    }
  }


  lemma MeanTimes(total: real, n: real)
    requires n != 0.0
    ensures total / n * n == total
  {
  }

  /** `score` is the mean of the `n` scores that add up to `total`. */
  ghost predicate IsMean(score: Option<real>, n: nat, total: real) {
    (score.Some? <==> n > 0) && (score.Some? ==> score.value * n as real == total)
  }

  lemma MeanExactly(scores: seq<real>)
    ensures IsMean(MeanOf(scores), |scores|, Sum(scores, Value))
  {
    if scores != [] { MeanTimes(Sum(scores, Value), |scores| as real); }
  }

  lemma VoterScores(judge: Judge, levels: seq<Level>)
    ensures GradeOf(judge, levels).score == MeanOf(OpenScores(judge, Census(judge, levels, false)))
  {
    ScoreExactly(judge, levels);
  }

  /** There is a score iff an unskipped level returned one, and it is the mean of those returned. */
  lemma ScoreIsMean(judge: Judge, levels: seq<Level>)
    ensures var visits := Census(judge, levels, false);
            IsMean(GradeOf(judge, levels).score, Scorers(judge, visits), ScoreTotal(judge, visits))
  {
    VoterScores(judge, levels);
    ScoresAdd(judge, Census(judge, levels, false));
    MeanExactly(OpenScores(judge, Census(judge, levels, false)));
  }

  /** `dict.fromkeys`: every element once, and more input only adds at the end. */
  lemma {:induction false} FirstSeenExactly(s: seq<string>)
    ensures Distinct(FirstSeen(s)) && forall x :: x in FirstSeen(s) <==> x in s
    ensures forall n :: 0 <= n <= |s| ==> FirstSeen(s[..n]) <= FirstSeen(s)
  {
    if s != [] {
      var front := s[..|s| - 1];
      FirstSeenExactly(front);
      assert forall x :: x in s <==> x in front || x == s[|s| - 1];
      forall n | 0 <= n <= |s|
        ensures FirstSeen(s[..n]) <= FirstSeen(s)
      {
        if n < |s| { assert s[..n] == front[..n]; } else { assert s[..n] == s; }
      }
    }
  }

  /** The failure modes of the result: those of the evaluated nodes, each once, in order of first appearance. */
  lemma ModesExactly(judge: Judge, levels: seq<Level>)
    ensures var modes := GradeOf(judge, levels).failureModes;
            && Distinct(modes)
            && forall m :: m in modes
                 <==> exists n :: n in Evaluated(judge, levels, false) && m in n.failureModes
  {
    var all := FlatMap(Evaluated(judge, levels, false), ModesOf);
    FirstSeenExactly(all);
    forall m
      ensures m in all <==> exists n :: n in Evaluated(judge, levels, false) && m in n.failureModes
    {
      ModeOfSome(Evaluated(judge, levels, false), m);
    }
  }

  lemma ModeOfSome(nodes: seq<BreakdownNode>, m: string)
    ensures m in FlatMap(nodes, ModesOf) <==> exists n :: n in nodes && m in n.failureModes
  {
    FlatMapMember(nodes, ModesOf, m);
    if i :| 0 <= i < |nodes| && m in ModesOf(nodes[i]) { assert nodes[i] in nodes; }
    if n :| n in nodes && m in n.failureModes {
      var i :| 0 <= i < |nodes| && nodes[i] == n;
      assert m in ModesOf(nodes[i]);
    }
  }

  // ---- Building a funnel ----

  /** `FunnelGrader.__init__`: a name, at least one level, and no key twice. */
  method NewFunnel(name: string, levels: seq<Level>) returns (r: Result<seq<Level>>)
    ensures r == if name != "" && levels != [] && Distinct(AllKeys(levels)) then Ok(levels) else Err(ValueError)
  {
    if name == "" || levels == [] { return Err(ValueError); }
    var keys := AllKeys(levels);
    ElementsSize(keys);
    if |Elements(keys)| != |keys| { return Err(ValueError); }
    return Ok(levels);
  }

}
