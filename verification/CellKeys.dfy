/**
 Confusion cells travel through breakdown trees encoded in node keys,
 `cell:<expected>-><predicted>` (graders/classification.py), and are collected back
 from any depth (optimization/aggregator.py).
 */
module CellKeys {
  import opened Wrappers
  import opened Sums
  import opened Grades

  type Pair = (string, string)

  const PREFIX := "cell:"

  function CellKey(expected: string, predicted: string): string {
    PREFIX + expected + "->" + predicted
  }

  /** Where the first "->" starts, if there is one. */
  function FindArrow(s: string): (r: Option<nat>)
    ensures r.Some? ==> r.value + 2 <= |s|
  {
    if |s| < 2 then None
    else if s[0] == '-' && s[1] == '>' then Some(0)
    else
      match FindArrow(s[1..])
      case None => None
      case Some(i) => Some(i + 1)
  }

  function ParseCellKey(key: string): Option<Pair> {
    if !(PREFIX <= key) then None
    else
      var body := key[|PREFIX|..];
      match FindArrow(body)
      case None => None
      case Some(i) =>
        var expected, predicted := body[..i], body[i + 2..];
        if expected == "" || predicted == "" then None else Some((expected, predicted))
  }

  predicate HasArrow(s: string) { exists i :: 0 <= i < |s| - 1 && s[i] == '-' && s[i + 1] == '>' }

  /** The arrow that is found is the first one. */
  lemma {:induction false} FindArrowFirst(s: string)
    ensures FindArrow(s).None? ==> !HasArrow(s)
    ensures FindArrow(s).Some? ==>
              var i := FindArrow(s).value;
              && i + 2 <= |s| && s[i] == '-' && s[i + 1] == '>'
              && forall j :: 0 <= j < i ==> !(s[j] == '-' && s[j + 1] == '>')
  {
    if |s| >= 2 && !(s[0] == '-' && s[1] == '>') {
      FindArrowFirst(s[1..]);
      if HasArrow(s) {
        var i :| 0 <= i < |s| - 1 && s[i] == '-' && s[i + 1] == '>';
        assert s[1..][i - 1] == '-' && s[1..][i] == '>';
      }
      if FindArrow(s[1..]).Some? {
        var i := FindArrow(s[1..]).value;
        forall j | 0 <= j < i + 1
          ensures !(s[j] == '-' && s[j + 1] == '>')
        {
          if j > 0 { assert s[j] == s[1..][j - 1] && s[j + 1] == s[1..][j]; }
        }
      }
    }
  }

  /**
   Parsing a printed cell gives the cell back exactly when both labels are non-empty and the
   expected label holds no arrow of its own. The predicted label may hold any number of them.
   */
  lemma CellKeyRoundTrip(expected: string, predicted: string)
    ensures ParseCellKey(CellKey(expected, predicted)) == Some((expected, predicted))
            <==> expected != "" && predicted != "" && !HasArrow(expected)
  {
    var key := CellKey(expected, predicted);
    var body := expected + "->" + predicted;
    assert key == PREFIX + body;
    assert key[|PREFIX|..] == body;
    FindArrowFirst(body);
    assert body[|expected|] == '-' && body[|expected| + 1] == '>';
    var i := FindArrow(body).value;
    assert i <= |expected|;
    if HasArrow(expected) {
      var j :| 0 <= j < |expected| - 1 && expected[j] == '-' && expected[j + 1] == '>';
      assert body[j] == '-' && body[j + 1] == '>';
      assert i < |expected|;
      assert body[..i] != expected;
    } else {
      assert forall j :: 0 <= j < |expected| ==> body[j] == expected[j];
      assert i == |expected|;
      assert body[..i] == expected && body[i + 2..] == predicted;
    }
  }

  /** A key is read as a pair exactly when it is that pair printed and reads back: nothing else is a cell. */
  lemma ParsedExactly(key: string, expected: string, predicted: string)
    ensures ParseCellKey(key) == Some((expected, predicted))
            <==> key == "cell:" + expected + "->" + predicted
                 && expected != "" && predicted != "" && !HasArrow(expected)
  {
    if ParseCellKey(key) == Some((expected, predicted)) {
      var body := key[|PREFIX|..];
      FindArrowFirst(body);
      var i := FindArrow(body).value;
      assert key == PREFIX + body && body == body[..i] + "->" + body[i + 2..];
      assert key == CellKey(expected, predicted);
    }
    CellKeyRoundTrip(expected, predicted);
  }

  /** An expected label with an arrow is misread, and shares its key with another cell. */
  lemma ArrowInExpectedIsMisread()
    ensures ParseCellKey(CellKey("a->b", "c")) == Some(("a", "b->c"))
    ensures CellKey("a->b", "c") == CellKey("a", "b->c")
  {
    assert CellKey("a->b", "c") == PREFIX + "a->b->c" == CellKey("a", "b->c");
    CellKeyRoundTrip("a", "b->c");
  }

  // ---- Collecting the cells of a tree ----

  function OwnCell(node: BreakdownNode): seq<Pair> {
    match ParseCellKey(node.key)
    case None => []
    case Some(pair) => [pair]
  }

  /** The cells of a tree, the node's own first, then those of its children in order. */
  function CellsOf(node: BreakdownNode): seq<Pair> { OwnCell(node) + CellsOfAll(node.children) }

  function CellsOfAll(nodes: seq<BreakdownNode>): seq<Pair> {
    if nodes == [] then [] else CellsOf(nodes[0]) + CellsOfAll(nodes[1..])
  }

  lemma {:induction false} CellsOfAllIsFlatMap(nodes: seq<BreakdownNode>)
    ensures CellsOfAll(nodes) == FlatMap(nodes, CellsOf)
  {
    if nodes != [] { CellsOfAllIsFlatMap(nodes[1..]); }
  }

  /** `_collect_cell_pairs`: appends a tree's cells to the pairs gathered so far. */
  method CollectCellPairs(node: BreakdownNode, pairs: seq<Pair>) returns (r: seq<Pair>)
    ensures r == pairs + CellsOf(node)
    decreases node
  {
    r := CollectAll(node.children, pairs + OwnCell(node));
    Associate(pairs, OwnCell(node), CellsOfAll(node.children));
  }

  lemma CellsOfAllSnoc(nodes: seq<BreakdownNode>, i: nat)
    requires i < |nodes|
    ensures CellsOfAll(nodes[..i + 1]) == CellsOfAll(nodes[..i]) + CellsOf(nodes[i])
  {
    CellsOfAllIsFlatMap(nodes[..i]);
    CellsOfAllIsFlatMap(nodes[..i + 1]);
    FlatMapSnoc(nodes, i, CellsOf);
  }

  method CollectAll(trees: seq<BreakdownNode>, pairs: seq<Pair>) returns (r: seq<Pair>)
    ensures r == pairs + CellsOfAll(trees)
    decreases trees
  {
    r := pairs;
    for i := 0 to |trees|
      invariant r == pairs + CellsOfAll(trees[..i])
    {
      Associate(pairs, CellsOfAll(trees[..i]), CellsOf(trees[i]));
      CellsOfAllSnoc(trees, i);
      r := CollectCellPairs(trees[i], r);
    }
    assert trees[..|trees|] == trees;
  }

  function CellsOfOutcome(o: CaseOutcome): seq<Pair> { CellsOfAll(o.breakdowns) }

  /** Every cell every case emitted, at any depth. */
  function AllCells(outcomes: seq<CaseOutcome>): seq<Pair> { FlatMap(outcomes, CellsOfOutcome) }

  /** The gathering half of `_rollup_confusion`. */
  method GatherCells(outcomes: seq<CaseOutcome>) returns (pairs: seq<Pair>)
    ensures pairs == AllCells(outcomes)
  {
    pairs := [];
    for i := 0 to |outcomes|
      invariant pairs == AllCells(outcomes[..i])
    {
      pairs := CollectAll(outcomes[i].breakdowns, pairs);
      FlatMapSnoc(outcomes, i, CellsOfOutcome);
    }
    assert outcomes[..|outcomes|] == outcomes;
  }
}
