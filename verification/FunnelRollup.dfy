/**
 The funnel rollup of an iteration (optimization/aggregator.py): every breakdown node of
 every case, merged by its path of keys. `Rollup` states what the result is;
 `Accumulator` is the mutable tree that computes it.
 */
module FunnelRollup {
  import opened Wrappers
  import opened Sums
  import opened Counters
  import opened Grades

  datatype FunnelNode = FunnelNode(
    key: string,
    count: int,
    meanScore: Option<real>,
    totalWeight: real,
    labelCounts: map<GradeLabel, int>,
    failureModeCounts: map<string, int>,
    children: map<string, FunnelNode>)

  // ---- Groups of breakdown nodes ----

  function HasKey(key: string): BreakdownNode -> bool { (n: BreakdownNode) => n.key == key }
  function Named(nodes: seq<BreakdownNode>, key: string): seq<BreakdownNode> { Filter(nodes, HasKey(key)) }
  function ChildrenOf(n: BreakdownNode): seq<BreakdownNode> { n.children }
  function Kids(nodes: seq<BreakdownNode>): seq<BreakdownNode> { FlatMap(nodes, ChildrenOf) }
  function Keys(nodes: seq<BreakdownNode>): set<string> { set n | n in nodes :: n.key }

  function Weight(n: BreakdownNode): real { n.weight }
  function ScoredWeight(n: BreakdownNode): real { if n.score.Some? then n.weight else 0.0 }
  function WeightedScore(n: BreakdownNode): real { if n.score.Some? then n.score.value * n.weight else 0.0 }
  function LabelOf(n: BreakdownNode): seq<GradeLabel> { if n.grade.Some? then [n.grade.value] else [] }
  function ModesOf(n: BreakdownNode): seq<string> { n.failureModes }

  function MeanOf(weighted: real, weight: real): Option<real> {
    if weight != 0.0 then Some(weighted / weight) else None
  }

  function MeanScore(nodes: seq<BreakdownNode>): Option<real> {
    MeanOf(Sum(nodes, WeightedScore), Sum(nodes, ScoredWeight))
  }

  /** Everything a funnel node says about the breakdown nodes at its path, children apart. */
  function Stats(key: string, nodes: seq<BreakdownNode>): FunnelNode {
    FunnelNode(key, |nodes|, MeanScore(nodes), Sum(nodes, Weight),
               Tally(FlatMap(nodes, LabelOf)), Tally(FlatMap(nodes, ModesOf)), map[])
  }

  // ---- The rollup ----

  function Max(a: nat, b: nat): nat { if a < b then b else a }

  function Height(nodes: seq<BreakdownNode>): nat {
    if nodes == [] then 0 else Max(1 + Height(nodes[0].children), Height(nodes[1..]))
  }

  function Rollup(nodes: seq<BreakdownNode>): map<string, FunnelNode>
    decreases Height(nodes)
  {
    map key | key in Keys(nodes) ::
      (NamedHeight(nodes, key);
       KidsHeight(Named(nodes, key));
       Stats(key, Named(nodes, key)).(children := Rollup(Kids(Named(nodes, key)))))
  }

  lemma {:induction false} HeightAppend(a: seq<BreakdownNode>, b: seq<BreakdownNode>)
    ensures Height(a + b) == Max(Height(a), Height(b))
  {
    if a == [] {
      assert a + b == b;
    } else {
      assert (a + b)[1..] == a[1..] + b;
      HeightAppend(a[1..], b);
    }
  }

  lemma {:induction false} KidsHeight(nodes: seq<BreakdownNode>)
    requires nodes != []
    ensures Height(Kids(nodes)) < Height(nodes)
  {
    if |nodes| > 1 { KidsHeight(nodes[1..]); }
    HeightAppend(nodes[0].children, Kids(nodes[1..]));
  }

  lemma {:induction false} NamedHeight(nodes: seq<BreakdownNode>, key: string)
    ensures Height(Named(nodes, key)) <= Height(nodes)
    ensures Named(nodes, key) != [] <==> key in Keys(nodes)
  {
    if nodes != [] {
      NamedHeight(nodes[1..], key);
      HeightAppend([nodes[0]], Named(nodes[1..], key));
      assert [] + Named(nodes[1..], key) == Named(nodes[1..], key);
      if key in Keys(nodes) {
        var n :| n in nodes && n.key == key;
        if n != nodes[0] { assert n in nodes[1..]; }
      }
      if key in Keys(nodes[1..]) {
        var n :| n in nodes[1..] && n.key == key;
        assert n in nodes;
      }
    }
  }

  // ---- The mutable tree ----

  /** Running totals over `nodes`, as an accumulator's fields keep them. */
  ghost predicate Totals(nodes: seq<BreakdownNode>, count: int, weighted: real, scored: real, weight: real,
                         labels: map<GradeLabel, int>, modes: map<string, int>)
  {
    && count == |nodes|
    && weighted == Sum(nodes, WeightedScore)
    && scored == Sum(nodes, ScoredWeight)
    && weight == Sum(nodes, Weight)
    && labels == Tally(FlatMap(nodes, LabelOf))
    && modes == Tally(FlatMap(nodes, ModesOf))
  }

  class Accumulator {
    var key: string
    var count: int
    var weightedScoreSum: real
    var scoredWeight: real
    var totalWeight: real
    var labelCounts: map<GradeLabel, int>
    var failureModeCounts: map<string, int>
    var children: map<string, Accumulator>
    ghost var added: seq<BreakdownNode>
    ghost var Repr: set<object>

    /** The scalar fields are the sums over the nodes added so far. */
    ghost predicate Tallied()
      reads this
    {
      Totals(added, count, weightedScoreSum, scoredWeight, totalWeight, labelCounts, failureModeCounts)
    }

    ghost predicate Valid()
      reads this, Repr
      decreases Repr, 0
    {
      && this in Repr
      && Tallied()
      && Forest(children, Kids(added), Repr - {this})
    }

    constructor (key: string)
      ensures Valid() && fresh(Repr) && this.key == key && added == []
    {
      this.key := key;
      count, weightedScoreSum, scoredWeight, totalWeight := 0, 0.0, 0.0, 0.0;
      labelCounts, failureModeCounts, children := map[], map[], map[];
      added, Repr := [], {this};
    }

    /** Merges one breakdown node, and its subtree, into this accumulator. */
    method Add(node: BreakdownNode)
      requires Valid()
      modifies Repr
      ensures Valid() && fresh(Repr - old(Repr)) && old(Repr) <= Repr
      ensures added == old(added) + [node] && key == old(key)
      decreases node, 0
    {
      ghost var was, bound := added, Repr - {this};
      var accs := children;
      ghost var kids, kids' := KidsLast(was, node);
      AddScalars(node);
      assert children == accs;
      var grown, bound' := AddEach(accs, kids, bound, node.children);
      assert Kids(added) == kids';
      Adopt(grown, bound');
    }

    method Adopt(grown: map<string, Accumulator>, ghost bound: set<object>)
      requires Tallied() && Forest(grown, Kids(added), bound) && this !in bound
      modifies `children, `Repr
      ensures Valid() && Repr == bound + {this}
    {
      children, Repr := grown, bound + {this};
      assert Repr - {this} == bound;
    }

    method AddScalars(node: BreakdownNode)
      requires Tallied()
      modifies `count, `weightedScoreSum, `scoredWeight, `totalWeight, `labelCounts, `failureModeCounts, `added
      ensures Tallied() && added == old(added) + [node]
    {
      var modes := CountInto(failureModeCounts, node.failureModes);
      var labels := if node.grade.Some? then Bump(labelCounts, node.grade.value) else labelCounts;
      TotalsLast(added, node, count, weightedScoreSum, scoredWeight, totalWeight, labelCounts, failureModeCounts);
      count, totalWeight := count + 1, totalWeight + node.weight;
      weightedScoreSum, scoredWeight := weightedScoreSum + WeightedScore(node), scoredWeight + ScoredWeight(node);
      labelCounts, failureModeCounts, added := labels, modes, added + [node];
      assert Totals(added, count, weightedScoreSum, scoredWeight, totalWeight, labelCounts, failureModeCounts);
    }

    /** The immutable view: exactly the rollup of the nodes that were added. */
    function Freeze(): (r: FunnelNode)
      requires Valid()
      reads Repr
      ensures r == Stats(key, added).(children := Rollup(Kids(added)))
      decreases Repr, 0
    {
      FunnelNode(key, count, MeanOf(weightedScoreSum, scoredWeight), totalWeight,
                 labelCounts, failureModeCounts, FreezeAll(children, Kids(added), Repr - {this}))
    }
  }

  /** Accumulators by key, with disjoint footprints inside `bound`, that together hold `nodes`. */
  ghost predicate Forest(accs: map<string, Accumulator>, nodes: seq<BreakdownNode>, bound: set<object>)
    reads bound
    decreases bound, 1
  {
    && accs.Keys == Keys(nodes)
    && (forall k :: k in accs ==>
          && accs[k] in bound && accs[k].Repr <= bound
          && accs[k].Valid()
          && accs[k].key == k && accs[k].added == Named(nodes, k))
    && (forall j, k :: j in accs && k in accs && j != k ==> accs[j].Repr !! accs[k].Repr)
  }

  /** One accumulator of a forest. */
  ghost predicate Grows(acc: Accumulator, k: string, nodes: seq<BreakdownNode>, bound: set<object>)
    reads bound
  {
    && acc in bound && acc.Repr <= bound
    && acc.Valid()
    && acc.key == k && acc.added == Named(nodes, k)
  }

  function FreezeAll(accs: map<string, Accumulator>, ghost nodes: seq<BreakdownNode>, ghost bound: set<object>)
    : (r: map<string, FunnelNode>)
    requires Forest(accs, nodes, bound)
    reads bound
    ensures r == Rollup(nodes)
    decreases bound, 1
  {
    map k | k in accs :: accs[k].Freeze()
  }

  /** The accumulators of every key but `key`, away from the footprint `mine`. */
  ghost predicate Others(accs: map<string, Accumulator>, nodes: seq<BreakdownNode>, key: string,
                         bound: set<object>, mine: set<object>)
    reads bound
    decreases bound, 2
  {
    && (forall k :: k in accs && k != key ==>
          && accs[k] in bound && accs[k].Repr <= bound && accs[k].Repr !! mine
          && accs[k].Valid()
          && accs[k].key == k && accs[k].added == Named(nodes, k))
    && (forall j, k :: j in accs && k in accs && j != k && j != key && k != key ==> accs[j].Repr !! accs[k].Repr)
  }

  /** Finds or creates the accumulator of a node's key and adds the node to it. */
  method AddTo(accs: map<string, Accumulator>, ghost nodes: seq<BreakdownNode>, ghost bound: set<object>,
               node: BreakdownNode)
    returns (accs': map<string, Accumulator>, ghost bound': set<object>)
    requires Forest(accs, nodes, bound)
    modifies bound
    ensures Forest(accs', nodes + [node], bound')
    ensures bound <= bound' && fresh(bound' - bound)
    decreases node, 1
  {
    var acc, mine := FindOrCreate(accs, nodes, bound, node.key);
    acc.Add(node);
    assert Others(accs, nodes, node.key, bound - mine, mine);
    accs' := accs[node.key := acc];
    bound' := bound + acc.Repr;
    ForestJoin(accs, nodes, node, acc, bound, mine);
  }

  /** Away from one accumulator's footprint, or from a fresh one, the others are as they were. */
  lemma OthersApart(accs: map<string, Accumulator>, nodes: seq<BreakdownNode>, key: string, bound: set<object>,
                    mine: set<object>)
    requires Forest(accs, nodes, bound)
    requires if key in accs then mine == accs[key].Repr else mine !! bound
    ensures Others(accs, nodes, key, bound - mine, mine)
  {
  }

  method FindOrCreate(accs: map<string, Accumulator>, ghost nodes: seq<BreakdownNode>, ghost bound: set<object>,
                      key: string)
    returns (acc: Accumulator, ghost mine: set<object>)
    requires Forest(accs, nodes, bound)
    ensures accs.Keys == Keys(nodes)
    ensures acc.Valid() && acc.key == key && acc.added == Named(nodes, key) && mine == acc.Repr
    ensures mine <= bound || fresh(mine)
    ensures Others(accs, nodes, key, bound - mine, mine)
  {
    if key in accs {
      acc := accs[key];
    } else {
      acc := new Accumulator(key);
      NamedHeight(nodes, key);
    }
    mine := acc.Repr;
    OthersApart(accs, nodes, key, bound, mine);
  }

  lemma ForestOf(accs: map<string, Accumulator>, nodes: seq<BreakdownNode>, bound: set<object>)
    requires accs.Keys == Keys(nodes)
    requires forall k :: k in accs ==> Grows(accs[k], k, nodes, bound)
    requires forall j, k :: j in accs && k in accs && j != k ==> accs[j].Repr !! accs[k].Repr
    ensures Forest(accs, nodes, bound)
  {
  }

  lemma ForestJoin(accs: map<string, Accumulator>, nodes: seq<BreakdownNode>, node: BreakdownNode,
                   acc: Accumulator, bound: set<object>, mine: set<object>)
    requires accs.Keys == Keys(nodes)
    requires Others(accs, nodes, node.key, bound - mine, mine)
    requires acc.Valid() && acc.key == node.key && acc.added == Named(nodes, node.key) + [node]
    requires acc.Repr !! bound - mine
    ensures Forest(accs[node.key := acc], nodes + [node], bound + acc.Repr)
  {
    var grown := accs[node.key := acc];
    assert grown.Keys == Keys(nodes + [node]) by { NamedSnoc(nodes, node); }
    forall k | k in grown
      ensures Grows(grown[k], k, nodes + [node], bound + acc.Repr)
    {
      GrownKey(accs, nodes, node, bound - mine, mine, acc, k);
    }
    forall j, k | j in grown && k in grown && j != k
      ensures grown[j].Repr !! grown[k].Repr
    {
      ApartFrom(accs, nodes, node.key, bound - mine, mine, acc, j, k);
    }
    ForestOf(grown, nodes + [node], bound + acc.Repr);
  }

  lemma GrownKey(accs: map<string, Accumulator>, nodes: seq<BreakdownNode>, node: BreakdownNode, bound: set<object>,
                 mine: set<object>, acc: Accumulator, k: string)
    requires Others(accs, nodes, node.key, bound, mine) && k in accs[node.key := acc]
    requires acc.Valid() && acc.key == node.key && acc.added == Named(nodes, node.key) + [node]
    ensures Grows(accs[node.key := acc][k], k, nodes + [node], bound + acc.Repr)
  {
    NamedSnoc(nodes, node);
  }

  lemma ApartFrom(accs: map<string, Accumulator>, nodes: seq<BreakdownNode>, key: string, bound: set<object>,
                  mine: set<object>, acc: Accumulator, j: string, k: string)
    requires Others(accs, nodes, key, bound, mine) && acc.Repr !! bound
    requires j in accs[key := acc] && k in accs[key := acc] && j != k
    ensures accs[key := acc][j].Repr !! accs[key := acc][k].Repr
  {
  }

  method AddEach(accs: map<string, Accumulator>, ghost nodes: seq<BreakdownNode>, ghost bound: set<object>,
                 more: seq<BreakdownNode>)
    returns (accs': map<string, Accumulator>, ghost bound': set<object>)
    requires Forest(accs, nodes, bound)
    modifies bound
    ensures Forest(accs', nodes + more, bound')
    ensures bound <= bound' && fresh(bound' - bound)
    decreases more, 2
  {
    accs', bound' := accs, bound;
    assert nodes + more[..0] == nodes;
    for i := 0 to |more|
      invariant Forest(accs', nodes + more[..i], bound')
      invariant bound <= bound' && fresh(bound' - bound)
    {
      accs', bound' := AddTo(accs', nodes + more[..i], bound', more[i]);
      assert nodes + more[..i + 1] == nodes + more[..i] + [more[i]];
    }
    assert nodes + more[..|more|] == nodes + more;
  }

  lemma NamedSnoc(nodes: seq<BreakdownNode>, node: BreakdownNode)
    ensures Keys(nodes + [node]) == Keys(nodes) + {node.key}
    ensures forall k {:trigger Named(nodes + [node], k)} ::
              Named(nodes + [node], k) == if k == node.key then Named(nodes, k) + [node] else Named(nodes, k)
  {
    forall k: string
      ensures Named(nodes + [node], k) == if k == node.key then Named(nodes, k) + [node] else Named(nodes, k)
    {
      FilterAppend(nodes, [node], HasKey(k));
    }
    assert forall n :: n in nodes + [node] <==> n in nodes || n == node;
  }

  // ---- One more node ----

  lemma TotalsLast(nodes: seq<BreakdownNode>, node: BreakdownNode, count: int, weighted: real, scored: real,
                   weight: real, labels: map<GradeLabel, int>, modes: map<string, int>)
    requires Totals(nodes, count, weighted, scored, weight, labels, modes)
    ensures Totals(nodes + [node], count + 1, weighted + WeightedScore(node), scored + ScoredWeight(node),
                   weight + node.weight,
                   if node.grade.Some? then Bump(labels, node.grade.value) else labels,
                   BumpAll(modes, node.failureModes))
  {
    SumLast(nodes, node, WeightedScore);
    SumLast(nodes, node, ScoredWeight);
    SumLast(nodes, node, Weight);
    LabelsLast(nodes, node);
    ModesLast(nodes, node);
  }

  lemma KidsLast(nodes: seq<BreakdownNode>, node: BreakdownNode)
    returns (kids: seq<BreakdownNode>, kids': seq<BreakdownNode>)
    ensures kids == Kids(nodes) && kids' == Kids(nodes + [node]) == kids + node.children
  {
    kids, kids' := Kids(nodes), Kids(nodes + [node]);
    FlatMapLast(nodes, node, ChildrenOf);
  }

  lemma LabelsLast(nodes: seq<BreakdownNode>, node: BreakdownNode)
    ensures Tally(FlatMap(nodes + [node], LabelOf))
            == if node.grade.Some? then Bump(Tally(FlatMap(nodes, LabelOf)), node.grade.value)
               else Tally(FlatMap(nodes, LabelOf))
  {
    FlatMapLast(nodes, node, LabelOf);
    if node.grade.Some? {
      TallyBump(FlatMap(nodes, LabelOf), node.grade.value);
    } else {
      assert FlatMap(nodes, LabelOf) + [] == FlatMap(nodes, LabelOf);
    }
  }

  lemma ModesLast(nodes: seq<BreakdownNode>, node: BreakdownNode)
    ensures Tally(FlatMap(nodes + [node], ModesOf)) == BumpAll(Tally(FlatMap(nodes, ModesOf)), node.failureModes)
  {
    FlatMapLast(nodes, node, ModesOf);
    TallyBumpAll(FlatMap(nodes, ModesOf), node.failureModes);
  }

  // ---- The rollup of an iteration ----

  function BreakdownsOf(o: CaseOutcome): seq<BreakdownNode> { o.breakdowns }
  function AllBreakdowns(outcomes: seq<CaseOutcome>): seq<BreakdownNode> { FlatMap(outcomes, BreakdownsOf) }

  /** `_rollup_funnel`: feeds every tree of every case into the mutable roots, then freezes them. */
  method RollupFunnel(outcomes: seq<CaseOutcome>) returns (r: map<string, FunnelNode>)
    ensures r == Rollup(AllBreakdowns(outcomes))
  {
    var roots: map<string, Accumulator> := map[];
    ghost var bound: set<object> := {};
    for i := 0 to |outcomes|
      invariant Forest(roots, AllBreakdowns(outcomes[..i]), bound) && fresh(bound)
    {
      roots, bound := AddEach(roots, AllBreakdowns(outcomes[..i]), bound, outcomes[i].breakdowns);
      FlatMapSnoc(outcomes, i, BreakdownsOf);
    }
    assert outcomes[..|outcomes|] == outcomes;
    r := FreezeAll(roots, AllBreakdowns(outcomes), bound);
  }

  // ---- What the rollup guarantees ----

  /** The breakdown nodes reached from `nodes` along a path of keys. */
  function At(nodes: seq<BreakdownNode>, path: seq<string>): seq<BreakdownNode>
    requires path != []
    decreases path
  {
    if |path| == 1 then Named(nodes, path[0]) else At(Kids(Named(nodes, path[0])), path[1..])
  }

  /** A place in the trees: the index of a root, then of one of its children, and so on down. */
  type Place = seq<nat>

  /** The node at a place, when the keys from its root down to it spell the path. */
  function Reached(trees: seq<BreakdownNode>, path: seq<string>, place: Place): Option<BreakdownNode>
    requires path != []
    decreases path
  {
    if |place| != |path| || place[0] >= |trees| || trees[place[0]].key != path[0] then None
    else if |path| == 1 then Some(trees[place[0]])
    else Reached(trees[place[0]].children, path[1..], place[1..])
  }

  function Under(i: nat): Place -> Place { (place: Place) => [i] + place }

  /** The places of one tree, root `i`, at a path. */
  function PlacesUnder(i: nat, tree: BreakdownNode, path: seq<string>): seq<Place>
    requires path != []
    decreases |path|, 0
  {
    if tree.key != path[0] then []
    else if |path| == 1 then [[i]]
    else Map(Places(tree.children, path[1..]), Under(i))
  }

  /** All places at a path, tree by tree. */
  function Places(trees: seq<BreakdownNode>, path: seq<string>): seq<Place>
    requires path != []
    decreases |path|, |trees|
  {
    if trees == [] then []
    else Places(trees[..|trees| - 1], path) + PlacesUnder(|trees| - 1, trees[|trees| - 1], path)
  }

  function Find(forest: map<string, FunnelNode>, path: seq<string>): Option<FunnelNode>
    requires path != []
    decreases path
  {
    if path[0] !in forest then None
    else if |path| == 1 then Some(forest[path[0]])
    else Find(forest[path[0]].children, path[1..])
  }

  /** `place` is one of the places listed for the tree at index `i`. */
  ghost predicate InTree(trees: seq<BreakdownNode>, path: seq<string>, i: nat, place: Place)
    requires path != []
  {
    place != [] && place[0] == i && Reached(trees, path, place).Some?
  }

  /** The places at a path are listed once each. */
  lemma {:induction false} PlacesExactly(trees: seq<BreakdownNode>, path: seq<string>)
    requires path != []
    ensures Distinct(Places(trees, path))
    ensures forall place :: place in Places(trees, path) <==> Reached(trees, path, place).Some?
    decreases |path|, |trees|
  {
    if trees != [] {
      var n := |trees| - 1;
      var front, back := Places(trees[..n], path), PlacesUnder(n, trees[n], path);
      PlacesExactly(trees[..n], path);
      UnderExactly(trees, path, n);
      forall place
        ensures place in front <==> Reached(trees, path, place).Some? && place[0] < n
      {
        assert Reached(trees[..n], path, place).Some? <==> Reached(trees, path, place).Some? && place[0] < n;
      }
      DistinctAppend(front, back);
    }
  }

  lemma {:induction false} UnderExactly(trees: seq<BreakdownNode>, path: seq<string>, i: nat)
    requires path != [] && i < |trees|
    ensures Distinct(PlacesUnder(i, trees[i], path))
    ensures forall place :: place in PlacesUnder(i, trees[i], path) <==> InTree(trees, path, i, place)
    decreases |path|, 0
  {
    if trees[i].key == path[0] {
      if |path| == 1 {
        forall place | InTree(trees, path, i, place)
          ensures place == [i]
        {
        }
      } else {
        var below := Places(trees[i].children, path[1..]);
        PlacesExactly(trees[i].children, path[1..]);
        DistinctUnder(below, i);
        forall place
          ensures place in Map(below, Under(i)) <==> InTree(trees, path, i, place)
        {
          MemberUnder(below, i, place);
        }
      }
    }
  }

  lemma MemberUnder(places: seq<Place>, i: nat, place: Place)
    ensures place in Map(places, Under(i)) <==> place != [] && place[0] == i && place[1..] in places
  {
    if place in Map(places, Under(i)) {
      var j :| 0 <= j < |places| && Map(places, Under(i))[j] == place;
      assert place == [i] + places[j];
    }
    if place != [] && place[0] == i && place[1..] in places {
      var j :| 0 <= j < |places| && places[j] == place[1..];
      assert Map(places, Under(i))[j] == [i] + place[1..] == place;
    }
  }

  lemma DistinctUnder(places: seq<Place>, i: nat)
    requires Distinct(places)
    ensures Distinct(Map(places, Under(i)))
  {
    var all := Map(places, Under(i));
    forall j, k | 0 <= j < k < |all|
      ensures all[j] != all[k]
    {
      assert all[j][1..] == places[j] && all[k][1..] == places[k];
    }
  }

  lemma {:induction false} AtAppend(a: seq<BreakdownNode>, b: seq<BreakdownNode>, path: seq<string>)
    requires path != []
    ensures At(a + b, path) == At(a, path) + At(b, path)
    decreases path
  {
    FilterAppend(a, b, HasKey(path[0]));
    if |path| > 1 {
      FlatMapAppend(Named(a, path[0]), Named(b, path[0]), ChildrenOf);
      AtAppend(Kids(Named(a, path[0])), Kids(Named(b, path[0])), path[1..]);
    }
  }

  lemma JustOne(tree: BreakdownNode, key: string)
    ensures Kids([tree]) == tree.children
    ensures Named([tree], key) == if tree.key == key then [tree] else []
  {
    assert [tree][1..] == [];
    assert tree.children + Kids([]) == tree.children;
    assert Filter([], HasKey(key)) == [];
  }

  lemma AtOne(tree: BreakdownNode, path: seq<string>)
    requires path != []
    ensures At([tree], path) == if tree.key != path[0] then []
                                else if |path| == 1 then [tree]
                                else At(tree.children, path[1..])
  {
    JustOne(tree, path[0]);
    if |path| > 1 { AtEmpty(path[1..]); }
  }

  /** One place for each node, and the node is reached there. */
  ghost predicate Located(trees: seq<BreakdownNode>, path: seq<string>, nodes: seq<BreakdownNode>, places: seq<Place>)
    requires path != []
  {
    && |nodes| == |places|
    && forall i :: 0 <= i < |nodes| ==> Reached(trees, path, places[i]) == Some(nodes[i])
  }

  lemma LocatedJoin(trees: seq<BreakdownNode>, path: seq<string>, a: seq<BreakdownNode>, p: seq<Place>,
                    b: seq<BreakdownNode>, q: seq<Place>)
    requires path != [] && Located(trees, path, a, p) && Located(trees, path, b, q)
    ensures Located(trees, path, a + b, p + q)
  {
  }

  lemma LocatedBefore(trees: seq<BreakdownNode>, path: seq<string>, n: nat, nodes: seq<BreakdownNode>,
                      places: seq<Place>)
    requires path != [] && n <= |trees| && Located(trees[..n], path, nodes, places)
    ensures Located(trees, path, nodes, places)
  {
    forall i | 0 <= i < |nodes|
      ensures Reached(trees, path, places[i]) == Some(nodes[i])
    {
      ReachedBefore(trees, path, n, places[i]);
    }
  }

  /** The nodes gathered at a path are the nodes at its places, one for one and in order. */
  lemma {:induction false} AtPlaces(trees: seq<BreakdownNode>, path: seq<string>)
    requires path != []
    ensures Located(trees, path, At(trees, path), Places(trees, path))
    decreases |path|, |trees|
  {
    if trees == [] {
      AtEmpty(path);
    } else {
      var n := |trees| - 1;
      AtPlaces(trees[..n], path);
      LocatedBefore(trees, path, n, At(trees[..n], path), Places(trees[..n], path));
      AtUnder(trees, path, n);
      AtSplit(trees, path, n);
      LocatedJoin(trees, path, At(trees[..n], path), Places(trees[..n], path),
                  At([trees[n]], path), PlacesUnder(n, trees[n], path));
    }
  }

  lemma AtSplit(trees: seq<BreakdownNode>, path: seq<string>, n: nat)
    requires path != [] && |trees| == n + 1
    ensures At(trees, path) == At(trees[..n], path) + At([trees[n]], path)
  {
    AtAppend(trees[..n], [trees[n]], path);
    assert trees == trees[..n] + [trees[n]];
  }

  lemma ReachedBefore(trees: seq<BreakdownNode>, path: seq<string>, n: nat, place: Place)
    requires path != [] && n <= |trees| && Reached(trees[..n], path, place).Some?
    ensures Reached(trees, path, place) == Reached(trees[..n], path, place)
  {
  }

  lemma {:induction false} AtUnder(trees: seq<BreakdownNode>, path: seq<string>, i: nat)
    requires path != [] && i < |trees|
    ensures Located(trees, path, At([trees[i]], path), PlacesUnder(i, trees[i], path))
    decreases |path|, 0
  {
    AtOne(trees[i], path);
    if trees[i].key == path[0] && |path| > 1 {
      var below := Places(trees[i].children, path[1..]);
      AtPlaces(trees[i].children, path[1..]);
      forall j | 0 <= j < |below|
        ensures Reached(trees, path, Under(i)(below[j])) == Reached(trees[i].children, path[1..], below[j])
      {
        ReachedUnder(trees, path, i, below[j]);
      }
    }
  }

  lemma ReachedUnder(trees: seq<BreakdownNode>, path: seq<string>, i: nat, place: Place)
    requires |path| > 1 && i < |trees| && trees[i].key == path[0]
    ensures Reached(trees, path, Under(i)(place)) == Reached(trees[i].children, path[1..], place)
  {
    assert ([i] + place)[1..] == place;
  }

  lemma {:induction false} RollupFind(nodes: seq<BreakdownNode>, path: seq<string>)
    requires path != []
    ensures Find(Rollup(nodes), path).Some? <==> At(nodes, path) != []
    ensures Find(Rollup(nodes), path).Some? ==>
              Find(Rollup(nodes), path).value.(children := map[]) == Stats(path[|path| - 1], At(nodes, path))
    decreases path
  {
    NamedHeight(nodes, path[0]);
    if |path| > 1 {
      RollupFind(Kids(Named(nodes, path[0])), path[1..]);
      AtEmpty(path[1..]);
    }
  }

  /**
   For every path of keys: the funnel has a node there exactly when some breakdown node lies
   there; it counts the places, and its figures are exact sums over the nodes at those places.
   */
  lemma RollupAtPath(nodes: seq<BreakdownNode>, path: seq<string>)
    requires path != []
    ensures Find(Rollup(nodes), path).Some? <==> exists place :: Reached(nodes, path, place).Some?
    ensures Find(Rollup(nodes), path).Some? ==>
              && Find(Rollup(nodes), path).value.(children := map[]) == Stats(path[|path| - 1], At(nodes, path))
              && Find(Rollup(nodes), path).value.count == |Places(nodes, path)|
  {
    RollupFind(nodes, path);
    AtSomePlace(nodes, path);
  }

  // ---- The figures of a node ----

  ghost function NodeWeight(nodes: seq<BreakdownNode>): real {
    if nodes == [] then 0.0 else nodes[0].weight + NodeWeight(nodes[1..])
  }

  /** The weight of the nodes that have a score. */
  ghost function WeightScored(nodes: seq<BreakdownNode>): real {
    if nodes == [] then 0.0
    else (if nodes[0].score.Some? then nodes[0].weight else 0.0) + WeightScored(nodes[1..])
  }

  /** Their scores, each as often as its weight says. */
  ghost function ScoreWeighed(nodes: seq<BreakdownNode>): real {
    if nodes == [] then 0.0
    else (if nodes[0].score.Some? then nodes[0].score.value * nodes[0].weight else 0.0) + ScoreWeighed(nodes[1..])
  }

  ghost function Labelled(grade: GradeLabel): BreakdownNode -> bool {
    (n: BreakdownNode) => n.grade == Some(grade)
  }

  ghost function IsMode(mode: string): string -> bool { (m: string) => m == mode }

  ghost function Occurrences(nodes: seq<BreakdownNode>, mode: string): int {
    if nodes == [] then 0 else |Indices(nodes[0].failureModes, IsMode(mode))| + Occurrences(nodes[1..], mode)
  }

  ghost predicate CountsLabels(counts: map<GradeLabel, int>, nodes: seq<BreakdownNode>) {
    forall grade ::
      && (grade in counts <==> Indices(nodes, Labelled(grade)) != {})
      && (grade in counts ==> counts[grade] == |Indices(nodes, Labelled(grade))|)
  }

  ghost predicate CountsModes(counts: map<string, int>, nodes: seq<BreakdownNode>) {
    forall mode ::
      && (mode in counts <==> Occurrences(nodes, mode) > 0)
      && (mode in counts ==> counts[mode] == Occurrences(nodes, mode))
  }

  ghost predicate IsWeightedMean(mean: Option<real>, total: real, weight: real) {
    mean == if weight == 0.0 then None else Some(total / weight)
  }

  /** A rolled-up node over some nodes: how many, their weight, their mean score, their labels and failure modes. */
  ghost predicate FiguresOf(f: FunnelNode, nodes: seq<BreakdownNode>) {
    && f.count == |nodes| && f.totalWeight == NodeWeight(nodes)
    && IsWeightedMean(f.meanScore, ScoreWeighed(nodes), WeightScored(nodes))
    && CountsLabels(f.labelCounts, nodes) && CountsModes(f.failureModeCounts, nodes)
  }

  lemma {:induction false} WeightsAre(nodes: seq<BreakdownNode>)
    ensures Sum(nodes, Weight) == NodeWeight(nodes) && Sum(nodes, ScoredWeight) == WeightScored(nodes)
    ensures Sum(nodes, WeightedScore) == ScoreWeighed(nodes)
  {
    if nodes != [] { WeightsAre(nodes[1..]); }
  }

  lemma {:induction false} LabelsAre(nodes: seq<BreakdownNode>, grade: GradeLabel)
    ensures multiset(FlatMap(nodes, LabelOf))[grade] == Count(nodes, Labelled(grade))
  {
    if nodes != [] { LabelsAre(nodes[1..], grade); }
  }

  lemma {:induction false} ModesAre(nodes: seq<BreakdownNode>, mode: string)
    ensures multiset(FlatMap(nodes, ModesOf))[mode] == Occurrences(nodes, mode)
  {
    if nodes != [] {
      ModesAre(nodes[1..], mode);
      var own := nodes[0].failureModes;
      CountIs(own, mode);
      FilterExtensional(own, Is(mode), IsMode(mode));
      CountIsIndices(own, IsMode(mode));
    }
  }

  lemma StatsLabels(nodes: seq<BreakdownNode>)
    ensures CountsLabels(Tally(FlatMap(nodes, LabelOf)), nodes)
  {
    forall grade: GradeLabel
      ensures multiset(FlatMap(nodes, LabelOf))[grade] == |Indices(nodes, Labelled(grade))|
    {
      LabelsAre(nodes, grade);
      CountIsIndices(nodes, Labelled(grade));
    }
  }

  lemma StatsModes(nodes: seq<BreakdownNode>)
    ensures CountsModes(Tally(FlatMap(nodes, ModesOf)), nodes)
  {
    forall mode: string { ModesAre(nodes, mode); }
  }

  lemma StatsExactly(key: string, nodes: seq<BreakdownNode>)
    ensures FiguresOf(Stats(key, nodes), nodes)
  {
    WeightsAre(nodes);
    StatsLabels(nodes);
    StatsModes(nodes);
  }

  /** The node at a path: its key, and the figures of the nodes at its places. */
  lemma FiguresAtPath(nodes: seq<BreakdownNode>, path: seq<string>)
    requires path != [] && Find(Rollup(nodes), path).Some?
    ensures var f := Find(Rollup(nodes), path).value;
            f.key == path[|path| - 1] && FiguresOf(f, At(nodes, path))
  {
    RollupAtPath(nodes, path);
    StatsExactly(path[|path| - 1], At(nodes, path));
  }

  lemma PlaceListed(trees: seq<BreakdownNode>, path: seq<string>, place: Place)
    requires path != [] && Reached(trees, path, place).Some?
    ensures Places(trees, path) != []
  {
    PlacesExactly(trees, path);
    assert place in Places(trees, path);
  }

  lemma AtSomePlace(nodes: seq<BreakdownNode>, path: seq<string>)
    requires path != []
    ensures |At(nodes, path)| == |Places(nodes, path)|
    ensures At(nodes, path) != [] <==> exists place :: Reached(nodes, path, place).Some?
  {
    AtPlaces(nodes, path);
    if At(nodes, path) != [] {
      assert Reached(nodes, path, Places(nodes, path)[0]).Some?;
    }
    if place :| Reached(nodes, path, place).Some? {
      PlaceListed(nodes, path, place);
    }
  }

  lemma {:induction false} AtEmpty(path: seq<string>)
    requires path != []
    ensures At([], path) == []
    decreases path
  {
    if |path| > 1 { AtEmpty(path[1..]); }
  }

  lemma StatsOrderFree(key: string, a: seq<BreakdownNode>, b: seq<BreakdownNode>)
    requires Permutes(a, b)
    ensures Stats(key, a) == Stats(key, b)
  {
    PermutesLength(a, b);
    SumPermutes(a, b, WeightedScore);
    SumPermutes(a, b, ScoredWeight);
    SumPermutes(a, b, Weight);
    FlatMapPermutes(a, b, LabelOf);
    FlatMapPermutes(a, b, ModesOf);
    TallyOrderFree(FlatMap(a, LabelOf), FlatMap(b, LabelOf));
    TallyOrderFree(FlatMap(a, ModesOf), FlatMap(b, ModesOf));
  }

  /** The funnel does not depend on the order of the cases, repetitions or siblings. */
  lemma {:induction false} RollupOrderFree(a: seq<BreakdownNode>, b: seq<BreakdownNode>)
    requires Permutes(a, b)
    ensures Rollup(a) == Rollup(b)
    decreases Height(a)
  {
    SameMembers(a, b);
    forall key | key in Keys(a)
      ensures Rollup(a)[key] == Rollup(b)[key]
    {
      NamedHeight(a, key);
      KidsHeight(Named(a, key));
      FilterPermutes(a, b, HasKey(key));
      StatsOrderFree(key, Named(a, key), Named(b, key));
      FlatMapPermutes(Named(a, key), Named(b, key), ChildrenOf);
      RollupOrderFree(Kids(Named(a, key)), Kids(Named(b, key)));
    }
  }

  /** Advisory (weight 0) and unscored nodes never move the mean score. */
  lemma AdvisoryKeepsMean(nodes: seq<BreakdownNode>, n: BreakdownNode)
    requires n.weight == 0.0 || n.score.None?
    ensures MeanScore(nodes + [n]) == MeanScore(nodes)
  {
    SumLast(nodes, n, WeightedScore);
    SumLast(nodes, n, ScoredWeight);
  }

  /** Non-negative weights, and scores between 0 and 1. */
  ghost predicate Graded(nodes: seq<BreakdownNode>) {
    forall n :: n in nodes ==> n.weight >= 0.0 && (n.score.Some? ==> 0.0 <= n.score.value <= 1.0)
  }

  lemma {:induction false} WeightedBounds(nodes: seq<BreakdownNode>)
    requires Graded(nodes)
    ensures 0.0 <= Sum(nodes, WeightedScore) <= Sum(nodes, ScoredWeight)
  {
    if nodes != [] {
      WeightedBounds(nodes[1..]);
      assert nodes[0] in nodes;
      NodeBounds(nodes[0]);
    }
  }

  lemma NodeBounds(n: BreakdownNode)
    requires n.weight >= 0.0 && (n.score.Some? ==> 0.0 <= n.score.value <= 1.0)
    ensures 0.0 <= WeightedScore(n) <= ScoredWeight(n)
  {
    if n.score.Some? {
      ProductInUnit(n.score.value, n.weight);
    }
  }

  lemma ProductInUnit(x: real, w: real)
    requires 0.0 <= x <= 1.0 && 0.0 <= w
    ensures 0.0 <= x * w <= w
  {
    assert (1.0 - x) * w >= 0.0;
  }

  lemma QuotientInUnit(s: real, w: real)
    requires 0.0 <= s <= w && w != 0.0
    ensures 0.0 <= s / w <= 1.0
  {
  }

  /** Then a funnel mean is between 0 and 1 too. */
  lemma MeanInUnit(nodes: seq<BreakdownNode>)
    requires Graded(nodes)
    ensures MeanScore(nodes).Some? ==> 0.0 <= MeanScore(nodes).value <= 1.0
  {
    WeightedBounds(nodes);
    if Sum(nodes, ScoredWeight) != 0.0 {
      QuotientInUnit(Sum(nodes, WeightedScore), Sum(nodes, ScoredWeight));
    }
  }
}
