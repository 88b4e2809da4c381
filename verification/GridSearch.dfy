/**
 The grid proposer (optimization/proposers.py): the cartesian product of the list-valued
 entries of a search space, times the agents, offered one combination per iteration.
 */
module GridSearch {
  import opened Wrappers
  import opened Sums
  import opened OutcomeCodec
  import opened Decision
  import opened OptimizationLoop

  type Params = Sharding.Params
  type Entry = (string, Json)

  /** A Python dict: entries in insertion order, one per key. */
  type Space = s: seq<Entry> | UniqueKeys(s)

  ghost predicate UniqueKeys(s: seq<Entry>) { forall i, j :: 0 <= i < j < |s| ==> s[i].0 != s[j].0 }

  datatype SearchSpace = SearchSpace(modelParams: Space, agents: seq<Json>)

  // ---- The product of the listed values ----

  function Extend(pool: seq<Json>): seq<Json> -> seq<seq<Json>> {
    (p: seq<Json>) => Each(p, pool)
  }

  function Each(p: seq<Json>, pool: seq<Json>): seq<seq<Json>> {
    seq(|pool|, i requires 0 <= i < |pool| => p + [pool[i]])
  }

  /** `itertools.product`: the last pool varies fastest. */
  function Product(pools: seq<seq<Json>>): seq<seq<Json>> {
    if pools == [] then [[]] else FlatMap(Product(pools[..|pools| - 1]), Extend(pools[|pools| - 1]))
  }

  lemma {:induction false} ProductWidth(pools: seq<seq<Json>>, p: seq<Json>)
    requires p in Product(pools)
    ensures |p| == |pools|
  {
    if pools != [] {
      var front := pools[..|pools| - 1];
      FlatMapMember(Product(front), Extend(pools[|pools| - 1]), p);
      var i :| 0 <= i < |Product(front)| && p in Extend(pools[|pools| - 1])(Product(front)[i]);
      ProductWidth(front, Product(front)[i]);
    }
  }

  /** `d[k] = val` for each key and value. */
  function Assign(base: Params, keys: seq<string>, values: seq<Json>): Params {
    if keys == [] || values == [] then base
    else Assign(base, keys[..|keys| - 1], values[..|values| - 1])[keys[|keys| - 1] := values[|values| - 1]]
  }

  function Assigned(base: Params, keys: seq<string>): seq<Json> -> Params {
    (values: seq<Json>) => Assign(base, keys, values)
  }

  method AssignAll(base: Params, keys: seq<string>, values: seq<Json>) returns (d: Params)
    requires |keys| == |values|
    ensures d == Assign(base, keys, values)
  {
    d := base;
    for i := 0 to |keys|
      invariant d == Assign(base, keys[..i], values[..i])
    {
      assert keys[..i + 1][..i] == keys[..i] && values[..i + 1][..i] == values[..i];
      d := d[keys[i] := values[i]];
    }
    assert keys[..|keys|] == keys && values[..|values|] == values;
  }

  function ListKeys(s: seq<Entry>): seq<string> {
    if s == [] then [] else
      var e := s[|s| - 1];
      ListKeys(s[..|s| - 1]) + if e.1.JList? then [e.0] else []
  }

  function ListValues(s: seq<Entry>): (r: seq<seq<Json>>)
    ensures |r| == |ListKeys(s)|
  {
    if s == [] then [] else
      var e := s[|s| - 1];
      ListValues(s[..|s| - 1]) + if e.1.JList? then [e.1.items] else []
  }

  function Constants(s: seq<Entry>): Params {
    if s == [] then map[] else
      var e := s[|s| - 1];
      if e.1.JList? then Constants(s[..|s| - 1]) else Constants(s[..|s| - 1])[e.0 := e.1]
  }

  method Split(s: seq<Entry>) returns (keys: seq<string>, values: seq<seq<Json>>, constants: Params)
    ensures keys == ListKeys(s) && values == ListValues(s) && constants == Constants(s)
  {
    keys, values, constants := [], [], map[];
    for i := 0 to |s|
      invariant keys == ListKeys(s[..i]) && values == ListValues(s[..i]) && constants == Constants(s[..i])
    {
      assert s[..i + 1][..i] == s[..i];
      if s[i].1.JList? {
        keys, values := keys + [s[i].0], values + [s[i].1.items];
      } else {
        constants := constants[s[i].0 := s[i].1];
      }
    }
    assert s[..|s|] == s;
  }

  /** One dict per tuple of listed values. */
  method AssignEach(base: Params, keys: seq<string>, tuples: seq<seq<Json>>) returns (combos: seq<Params>)
    requires forall p :: p in tuples ==> |p| == |keys|
    ensures combos == Map(tuples, Assigned(base, keys))
  {
    combos := [];
    for i := 0 to |tuples|
      invariant combos == Map(tuples[..i], Assigned(base, keys))
    {
      var d := AssignAll(base, keys, tuples[i]);
      MapNext(tuples, i, Assigned(base, keys));
      combos := combos + [d];
    }
    assert tuples[..|tuples|] == tuples;
  }

  /** `_grid_combinations`. */
  method GridCombinations(s: Space) returns (combos: seq<Params>)
    ensures combos == Combinations(s)
  {
    var keys, values, constants := Split(s);
    ListsAndConstants(s);
    if values == [] {
      return if constants != map[] then [constants] else [];
    }
    forall p | p in Product(values) { ProductWidth(values, p); }
    combos := AssignEach(constants, keys, Product(values));
    ProductExpands(s);
  }

  // ---- The grid, one entry at a time ----

  function Vary(key: string, pool: seq<Json>): Params -> seq<Params> {
    (c: Params) => VaryOne(c, key, pool)
  }

  function VaryOne(c: Params, key: string, pool: seq<Json>): (r: seq<Params>)
    ensures |r| == |pool| && forall i :: 0 <= i < |r| ==> r[i] == c[key := pool[i]]
  {
    seq(|pool|, i requires 0 <= i < |pool| => c[key := pool[i]])
  }

  function Pool(e: Entry): seq<Json> { if e.1.JList? then e.1.items else [e.1] }

  /** Every entry in turn multiplies the combinations so far; a constant is a pool of one. */
  function Expand(s: seq<Entry>): seq<Params> {
    if s == [] then [map[]]
    else FlatMap(Expand(s[..|s| - 1]), Vary(s[|s| - 1].0, Pool(s[|s| - 1])))
  }

  /** No entries at all mean no combination; otherwise one per way of choosing. */
  function Combinations(s: seq<Entry>): seq<Params> { if s == [] then [] else Expand(s) }

  lemma {:induction false} MapFlatMap<A, B, C, D>(s: seq<A>, f: A -> seq<B>, g: B -> C, a: A -> D, h: D -> seq<C>)
    requires forall x :: x in s ==> Map(f(x), g) == h(a(x))
    ensures Map(FlatMap(s, f), g) == FlatMap(Map(s, a), h)
  {
    if s != [] {
      MapFlatMap(s[1..], f, g, a, h);
      assert Map(f(s[0]) + FlatMap(s[1..], f), g) == Map(f(s[0]), g) + Map(FlatMap(s[1..], f), g);
      assert Map(s, a)[1..] == Map(s[1..], a);
    }
  }

  lemma {:induction false} AssignConstant(base: Params, keys: seq<string>, values: seq<Json>, key: string, v: Json)
    requires key !in keys
    ensures Assign(base[key := v], keys, values) == Assign(base, keys, values)[key := v]
  {
    if keys != [] && values != [] {
      AssignConstant(base, keys[..|keys| - 1], values[..|values| - 1], key, v);
      assert keys[|keys| - 1] in keys;
    }
  }

  lemma {:induction false} ListKeysAreKeys(s: seq<Entry>, key: string)
    requires forall i :: 0 <= i < |s| ==> s[i].0 != key
    ensures key !in ListKeys(s) && key !in Constants(s)
  {
    if s != [] { ListKeysAreKeys(s[..|s| - 1], key); }
  }

  /** With no list-valued entry the constants are the one combination. */
  lemma {:induction false} ListsAndConstants(s: seq<Entry>)
    ensures ListKeys(s) == [] ==> Expand(s) == [Constants(s)] && (s == [] <==> Constants(s) == map[])
  {
    if s != [] {
      var front, e := s[..|s| - 1], s[|s| - 1];
      ListsAndConstants(front);
      if ListKeys(s) == [] {
        assert ListKeys(front) == [] && !e.1.JList?;
        assert FlatMap([Constants(front)], Vary(e.0, [e.1])) == [Constants(front)[e.0 := e.1]] + [];
        assert e.0 in Constants(s);
      }
    }
  }

  /** What `_grid_combinations` builds from the listed values and the constants. */
  function Grown(s: seq<Entry>): seq<Params> {
    Map(Product(ListValues(s)), Assigned(Constants(s), ListKeys(s)))
  }

  lemma GrownByOne(s: seq<Entry>, front: seq<Entry>, e: Entry)
    requires s == front + [e] && e.0 !in ListKeys(front)
    ensures Grown(s) == FlatMap(Grown(front), Vary(e.0, Pool(e)))
  {
    assert s[..|s| - 1] == front;
    if e.1.JList? { ProductVaries(front, e.0, e.1.items); }
    else {
      ProductFixes(front, e.0, e.1);
      assert ListValues(s) == ListValues(front) && ListKeys(s) == ListKeys(front);
    }
  }

  lemma GrownFromNothing()
    ensures Grown([]) == [map[]]
  {
    assert Map([[]], Assigned(map[], [])) == [map[]];
  }

  lemma ExpandLast(front: seq<Entry>, e: Entry)
    ensures Expand(front + [e]) == FlatMap(Expand(front), Vary(e.0, Pool(e)))
  {
    assert (front + [e])[..|front|] == front;
  }

  lemma ProductStep(s: Space, front: Space, e: Entry)
    requires s == front + [e] && Grown(front) == Expand(front)
    ensures Grown(s) == Expand(s)
  {
    assert s[..|front|] == front && s[|front|] == e;
    ListKeysAreKeys(front, e.0);
    GrownByOne(s, front, e);
    ExpandLast(front, e);
  }

  /** The product of the listed values over the constants is the expansion of the entries. */
  lemma {:induction false} ProductExpands(s: Space)
    ensures Grown(s) == Expand(s)
  {
    if s == [] {
      GrownFromNothing();
    } else {
      var front: Space, e := s[..|s| - 1], s[|s| - 1];
      ProductExpands(front);
      ProductStep(s, front, e);
    }
  }

  lemma ProductVaries(front: seq<Entry>, key: string, pool: seq<Json>)
    requires key !in ListKeys(front)
    ensures Map(Product(ListValues(front) + [pool]), Assigned(Constants(front), ListKeys(front) + [key]))
            == FlatMap(Map(Product(ListValues(front)), Assigned(Constants(front), ListKeys(front))), Vary(key, pool))
  {
    var tuples, keys, base := Product(ListValues(front)), ListKeys(front), Constants(front);
    assert (ListValues(front) + [pool])[..|ListValues(front)|] == ListValues(front);
    forall p | p in tuples
      ensures Map(Extend(pool)(p), Assigned(base, keys + [key])) == Vary(key, pool)(Assigned(base, keys)(p))
    {
      assert (keys + [key])[..|keys|] == keys;
      forall i | 0 <= i < |pool|
        ensures Assign(base, keys + [key], p + [pool[i]]) == Assign(base, keys, p)[key := pool[i]]
      {
        assert (p + [pool[i]])[..|p|] == p;
      }
    }
    MapFlatMap(tuples, Extend(pool), Assigned(base, keys + [key]), Assigned(base, keys), Vary(key, pool));
  }

  lemma ProductFixes(front: seq<Entry>, key: string, v: Json)
    requires key !in ListKeys(front)
    ensures Map(Product(ListValues(front)), Assigned(Constants(front)[key := v], ListKeys(front)))
            == FlatMap(Map(Product(ListValues(front)), Assigned(Constants(front), ListKeys(front))), Vary(key, [v]))
  {
    var tuples, keys, base := Product(ListValues(front)), ListKeys(front), Constants(front);
    forall p | p in tuples
      ensures Map(Only(p), Assigned(base[key := v], keys)) == Vary(key, [v])(Assigned(base, keys)(p))
    {
      AssignConstant(base, keys, p, key, v);
    }
    FlatMapOnly(tuples);
    MapFlatMap(tuples, Only, Assigned(base[key := v], keys), Assigned(base, keys), Vary(key, [v]));
  }

  function Only(p: seq<Json>): seq<seq<Json>> { [p] }

  lemma {:induction false} FlatMapOnly(s: seq<seq<Json>>)
    ensures FlatMap(s, Only) == s
  {
    if s != [] { FlatMapOnly(s[1..]); }
  }

  // ---- What the grid contains ----

  ghost predicate HasKey(s: seq<Entry>, key: string) { exists i :: 0 <= i < |s| && s[i].0 == key }

  /** A value an entry may take: one from its list, or the constant it is. */
  ghost predicate Offers(e: Entry, v: Json) { if e.1.JList? then v in e.1.items else v == e.1 }

  /** One way of choosing: the keys of the space, each with a listed value or its constant. */
  ghost predicate IsChoice(s: seq<Entry>, c: Params) {
    && (forall k :: k in c <==> HasKey(s, k))
    && (forall i :: 0 <= i < |s| ==> s[i].0 in c && Offers(s[i], c[s[i].0]))
  }

  lemma PoolOffers(e: Entry, v: Json)
    ensures v in Pool(e) <==> Offers(e, v)
  {
  }

  lemma KeysOfFront(s: Space, k: string)
    requires s != []
    ensures HasKey(s, k) <==> HasKey(s[..|s| - 1], k) || k == s[|s| - 1].0
    ensures HasKey(s[..|s| - 1], k) ==> k != s[|s| - 1].0
  {
    var front := s[..|s| - 1];
    if HasKey(front, k) {
      var i :| 0 <= i < |front| && front[i].0 == k;
      assert s[i].0 == k;
    }
    if HasKey(s, k) {
      var i :| 0 <= i < |s| && s[i].0 == k;
      assert i < |front| ==> front[i].0 == k;
    }
  }

  lemma ChoiceGrows(s: Space, c: Params, v: Json)
    requires s != [] && IsChoice(s[..|s| - 1], c) && Offers(s[|s| - 1], v)
    ensures IsChoice(s, c[s[|s| - 1].0 := v])
  {
    var front, e := s[..|s| - 1], s[|s| - 1];
    forall k
      ensures HasKey(s, k) <==> k in c[e.0 := v]
    {
      KeysOfFront(s, k);
    }
    forall i | 0 <= i < |s|
      ensures s[i].0 in c[e.0 := v] && Offers(s[i], c[e.0 := v][s[i].0])
    {
      if i < |front| { assert front[i] == s[i]; }
    }
  }

  lemma ChoiceShrinks(s: Space, c: Params)
    requires s != [] && IsChoice(s, c)
    ensures var e := s[|s| - 1]; e.0 in c && Offers(e, c[e.0]) && IsChoice(s[..|s| - 1], c - {e.0})
    ensures var e := s[|s| - 1]; (c - {e.0})[e.0 := c[e.0]] == c
  {
    var front, e := s[..|s| - 1], s[|s| - 1];
    var d := c - {e.0};
    forall k
      ensures k in d <==> HasKey(front, k)
    {
      KeysOfFront(s, k);
    }
    forall i | 0 <= i < |front|
      ensures front[i].0 in d && Offers(front[i], d[front[i].0])
    {
      assert front[i] == s[i];
    }
  }

  /** The expansion lists exactly the choices. */
  lemma {:induction false} ExpandMember(s: Space, c: Params)
    ensures c in Expand(s) <==> IsChoice(s, c)
  {
    if s == [] {
      assert (forall k :: k !in c) ==> c == map[];
      assert forall k :: !HasKey(s, k);
    } else {
      var front: Space, e := s[..|s| - 1], s[|s| - 1];
      FlatMapMember(Expand(front), Vary(e.0, Pool(e)), c);
      if i :| 0 <= i < |Expand(front)| && c in Vary(e.0, Pool(e))(Expand(front)[i]) {
        ExpandMember(front, Expand(front)[i]);
        var j :| 0 <= j < |Pool(e)| && c == Expand(front)[i][e.0 := Pool(e)[j]];
        PoolOffers(e, Pool(e)[j]);
        ChoiceGrows(s, Expand(front)[i], Pool(e)[j]);
      }
      if IsChoice(s, c) {
        ChoiceShrinks(s, c);
        PoolOffers(e, c[e.0]);
        var d := c - {e.0};
        ExpandMember(front, d);
        var i :| 0 <= i < |Expand(front)| && Expand(front)[i] == d;
        var j :| 0 <= j < |Pool(e)| && Pool(e)[j] == c[e.0];
        assert VaryOne(d, e.0, Pool(e))[j] == c;
        assert c in Vary(e.0, Pool(e))(Expand(front)[i]);
      }
    }
  }

  ghost predicate DistinctLists(s: seq<Entry>) {
    forall i :: 0 <= i < |s| && s[i].1.JList? ==> Distinct(s[i].1.items)
  }

  /** Blocks without repeats that share nothing do not repeat when put in a row. */
  lemma {:induction false} FlatMapDistinct<T, U>(s: seq<T>, f: T -> seq<U>)
    requires Distinct(s) && forall x :: x in s ==> Distinct(f(x))
    requires forall x, y, u :: x in s && y in s && u in f(x) && u in f(y) ==> x == y
    ensures Distinct(FlatMap(s, f))
  {
    if s != [] {
      assert forall x :: x in s[1..] ==> x in s;
      FlatMapDistinct(s[1..], f);
      forall u | u in FlatMap(s[1..], f)
        ensures u !in f(s[0])
      {
        FlatMapMember(s[1..], f, u);
        var i :| 0 <= i < |s[1..]| && u in f(s[1..][i]);
        assert s[1..][i] == s[i + 1];
      }
      DistinctAppend(f(s[0]), FlatMap(s[1..], f));
    }
  }

  lemma VariantsDiffer(c: Params, d: Params, key: string, pool: seq<Json>, x: Params)
    requires key !in c && key !in d && x in VaryOne(c, key, pool) && x in VaryOne(d, key, pool)
    ensures c == d
  {
    assert x - {key} == c && x - {key} == d;
  }

  lemma VaryDistinct(c: Params, key: string, pool: seq<Json>)
    requires Distinct(pool)
    ensures Distinct(VaryOne(c, key, pool))
  {
    forall i, j | 0 <= i < j < |pool|
      ensures c[key := pool[i]] != c[key := pool[j]]
    {
      assert c[key := pool[i]][key] == pool[i];
    }
  }

  /** Lists without repeats give combinations without repeats. */
  lemma {:induction false} ExpandDistinct(s: Space)
    requires DistinctLists(s)
    ensures Distinct(Expand(s))
  {
    if s != [] {
      var front: Space, e := s[..|s| - 1], s[|s| - 1];
      assert forall i :: 0 <= i < |front| ==> front[i] == s[i];
      ExpandDistinct(front);
      forall c | c in Expand(front)
        ensures e.0 !in c
        ensures Distinct(Vary(e.0, Pool(e))(c))
      {
        ExpandMember(front, c);
        VaryDistinct(c, e.0, Pool(e));
      }
      forall c, d, x | c in Expand(front) && d in Expand(front)
                         && x in Vary(e.0, Pool(e))(c) && x in Vary(e.0, Pool(e))(d)
        ensures c == d
      {
        VariantsDiffer(c, d, e.0, Pool(e), x);
      }
      FlatMapDistinct(Expand(front), Vary(e.0, Pool(e)));
    }
  }

  // ---- Without any choice ----

  /** There are no parameters to choose: none in the space, or one that lists nothing. */
  ghost predicate NoParameters(s: seq<Entry>) { s == [] || exists i :: 0 <= i < |s| && s[i].1 == JList([]) }

  lemma {:induction false} VaryEmpty(combos: seq<Params>, key: string, pool: seq<Json>)
    ensures FlatMap(combos, Vary(key, pool)) == [] <==> combos == [] || pool == []
  {
    if combos != [] { VaryEmpty(combos[1..], key, pool); }
  }

  /** There is no way of choosing exactly when some entry lists nothing. */
  lemma {:induction false} NoChoiceExactly(s: seq<Entry>)
    ensures Expand(s) == [] <==> exists i :: 0 <= i < |s| && s[i].1 == JList([])
  {
    if s != [] {
      var front, e := s[..|s| - 1], s[|s| - 1];
      NoChoiceExactly(front);
      VaryEmpty(Expand(front), e.0, Pool(e));
      assert forall i :: 0 <= i < |front| ==> front[i] == s[i];
      assert s[|front|] == e;
    }
  }

  lemma NoParametersExactly(s: seq<Entry>)
    ensures Combinations(s) == [] <==> NoParameters(s)
  {
    NoChoiceExactly(s);
  }

  // ---- Agents times parameters ----

  function ForModel(p: Params): Params { map["model_params" := JObj(p)] }

  function ForAgent(a: Json): Params { map["agent" := a] }

  function ForBoth(a: Json): Params -> Params { (p: Params) => map["agent" := a, "model_params" := JObj(p)] }

  function PerAgent(params: seq<Params>): Json -> seq<Params> { (a: Json) => Map(params, ForBoth(a)) }

  /** `_ensure_combos`: the agent varies slowest. */
  function Combos(space: SearchSpace): Result<seq<Params>> {
    var params := Combinations(space.modelParams);
    if params == [] && space.agents == [] then Err(ValueError)
    else if space.agents == [] then Ok(Map(params, ForModel))
    else if params == [] then Ok(Map(space.agents, ForAgent))
    else Ok(FlatMap(space.agents, PerAgent(params)))
  }

  /** What one grid iteration may be given. */
  ghost predicate IsProposal(space: SearchSpace, c: Params) {
    var none := NoParameters(space.modelParams);
    && c.Keys == (if space.agents == [] then {} else {"agent"}) + (if none then {} else {"model_params"})
    && (space.agents != [] ==> c["agent"] in space.agents)
    && (!none ==> ChoosesModel(space.modelParams, c["model_params"]))
  }

  ghost predicate ChoosesModel(s: Space, v: Json) { v.JObj? && IsChoice(s, v.fields) }

  lemma ChosenModel(s: Space, v: Json)
    requires Combinations(s) != []
    ensures ChoosesModel(s, v) <==> v.JObj? && v.fields in Combinations(s)
  {
    if v.JObj? { ExpandMember(s, v.fields); }
  }

  lemma MapMember<T, U>(s: seq<T>, f: T -> U, y: U)
    ensures y in Map(s, f) <==> exists i :: 0 <= i < |s| && y == f(s[i])
  {
    if y in Map(s, f) {
      var i :| 0 <= i < |Map(s, f)| && Map(s, f)[i] == y;
      assert y == f(s[i]);
    }
    if i :| 0 <= i < |s| && y == f(s[i]) { assert Map(s, f)[i] == y; }
  }

  lemma ForModelMember(params: seq<Params>, c: Params)
    ensures c in Map(params, ForModel)
            <==> c.Keys == {"model_params"} && c["model_params"].JObj? && c["model_params"].fields in params
  {
    MapMember(params, ForModel, c);
    if c.Keys == {"model_params"} && c["model_params"].JObj? && c["model_params"].fields in params {
      var i :| 0 <= i < |params| && params[i] == c["model_params"].fields;
      SingleKey(c, "model_params", JObj(params[i]));
    }
  }

  lemma ModelOnly(space: SearchSpace, c: Params)
    requires space.agents == [] && Combinations(space.modelParams) != []
    ensures c in Map(Combinations(space.modelParams), ForModel) <==> IsProposal(space, c)
  {
    NoParametersExactly(space.modelParams);
    ForModelMember(Combinations(space.modelParams), c);
    if c.Keys == {"model_params"} { ChosenModel(space.modelParams, c["model_params"]); }
  }

  lemma SingleKey(c: Params, key: string, v: Json)
    requires c.Keys == {key} && c[key] == v
    ensures c == map[key := v]
  {
  }

  lemma ForAgentMember(agents: seq<Json>, c: Params)
    ensures c in Map(agents, ForAgent) <==> c.Keys == {"agent"} && c["agent"] in agents
  {
    MapMember(agents, ForAgent, c);
    if c.Keys == {"agent"} && c["agent"] in agents {
      var i :| 0 <= i < |agents| && agents[i] == c["agent"];
      SingleKey(c, "agent", agents[i]);
    }
  }

  lemma AgentOnly(space: SearchSpace, c: Params)
    requires space.agents != [] && Combinations(space.modelParams) == []
    ensures c in Map(space.agents, ForAgent) <==> IsProposal(space, c)
  {
    NoParametersExactly(space.modelParams);
    ForAgentMember(space.agents, c);
    assert {"agent"} + {} == {"agent"};
  }

  lemma PerAgentMember(params: seq<Params>, a: Json, c: Params)
    ensures c in PerAgent(params)(a)
            <==> && c.Keys == {"agent", "model_params"} && c["agent"] == a
                 && c["model_params"].JObj? && c["model_params"].fields in params
  {
    MapMember(params, ForBoth(a), c);
    if c.Keys == {"agent", "model_params"} && c["agent"] == a
       && c["model_params"].JObj? && c["model_params"].fields in params {
      var i :| 0 <= i < |params| && params[i] == c["model_params"].fields;
      assert c == ForBoth(a)(params[i]);
    }
  }

  lemma BothMember(space: SearchSpace, c: Params)
    requires space.agents != [] && Combinations(space.modelParams) != []
    ensures c in FlatMap(space.agents, PerAgent(Combinations(space.modelParams))) <==> IsProposal(space, c)
  {
    var params := Combinations(space.modelParams);
    NoParametersExactly(space.modelParams);
    AllAgentsMember(space.agents, params, c);
    assert {"agent"} + {"model_params"} == {"agent", "model_params"};
    if "model_params" in c { ChosenModel(space.modelParams, c["model_params"]); }
  }

  lemma AllAgentsMember(agents: seq<Json>, params: seq<Params>, c: Params)
    ensures c in FlatMap(agents, PerAgent(params))
            <==> && c.Keys == {"agent", "model_params"} && c["agent"] in agents
                 && c["model_params"].JObj? && c["model_params"].fields in params
  {
    FlatMapMember(agents, PerAgent(params), c);
    forall a
      ensures c in PerAgent(params)(a)
              <==> && c.Keys == {"agent", "model_params"} && c["agent"] == a
                   && c["model_params"].JObj? && c["model_params"].fields in params
    {
      PerAgentMember(params, a, c);
    }
  }

  /** The grid lists exactly the proposals: every choice of agent and listed values, and no other. */
  lemma CombosMember(space: SearchSpace, c: Params)
    requires Combos(space).Ok?
    ensures c in Combos(space).value <==> IsProposal(space, c)
  {
    if space.agents == [] { ModelOnly(space, c); }
    else if Combinations(space.modelParams) == [] { AgentOnly(space, c); }
    else { BothMember(space, c); }
  }

  /** There is nothing to propose exactly without agents and without parameters to choose. */
  lemma NothingToPropose(space: SearchSpace)
    ensures Combos(space).Err? <==> space.agents == [] && NoParameters(space.modelParams)
    ensures Combos(space).Err? ==> Combos(space).error == ValueError
  {
    NoParametersExactly(space.modelParams);
  }

  lemma MapDistinct<T, U>(s: seq<T>, f: T -> U)
    requires Distinct(s) && forall x, y :: x in s && y in s && f(x) == f(y) ==> x == y
    ensures Distinct(Map(s, f))
  {
  }

  lemma PerAgentDistinct(params: seq<Params>, a: Json)
    requires Distinct(params)
    ensures Distinct(PerAgent(params)(a))
  {
    forall x, y | ForBoth(a)(x) == ForBoth(a)(y)
      ensures x == y
    {
      assert ForBoth(a)(x)["model_params"] == JObj(x);
    }
    MapDistinct(params, ForBoth(a));
  }

  lemma BothDistinct(agents: seq<Json>, params: seq<Params>)
    requires Distinct(agents) && Distinct(params)
    ensures Distinct(FlatMap(agents, PerAgent(params)))
  {
    forall a | a in agents
      ensures Distinct(PerAgent(params)(a))
    {
      PerAgentDistinct(params, a);
    }
    forall a, b, c | a in agents && b in agents && c in PerAgent(params)(a) && c in PerAgent(params)(b)
      ensures a == b
    {
      PerAgentMember(params, a, c);
      PerAgentMember(params, b, c);
    }
    FlatMapDistinct(agents, PerAgent(params));
  }

  /** No proposal is offered twice when no list repeats a value. */
  lemma CombosDistinct(space: SearchSpace)
    requires Combos(space).Ok? && DistinctLists(space.modelParams) && Distinct(space.agents)
    ensures Distinct(Combos(space).value)
  {
    var params := Combinations(space.modelParams);
    ExpandDistinct(space.modelParams);
    if space.agents == [] {
      forall x, y | ForModel(x) == ForModel(y)
        ensures x == y
      {
        assert ForModel(x)["model_params"] == JObj(x);
      }
      MapDistinct(params, ForModel);
    } else if params == [] {
      forall x, y | ForAgent(x) == ForAgent(y)
        ensures x == y
      {
        assert ForAgent(x)["agent"] == x;
      }
      MapDistinct(space.agents, ForAgent);
    } else {
      BothDistinct(space.agents, params);
    }
  }

  // ---- Order ----

  /** The place of entry j of block i in a row of blocks of one width. */
  function At(i: nat, width: nat, j: nat): nat { i * width + j }

  lemma AtNext(i: nat, width: nat, j: nat)
    requires i > 0
    ensures At(i, width, j) == width + At(i - 1, width, j)
  {
  }

  lemma {:induction false} FlatMapBlock<T, U>(s: seq<T>, f: T -> seq<U>, width: nat, i: nat, j: nat)
    requires forall x :: x in s ==> |f(x)| == width
    requires i < |s| && j < width
    ensures At(i, width, j) < |FlatMap(s, f)| && FlatMap(s, f)[At(i, width, j)] == f(s[i])[j]
  {
    assert s[0] in s;
    if i > 0 {
      AtNext(i, width, j);
      FlatMapBlock(s[1..], f, width, i - 1, j);
    }
  }

  /** All parameters for one agent come before any for the next. */
  lemma AgentsVarySlowest(space: SearchSpace, i: nat, j: nat)
    requires i < |space.agents| && j < |Combinations(space.modelParams)|
    ensures var params := Combinations(space.modelParams);
            && Combos(space).Ok? && At(i, |params|, j) < |Combos(space).value|
            && Combos(space).value[At(i, |params|, j)] == ForBoth(space.agents[i])(params[j])
  {
    var params := Combinations(space.modelParams);
    FlatMapBlock(space.agents, PerAgent(params), |params|, i, j);
  }

  /** Among the parameters, the last entry varies fastest. */
  lemma LastKeyVariesFastest(s: Space, i: nat, j: nat)
    requires s != [] && i < |Expand(s[..|s| - 1])| && j < |Pool(s[|s| - 1])|
    ensures var e := s[|s| - 1];
            && At(i, |Pool(e)|, j) < |Combinations(s)|
            && Combinations(s)[At(i, |Pool(e)|, j)] == Expand(s[..|s| - 1])[i][e.0 := Pool(e)[j]]
  {
    var e := s[|s| - 1];
    FlatMapBlock(Expand(s[..|s| - 1]), Vary(e.0, Pool(e)), |Pool(e)|, i, j);
  }

  // ---- The proposer object ----

  class GridProposer {
    var combos: Option<seq<Params>>

    constructor ()
      ensures combos == None
    {
      combos := None;
    }

    /** The combinations of the first space it is asked about, kept from then on. */
    method EnsureCombos(space: SearchSpace) returns (r: Result<seq<Params>>)
      modifies `combos
      ensures r == if old(combos).Some? then Ok(old(combos).value) else Combos(space)
      ensures combos == if r.Ok? then Some(r.value) else None
    {
      if combos.Some? { return Ok(combos.value); }
      var params := GridCombinations(space.modelParams);
      if params == [] && space.agents == [] { return Err(ValueError); }
      if space.agents == [] {
        combos := Some(Map(params, ForModel));
      } else if params == [] {
        combos := Some(Map(space.agents, ForAgent));
      } else {
        combos := Some(FlatMap(space.agents, PerAgent(params)));
      }
      return Ok(combos.value);
    }

    /** The combination at the iteration's index; None is SearchSpaceExhaustedError. */
    method Propose(space: SearchSpace, index: nat) returns (r: Result<Option<Params>>)
      modifies `combos
      ensures old(combos) == None && Combos(space).Err? ==> r == Err(ValueError) && combos == None
      ensures old(combos) == None && Combos(space).Ok? ==>
                combos == Some(Combos(space).value)
      ensures old(combos).Some? ==> combos == old(combos)
      ensures combos.Some? ==> r == Ok(OptimizationLoop.Propose(Grid(combos.value), index, map[]))
    {
      var known := EnsureCombos(space);
      if known.Err? { return Err(known.error); }
      if index >= |known.value| { return Ok(None); }
      return Ok(Some(known.value[index]));
    }
  }

  /**
   A grid run that may use enough iterations tries every proposal at exactly one index, and its
   reason tells a grid that ran out from one that filled the allowance.
   */
  lemma RunCoversGrid(e: Experiment, config: Config, space: SearchSpace, run: Substrate)
    requires config.patience >= 1 && config.earlyStop != Some(true)
    requires Combos(space).Ok? && |Combos(space).value| <= config.maxIterations
    requires DistinctLists(space.modelParams) && Distinct(space.agents)
    ensures var r := Run(e, config, Grid(Combos(space).value), run);
            r.Finished? ==>
              && (forall c: Params :: IsProposal(space, c) <==>
                    exists i :: 0 <= i < |r.iterations| && r.iterations[i].params == c)
              && (forall i, j :: 0 <= i < j < |r.iterations| ==> r.iterations[i].params != r.iterations[j].params)
              && (r.reason == SearchSpaceExhausted <==> |r.iterations| < config.maxIterations)
              && (r.reason == MaxIterations <==> |r.iterations| == config.maxIterations)
  {
    var combos := Combos(space).value;
    GridRun(e, config, combos, run);
    CombosDistinct(space);
    var r := Run(e, config, Grid(combos), run);
    if r.Finished? {
      forall c: Params
        ensures IsProposal(space, c) <==> exists i :: 0 <= i < |r.iterations| && r.iterations[i].params == c
      {
        CombosMember(space, c);
        if c in combos {
          var i :| 0 <= i < |combos| && combos[i] == c;
          assert r.iterations[i].params == c;
        }
      }
    }
  }

  // ---- What an empty list does ----

  /**
   With agents listed beside a non-empty parameter space, the proposals drop every parameter,
   constants included, exactly when some parameter is an empty list.
   */
  lemma DropsParametersExactly(space: SearchSpace)
    requires space.agents != [] && space.modelParams != []
    ensures Combos(space).Ok?
    ensures (forall c :: c in Combos(space).value ==> "model_params" !in c)
            <==> exists i :: 0 <= i < |space.modelParams| && space.modelParams[i].1 == JList([])
    ensures (exists i :: 0 <= i < |space.modelParams| && space.modelParams[i].1 == JList([])) ==>
              Combos(space).value == Map(space.agents, ForAgent)
  {
    var params := Combinations(space.modelParams);
    NoChoiceExactly(space.modelParams);
    if params != [] {
      BothMember(space, ForBoth(space.agents[0])(params[0]));
      AgentsVarySlowest(space, 0, 0);
    } else {
      forall c | c in Combos(space).value
        ensures "model_params" !in c
      {
        ForAgentMember(space.agents, c);
      }
    }
  }

  /** One agent, a list without values and a constant: the proposal is the agent alone. */
  lemma EmptyListDropsConstant(agent: Json, constant: Json)
    ensures Combos(SearchSpace([("temperature", JList([])), ("seed", constant)], [agent]))
            == Ok([map["agent" := agent]])
  {
    var space := SearchSpace([("temperature", JList([])), ("seed", constant)], [agent]);
    assert space.modelParams[0].1 == JList([]);
    DropsParametersExactly(space);
    assert Map([agent], ForAgent) == [map["agent" := agent]];
  }
}
