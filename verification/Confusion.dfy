/**
 The NxN confusion matrix with per-class precision, recall and F1, macro-F1 and
 accuracy (graders/_confusion.py). A pair is (expected, predicted).
 */
module Confusion {
  import opened Wrappers
  import opened Sums
  import opened Ordering
  import opened Counters

  type Pair = (string, string)

  datatype ConfusionReport = ConfusionReport(
    nPairs: int,
    accuracy: real,
    macroF1: Option<real>,
    labels: seq<string>,
    confusion: map<Pair, int>,
    precision: map<string, Option<real>>,
    recall: map<string, Option<real>>,
    f1: map<string, Option<real>>)

  function SafeDiv(num: real, den: real): Option<real> {
    if den == 0.0 then None else Some(num / den)
  }

  function F1Score(precision: Option<real>, recall: Option<real>): Option<real> {
    if precision.None? || recall.None? || precision.value + recall.value == 0.0 then None
    else Some(2.0 * precision.value * recall.value / (precision.value + recall.value))
  }

  // ---- What the report means ----

  function ExpectedIs(name: string): Pair -> bool { (p: Pair) => p.0 == name }
  function PredictedIs(name: string): Pair -> bool { (p: Pair) => p.1 == name }
  predicate Correct(p: Pair) { p.0 == p.1 }
  function Endpoints(p: Pair): seq<string> { [p.0, p.1] }

  function Classes(pairs: seq<Pair>): seq<string> { SortedSet(FlatMap(pairs, Endpoints)) }
  function TruePositives(pairs: seq<Pair>, name: string): nat { Count(pairs, Is((name, name))) }
  function Predicted(pairs: seq<Pair>, name: string): nat { Count(pairs, PredictedIs(name)) }
  function Support(pairs: seq<Pair>, name: string): nat { Count(pairs, ExpectedIs(name)) }

  function Precision(pairs: seq<Pair>): string -> Option<real> {
    name => SafeDiv(TruePositives(pairs, name) as real, Predicted(pairs, name) as real)
  }
  function Recall(pairs: seq<Pair>): string -> Option<real> {
    name => SafeDiv(TruePositives(pairs, name) as real, Support(pairs, name) as real)
  }
  function F1(pairs: seq<Pair>): string -> Option<real> {
    name => F1Score(Precision(pairs)(name), Recall(pairs)(name))
  }
  function DefinedF1(pairs: seq<Pair>): string -> bool { name => F1(pairs)(name).Some? }
  function F1Value(pairs: seq<Pair>): string -> real {
    name => if F1(pairs)(name).Some? then F1(pairs)(name).value else 0.0
  }
  function Scored(pairs: seq<Pair>, names: seq<string>): seq<string> { Filter(names, DefinedF1(pairs)) }
  function F1Total(pairs: seq<Pair>, names: seq<string>): real { Sum(Scored(pairs, names), F1Value(pairs)) }
  function Ratio(total: real, n: nat): Option<real> { if n == 0 then None else Some(total / n as real) }
  function MacroF1(pairs: seq<Pair>): Option<real> {
    Ratio(F1Total(pairs, Classes(pairs)), |Scored(pairs, Classes(pairs))|)
  }

  function Table(names: seq<string>, f: string -> Option<real>): map<string, Option<real>> {
    map name | name in names :: f(name)
  }

  /** The report as counts over the pairs themselves, with no counter in between. */
  function Report(pairs: seq<Pair>): ConfusionReport {
    if pairs == [] then ConfusionReport(0, 0.0, None, [], map[], map[], map[], map[])
    else
      var classes := Classes(pairs);
      ConfusionReport(
        |pairs|,
        Ratio(Count(pairs, Correct) as real, |pairs|).value,
        MacroF1(pairs),
        classes,
        Tally(pairs),
        Table(classes, Precision(pairs)),
        Table(classes, Recall(pairs)),
        Table(classes, F1(pairs)))
  }

  // ---- The computation ----

  method CountPairs(pairs: seq<Pair>) returns (order: seq<Pair>, counter: map<Pair, int>, correct: int)
    ensures KeysInOrder(pairs, order) && counter == Tally(pairs)
    ensures correct == Count(pairs, Correct)
  {
    order, counter, correct := [], map[], 0;
    for i := 0 to |pairs|
      invariant KeysInOrder(pairs[..i], order) && counter == Tally(pairs[..i])
      invariant correct == Count(pairs[..i], Correct)
    {
      assert pairs[..i + 1] == pairs[..i] + [pairs[i]];
      TallyBump(pairs[..i], pairs[i]);
      FilterSnoc(pairs, i, Correct);
      if pairs[i] !in counter { order := order + [pairs[i]]; }
      counter := Bump(counter, pairs[i]);
      if Correct(pairs[i]) { correct := correct + 1; }
    }
    assert pairs[..|pairs|] == pairs;
  }

  method ScoreClass(ghost pairs: seq<Pair>, order: seq<Pair>, counter: map<Pair, int>, name: string)
    returns (precision: Option<real>, recall: Option<real>, f1: Option<real>)
    requires KeysInOrder(pairs, order) && counter == Tally(pairs)
    ensures precision == Precision(pairs)(name) && recall == Recall(pairs)(name) && f1 == F1(pairs)(name)
  {
    var tp := Lookup(counter)((name, name));
    var predicted := SumInt(Filter(order, PredictedIs(name)), Lookup(counter));
    var actual := SumInt(Filter(order, ExpectedIs(name)), Lookup(counter));
    CountIs(pairs, (name, name));
    CounterSum(pairs, order, PredictedIs(name));
    CounterSum(pairs, order, ExpectedIs(name));
    precision, recall := SafeDiv(tp as real, predicted as real), SafeDiv(tp as real, actual as real);
    f1 := F1Score(precision, recall);
  }

  lemma TableSnoc(names: seq<string>, i: nat, f: string -> Option<real>)
    requires i < |names|
    ensures Table(names[..i + 1], f) == Table(names[..i], f)[names[i] := f(names[i])]
  {
    assert names[..i + 1] == names[..i] + [names[i]];
  }

  lemma ScoredSnoc(pairs: seq<Pair>, names: seq<string>, i: nat)
    requires i < |names|
    ensures var f := F1(pairs)(names[i]);
            && |Scored(pairs, names[..i + 1])| == |Scored(pairs, names[..i])| + (if f.Some? then 1 else 0)
            && F1Total(pairs, names[..i + 1]) == F1Total(pairs, names[..i]) + (if f.Some? then f.value else 0.0)
  {
    FilterSnoc(names, i, DefinedF1(pairs));
    SumAppend(Scored(pairs, names[..i]), [names[i]], F1Value(pairs));
    assert Scored(pairs, names[..i]) + [] == Scored(pairs, names[..i]);
  }

  /** The pass over the sorted classes. */
  method ScoreClasses(ghost pairs: seq<Pair>, order: seq<Pair>, counter: map<Pair, int>, labels: seq<string>)
    returns (precision: map<string, Option<real>>, recall: map<string, Option<real>>,
             f1: map<string, Option<real>>, f1Count: nat, f1Total: real)
    requires KeysInOrder(pairs, order) && counter == Tally(pairs)
    ensures precision == Table(labels, Precision(pairs)) && recall == Table(labels, Recall(pairs))
    ensures f1 == Table(labels, F1(pairs))
    ensures f1Count == |Scored(pairs, labels)| && f1Total == F1Total(pairs, labels)
  {
    precision, recall, f1, f1Count, f1Total := map[], map[], map[], 0, 0.0;
    for i := 0 to |labels|
      invariant precision == Table(labels[..i], Precision(pairs))
      invariant recall == Table(labels[..i], Recall(pairs))
      invariant f1 == Table(labels[..i], F1(pairs))
      invariant f1Count == |Scored(pairs, labels[..i])| && f1Total == F1Total(pairs, labels[..i])
    {
      var p, q, f := ScoreClass(pairs, order, counter, labels[i]);
      precision, recall, f1 := precision[labels[i] := p], recall[labels[i] := q], f1[labels[i] := f];
      if f.Some? { f1Count, f1Total := f1Count + 1, f1Total + f.value; }
      TableSnoc(labels, i, Precision(pairs));
      TableSnoc(labels, i, Recall(pairs));
      TableSnoc(labels, i, F1(pairs));
      ScoredSnoc(pairs, labels, i);
    }
    assert labels[..|labels|] == labels;
  }

  /** `confusion_from_pairs`: one pass into a counter, then one pass over the sorted classes. */
  method ConfusionFromPairs(pairs: seq<Pair>) returns (r: ConfusionReport)
    ensures r == Report(pairs)
  {
    var order, counter, correct := CountPairs(pairs);
    if |pairs| == 0 {
      return ConfusionReport(0, 0.0, None, [], map[], map[], map[], map[]);
    }
    var labels := SortedSet(FlatMap(order, Endpoints));
    ClassesFromCells(pairs, order);
    var precision, recall, f1, f1Count, f1Total := ScoreClasses(pairs, order, counter, labels);
    r := ConfusionReport(|pairs|, Ratio(correct as real, |pairs|).value, Ratio(f1Total, f1Count),
                         labels, counter, precision, recall, f1);
  }

  lemma ClassesFromCells(pairs: seq<Pair>, order: seq<Pair>)
    requires forall c :: c in order <==> c in pairs
    ensures SortedSet(FlatMap(order, Endpoints)) == Classes(pairs)
  {
    forall x
      ensures x in FlatMap(order, Endpoints) <==> x in FlatMap(pairs, Endpoints)
    {
      EndpointsMember(order, x);
      EndpointsMember(pairs, x);
    }
    SortedSetMembersOnly(FlatMap(order, Endpoints), FlatMap(pairs, Endpoints));
  }

  lemma EndpointsMember(pairs: seq<Pair>, x: string)
    ensures x in FlatMap(pairs, Endpoints) <==> exists p :: p in pairs && (x == p.0 || x == p.1)
  {
    FlatMapMember(pairs, Endpoints, x);
  }
  // ---- What the report guarantees ----

  lemma ClassBounds(pairs: seq<Pair>, name: string)
    ensures TruePositives(pairs, name) <= Predicted(pairs, name)
    ensures TruePositives(pairs, name) <= Support(pairs, name)
  {
    CountMonotone(pairs, Is((name, name)), PredictedIs(name));
    CountMonotone(pairs, Is((name, name)), ExpectedIs(name));
  }

  /** The harmonic mean of t/p and t/s is 2t/(p+s), for x = t/p and y = t/s. */
  lemma HarmonicMean(x: real, y: real, t: real, p: real, s: real)
    requires x > 0.0 && y > 0.0 && p > 0.0 && s > 0.0
    requires x * p == t && y * s == t
    ensures 2.0 * x * y / (x + y) == 2.0 * t / (p + s)
  {
    var z := 2.0 * t / (p + s);
    assert z * (x + y) == 2.0 * x * y by {
      assert z * (x + y) * (p + s) == (z * (p + s)) * (x + y);
      assert 2.0 * x * y * (p + s) == 2.0 * y * (x * p) + 2.0 * x * (y * s);
    }
  }

  lemma QuotientPositive(t: real, p: real)
    requires 0.0 < t <= p
    ensures t / p > 0.0 && (t / p) * p == t
  {
  }

  lemma QuotientZero(p: real)
    ensures SafeDiv(0.0, p).Some? ==> SafeDiv(0.0, p).value == 0.0
  {
  }

  lemma F1Undefined(a: Option<real>, b: Option<real>)
    requires a.Some? ==> a.value == 0.0
    requires b.Some? ==> b.value == 0.0
    ensures F1Score(a, b).None?
  {
  }

  lemma F1Positive(a: Option<real>, b: Option<real>, t: real, p: real, s: real)
    requires 0.0 < t <= p && t <= s
    requires a.Some? && b.Some? && a.value > 0.0 && b.value > 0.0 && a.value * p == t && b.value * s == t
    ensures F1Score(a, b).Some? && F1Score(a, b).value == Dice(t, p, s)
    ensures 0.0 < Dice(t, p, s) <= 1.0
  {
    HarmonicMean(a.value, b.value, t, p, s);
    DiceInUnit(t, p, s, Dice(t, p, s));
  }

  lemma DiceInUnit(t: real, p: real, s: real, z: real)
    requires 0.0 < t <= p && t <= s && z == Dice(t, p, s)
    ensures 0.0 < z <= 1.0
  {
    Undivide(2.0 * t, p + s, z);
    AtMostOne(2.0 * t, p + s, z);
  }

  lemma Undivide(n: real, d: real, z: real)
    requires d > 0.0 && z == n / d
    ensures z * d == n
  {
  }

  lemma AtMostOne(n: real, d: real, z: real)
    requires 0.0 < n <= d && z * d == n
    ensures 0.0 < z <= 1.0
  {
    Products(z, d);
  }

  lemma Products(z: real, d: real)
    requires d > 0.0
    ensures z > 1.0 ==> z * d > d
    ensures z <= 0.0 ==> z * d <= 0.0
  {
    if z > 1.0 { assert (z - 1.0) * d > 0.0; }
  }

  /** Twice the true positives over everything predicted or expected as the class. */
  function Dice(t: real, p: real, s: real): real
    requires p + s != 0.0
  {
    2.0 * t / (p + s)
  }

  /** The F1 of a class with t true positives, p predictions and s expectations. */
  function F1From(t: real, p: real, s: real): Option<real> { F1Score(SafeDiv(t, p), SafeDiv(t, s)) }

  lemma F1OfCounts(t: real, p: real, s: real)
    requires 0.0 < t <= p && t <= s
    ensures F1From(t, p, s).Some? && F1From(t, p, s).value == Dice(t, p, s) && 0.0 < Dice(t, p, s) <= 1.0
  {
    QuotientPositive(t, p);
    QuotientPositive(t, s);
    F1Positive(SafeDiv(t, p), SafeDiv(t, s), t, p, s);
  }

  lemma F1Hit(pairs: seq<Pair>, name: string, t: real, p: real, s: real)
    requires t == TruePositives(pairs, name) as real && p == Predicted(pairs, name) as real
             && s == Support(pairs, name) as real
    requires 0.0 < t <= p && t <= s
    ensures F1(pairs)(name).Some? && F1(pairs)(name).value == Dice(t, p, s) && 0.0 < Dice(t, p, s) <= 1.0
  {
    assert Precision(pairs)(name) == SafeDiv(t, p) && Recall(pairs)(name) == SafeDiv(t, s);
    F1OfCounts(t, p, s);
  }

  lemma F1Missed(pairs: seq<Pair>, name: string)
    requires TruePositives(pairs, name) == 0
    ensures F1(pairs)(name).None?
  {
    QuotientZero(Predicted(pairs, name) as real);
    QuotientZero(Support(pairs, name) as real);
    F1Undefined(Precision(pairs)(name), Recall(pairs)(name));
  }

  /** A class F1 is defined exactly when the class has a true positive, and is then its Dice coefficient. */
  lemma F1Exact(pairs: seq<Pair>, name: string)
    ensures var tp, predicted, actual := TruePositives(pairs, name), Predicted(pairs, name), Support(pairs, name);
            && (F1(pairs)(name).Some? <==> tp > 0)
            && (tp > 0 ==> predicted + actual > 0
                           && F1(pairs)(name).value == Dice(tp as real, predicted as real, actual as real)
                           && 0.0 < F1(pairs)(name).value <= 1.0)
  {
    ClassBounds(pairs, name);
    var t, p, s := TruePositives(pairs, name) as real, Predicted(pairs, name) as real, Support(pairs, name) as real;
    if t > 0.0 { F1Hit(pairs, name, t, p, s); } else { F1Missed(pairs, name); }
  }

  /** However the cells are enumerated, their counts add up to the number of pairs. */
  lemma CellsSumToPairs(pairs: seq<Pair>, cells: seq<Pair>)
    requires Distinct(cells)
    requires forall c :: c in cells <==> c in Report(pairs).confusion
    ensures SumInt(cells, Lookup(Report(pairs).confusion)) == |pairs|
  {
    assert cells != [] ==> cells[0] in Report(pairs).confusion;
    if pairs != [] {
      TalliesPartition(pairs, cells);
      CountAll(pairs, Among(cells));
    }
  }

  function DiagonalIn(names: seq<string>): Pair -> bool { (p: Pair) => p.0 == p.1 && p.0 in names }

  /** A class's recall, weighted by its share of the pairs; a class never expected weighs nothing. */
  function WeightedRecall(pairs: seq<Pair>): string -> real
    requires pairs != []
  {
    name =>
      if Recall(pairs)(name).None? then 0.0
      else Support(pairs, name) as real / |pairs| as real * Recall(pairs)(name).value
  }

  lemma ShareArithmetic(t: real, s: real, n: real, r: real)
    requires n > 0.0 && r * s == t
    ensures s / n * r == t / n
  {
    assert s / n * r * n == r * (s / n * n);
  }

  lemma WeightedRecallIsShare(pairs: seq<Pair>, name: string)
    requires pairs != []
    ensures WeightedRecall(pairs)(name) == TruePositives(pairs, name) as real / |pairs| as real
  {
    ClassBounds(pairs, name);
    var t, s, n := TruePositives(pairs, name) as real, Support(pairs, name) as real, |pairs| as real;
    if s != 0.0 {
      var r := Recall(pairs)(name).value;
      assert r * s == t;
      ShareArithmetic(t, s, n, r);
    }
  }

  lemma {:induction false} DiagonalSum(pairs: seq<Pair>, names: seq<string>)
    requires pairs != [] && Distinct(names)
    ensures Sum(names, WeightedRecall(pairs)) == Count(pairs, DiagonalIn(names)) as real / |pairs| as real
  {
    if names == [] {
      CountPositive(pairs, DiagonalIn(names));
    } else {
      DiagonalSum(pairs, names[1..]);
      WeightedRecallIsShare(pairs, names[0]);
      CountUnion(pairs, Is((names[0], names[0])), DiagonalIn(names[1..]), DiagonalIn(names));
    }
  }

  lemma ClassesMember(pairs: seq<Pair>, x: string)
    ensures x in Classes(pairs) <==> exists p :: p in pairs && (x == p.0 || x == p.1)
  {
    SortedSetProps(FlatMap(pairs, Endpoints));
    EndpointsMember(pairs, x);
  }

  /** Accuracy is the support-weighted mean of the class recalls. */
  lemma AccuracyIsWeightedRecall(pairs: seq<Pair>)
    requires pairs != []
    ensures Report(pairs).accuracy == Sum(Classes(pairs), WeightedRecall(pairs))
  {
    SortedSetProps(FlatMap(pairs, Endpoints));
    DiagonalSum(pairs, Classes(pairs));
    forall p | p in pairs && Correct(p)
      ensures DiagonalIn(Classes(pairs))(p)
    {
      ClassesMember(pairs, p.0);
    }
    FilterExtensional(pairs, Correct, DiagonalIn(Classes(pairs)));
  }

  lemma {:induction false} SumPositive<T>(s: seq<T>, f: T -> real)
    requires s != [] && forall x :: x in s ==> 0.0 < f(x) <= 1.0
    ensures 0.0 < Sum(s, f) <= |s| as real
  {
    if |s| > 1 { SumPositive(s[1..], f); } else { assert s == [s[0]]; }
  }

  lemma ScoredMember(pairs: seq<Pair>, name: string)
    ensures name in Scored(pairs, Classes(pairs)) <==> (name, name) in pairs
    ensures name in Scored(pairs, Classes(pairs)) ==> 0.0 < F1Value(pairs)(name) <= 1.0
  {
    FilterMember(Classes(pairs), DefinedF1(pairs), name);
    F1Exact(pairs, name);
    CountPositive(pairs, Is((name, name)));
    ClassesMember(pairs, name);
  }

  lemma RatioInUnit(total: real, n: nat)
    requires 0.0 < total <= n as real
    ensures Ratio(total, n).Some? && 0.0 < Ratio(total, n).value <= 1.0
  {
  }

  lemma MacroF1Value(pairs: seq<Pair>)
    ensures MacroF1(pairs).None? <==> forall p :: p in pairs ==> !Correct(p)
    ensures MacroF1(pairs).Some? ==> 0.0 < MacroF1(pairs).value <= 1.0
  {
    var scored := Scored(pairs, Classes(pairs));
    if scored != [] {
      forall name | name in scored { ScoredMember(pairs, name); }
      SumPositive(scored, F1Value(pairs));
      RatioInUnit(Sum(scored, F1Value(pairs)), |scored|);
      var hit := (scored[0], scored[0]);
      ScoredMember(pairs, scored[0]);
      assert hit in pairs && Correct(hit);
    } else {
      forall p | p in pairs
        ensures !Correct(p)
      {
        ScoredMember(pairs, p.0);
      }
    }
  }

  /** Macro-F1 is undefined exactly when nothing was classified correctly, else it is in (0, 1]. */
  lemma MacroF1Range(pairs: seq<Pair>)
    requires pairs != []
    ensures Report(pairs).macroF1.None? <==> Report(pairs).accuracy == 0.0
    ensures Report(pairs).macroF1.Some? ==> 0.0 < Report(pairs).macroF1.value <= 1.0
  {
    MacroF1Value(pairs);
    CountPositive(pairs, Correct);
    RatioZero(Count(pairs, Correct), |pairs|);
  }

  lemma RatioZero(k: nat, n: nat)
    requires n > 0
    ensures Ratio(k as real, n).value == 0.0 <==> k == 0
  {
  }

  lemma ClassOrderFree(a: seq<Pair>, b: seq<Pair>, name: string)
    requires Permutes(a, b)
    ensures Precision(a)(name) == Precision(b)(name)
    ensures Recall(a)(name) == Recall(b)(name)
    ensures F1(a)(name) == F1(b)(name)
  {
    CountPermutes(a, b, Is((name, name)));
    CountPermutes(a, b, PredictedIs(name));
    CountPermutes(a, b, ExpectedIs(name));
  }

  lemma MacroOrderFree(a: seq<Pair>, b: seq<Pair>)
    requires Permutes(a, b) && Classes(a) == Classes(b)
    ensures MacroF1(a) == MacroF1(b)
  {
    forall name { ClassOrderFree(a, b, name); }
    FilterExtensional(Classes(a), DefinedF1(a), DefinedF1(b));
    SumExtensional(Scored(a, Classes(a)), F1Value(a), F1Value(b));
  }

  /** The report depends on the pairs only as a multiset. */
  lemma ReportOrderFree(a: seq<Pair>, b: seq<Pair>)
    requires Permutes(a, b)
    ensures Report(a) == Report(b)
  {
    PermutesLength(a, b);
    SameMembers(a, b);
    ClassesFromCells(a, b);
    CountPermutes(a, b, Correct);
    MacroOrderFree(a, b);
    TablesOrderFree(a, b, Classes(a));
    TallyOrderFree(a, b);
  }

  lemma TableExtensional(names: seq<string>, f: string -> Option<real>, g: string -> Option<real>)
    requires forall name :: name in names ==> f(name) == g(name)
    ensures Table(names, f) == Table(names, g)
  {
  }

  lemma TablesOrderFree(a: seq<Pair>, b: seq<Pair>, names: seq<string>)
    requires Permutes(a, b)
    ensures Table(names, Precision(a)) == Table(names, Precision(b))
    ensures Table(names, Recall(a)) == Table(names, Recall(b))
    ensures Table(names, F1(a)) == Table(names, F1(b))
  {
    assert forall name :: name in names ==> Precision(a)(name) == Precision(b)(name) by {
      forall name | name in names { ClassOrderFree(a, b, name); }
    }
    assert forall name :: name in names ==> Recall(a)(name) == Recall(b)(name) by {
      forall name | name in names { ClassOrderFree(a, b, name); }
    }
    assert forall name :: name in names ==> F1(a)(name) == F1(b)(name) by {
      forall name | name in names { ClassOrderFree(a, b, name); }
    }
    TableExtensional(names, Precision(a), Precision(b));
    TableExtensional(names, Recall(a), Recall(b));
    TableExtensional(names, F1(a), F1(b));
  }

  // ---- The persisted form ----

  datatype ReportDict = ReportDict(
    nPairs: int,
    accuracy: real,
    macroF1: Option<real>,
    labels: seq<string>,
    matrix: map<string, map<string, int>>,
    precision: map<string, Option<real>>,
    recall: map<string, Option<real>>,
    f1: map<string, Option<real>>)

  /** `to_nested`: one row per expected class, holding only the observed cells. */
  method ToNested(confusion: map<Pair, int>) returns (nested: map<string, map<string, int>>)
    ensures forall e, p :: (e in nested && p in nested[e]) <==> (e, p) in confusion
    ensures forall e, p :: e in nested && p in nested[e] ==> nested[e][p] == confusion[(e, p)]
    ensures forall e :: e in nested ==> nested[e] != map[]
  {
    nested := map[];
    var todo := confusion.Keys;
    while todo != {}
      invariant todo <= confusion.Keys
      invariant forall e, p :: (e in nested && p in nested[e]) <==> (e, p) in confusion && (e, p) !in todo
      invariant forall e, p :: e in nested && p in nested[e] ==> nested[e][p] == confusion[(e, p)]
      invariant forall e :: e in nested ==> nested[e] != map[]
    {
      var cell :| cell in todo;
      var row := if cell.0 in nested then nested[cell.0] else map[];
      nested := nested[cell.0 := row[cell.1 := confusion[cell]]];
      assert cell.1 in nested[cell.0];
      todo := todo - {cell};
    }
  }

  /** The reading half of `from_dict`. */
  method FromNested(matrix: map<string, map<string, int>>) returns (confusion: map<Pair, int>)
    ensures forall e, p :: (e, p) in confusion <==> e in matrix && p in matrix[e]
    ensures forall e, p :: (e, p) in confusion ==> confusion[(e, p)] == matrix[e][p]
  {
    confusion := map[];
    var rows := matrix.Keys;
    while rows != {}
      invariant rows <= matrix.Keys
      invariant forall e, p :: (e, p) in confusion <==> e in matrix && e !in rows && p in matrix[e]
      invariant forall e, p :: (e, p) in confusion ==> confusion[(e, p)] == matrix[e][p]
    {
      var e :| e in rows;
      confusion := confusion + map p | p in matrix[e] :: (e, p) := matrix[e][p];
      rows := rows - {e};
    }
  }

  /** Storing a report and reading it back gives the same report. */
  method ReportRoundTrip(r: ConfusionReport) returns (back: ConfusionReport)
    ensures back == r
  {
    var nested := ToNested(r.confusion);
    var stored := ReportDict(r.nPairs, r.accuracy, r.macroF1, r.labels, nested, r.precision, r.recall, r.f1);
    var cells := FromNested(stored.matrix);
    forall c: Pair
      ensures c in cells <==> c in r.confusion
      ensures c in cells ==> cells[c] == r.confusion[c]
    {
      var (e, p) := c;
      assert (e, p) in cells <==> (e, p) in r.confusion;
    }
    assert cells == r.confusion;
    back := ConfusionReport(stored.nPairs, stored.accuracy, stored.macroF1, stored.labels, cells,
                            stored.precision, stored.recall, stored.f1);
  }
}
