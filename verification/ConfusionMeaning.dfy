/**
 What a confusion report says about its pairs (graders/_confusion.py), by position in the list of
 pairs (expected, predicted).
 */
module ConfusionMeaning {
  import opened Wrappers
  import opened Sums
  import opened Counters
  import opened Ordering
  import opened Confusion

  ghost function Hit(name: string): Pair -> bool { (p: Pair) => p.0 == name && p.1 == name }
  ghost function Said(name: string): Pair -> bool { (p: Pair) => p.1 == name }
  ghost function Meant(name: string): Pair -> bool { (p: Pair) => p.0 == name }
  ghost function Agreed(): Pair -> bool { (p: Pair) => p.0 == p.1 }
  ghost function Cell(cell: Pair): Pair -> bool { (p: Pair) => p == cell }

  ghost function Pairs(pairs: seq<Pair>, kind: Pair -> bool): nat { |Indices(pairs, kind)| }

  lemma PairsCounted(pairs: seq<Pair>, p: Pair -> bool, kind: Pair -> bool)
    requires forall x :: p(x) == kind(x)
    ensures Count(pairs, p) == Pairs(pairs, kind)
  {
    FilterExtensional(pairs, p, kind);
    CountIsIndices(pairs, kind);
  }

  /** Undefined without a divisor. */
  ghost predicate IsRatio(value: Option<real>, hits: nat, n: nat) {
    value == if n == 0 then None else Some(hits as real / n as real)
  }

  /** The classes that occur on either side, each once, in the order of their names. */
  ghost predicate AreClasses(names: seq<string>, pairs: seq<Pair>) {
    && (forall x :: x in names <==> exists p :: p in pairs && (x == p.0 || x == p.1))
    && (forall i, j :: 0 <= i < j < |names| ==> TextLess(names[i], names[j]))
  }

  ghost predicate CountsCells(confusion: map<Pair, int>, pairs: seq<Pair>) {
    forall cell :: (cell in confusion <==> cell in pairs)
                   && (cell in confusion ==> confusion[cell] == Pairs(pairs, Cell(cell)))
  }

  /** Of those said to be of a class, the share that is; of those of a class, the share said to be. */
  ghost predicate ScoresClass(r: ConfusionReport, pairs: seq<Pair>, name: string) {
    var hits, said, meant := Pairs(pairs, Hit(name)), Pairs(pairs, Said(name)), Pairs(pairs, Meant(name));
    && name in r.precision && IsRatio(r.precision[name], hits, said)
    && name in r.recall && IsRatio(r.recall[name], hits, meant)
    && name in r.f1 && IsF1(r.f1[name], hits, said, meant)
  }

  ghost predicate IsF1(value: Option<real>, hits: nat, said: nat, meant: nat) {
    if hits == 0 then value == None
    else said + meant > 0 && value == Some(2.0 * hits as real / (said as real + meant as real))
  }

  /** The defined F1 scores of some classes, added up; and how many are defined. */
  ghost function DefinedTotal(f1: map<string, Option<real>>, names: seq<string>): real {
    if names == [] then 0.0
    else (if names[0] in f1 && f1[names[0]].Some? then f1[names[0]].value else 0.0) + DefinedTotal(f1, names[1..])
  }

  ghost function DefinedCount(f1: map<string, Option<real>>, names: seq<string>): nat {
    if names == [] then 0
    else (if names[0] in f1 && f1[names[0]].Some? then 1 else 0) + DefinedCount(f1, names[1..])
  }

  ghost predicate IsMean(value: Option<real>, total: real, n: nat) {
    value == if n == 0 then None else Some(total / n as real)
  }

  lemma ClassesExactly(pairs: seq<Pair>)
    ensures AreClasses(Classes(pairs), pairs)
  {
    var names := Classes(pairs);
    SortedSetProps(FlatMap(pairs, Endpoints));
    forall x: string
      ensures x in names <==> exists p :: p in pairs && (x == p.0 || x == p.1)
    {
      ClassesMember(pairs, x);
    }
    assert forall i, j :: 0 <= i < j < |names| ==> TextLe(names[i], names[j]);
  }

  lemma CellsCounted(pairs: seq<Pair>)
    ensures CountsCells(Tally(pairs), pairs)
  {
    forall cell: Pair
      ensures cell in Tally(pairs) ==> Tally(pairs)[cell] == Pairs(pairs, Cell(cell))
    {
      CountIs(pairs, cell);
      PairsCounted(pairs, Is(cell), Cell(cell));
    }
  }

  lemma ClassCounts(pairs: seq<Pair>, name: string)
    ensures TruePositives(pairs, name) == Pairs(pairs, Hit(name))
    ensures Predicted(pairs, name) == Pairs(pairs, Said(name)) && Support(pairs, name) == Pairs(pairs, Meant(name))
  {
    PairsCounted(pairs, Is((name, name)), Hit(name));
    PairsCounted(pairs, PredictedIs(name), Said(name));
    PairsCounted(pairs, ExpectedIs(name), Meant(name));
  }

  lemma RatioIs(hits: nat, n: nat)
    ensures IsRatio(SafeDiv(hits as real, n as real), hits, n)
  {
  }

  lemma RatiosAre(pairs: seq<Pair>, name: string, hits: nat, said: nat, meant: nat)
    requires hits == Pairs(pairs, Hit(name)) && said == Pairs(pairs, Said(name)) && meant == Pairs(pairs, Meant(name))
    ensures IsRatio(Precision(pairs)(name), hits, said) && IsRatio(Recall(pairs)(name), hits, meant)
  {
    ClassCounts(pairs, name);
    RatioIs(hits, said);
    RatioIs(hits, meant);
  }

  lemma F1Is(pairs: seq<Pair>, name: string, hits: nat, said: nat, meant: nat)
    requires hits == Pairs(pairs, Hit(name)) && said == Pairs(pairs, Said(name)) && meant == Pairs(pairs, Meant(name))
    ensures IsF1(F1(pairs)(name), hits, said, meant)
  {
    ClassCounts(pairs, name);
    F1Exact(pairs, name);
  }

  lemma TablesHold(pairs: seq<Pair>, name: string)
    requires name in Classes(pairs) && pairs != []
    ensures var r := Report(pairs);
            && name in r.precision && r.precision[name] == Precision(pairs)(name)
            && name in r.recall && r.recall[name] == Recall(pairs)(name)
            && name in r.f1 && r.f1[name] == F1(pairs)(name)
  {
  }

  lemma ClassScored(pairs: seq<Pair>, name: string)
    requires name in Classes(pairs) && pairs != []
    ensures ScoresClass(Report(pairs), pairs, name)
  {
    var hits, said, meant := Pairs(pairs, Hit(name)), Pairs(pairs, Said(name)), Pairs(pairs, Meant(name));
    TablesHold(pairs, name);
    RatiosAre(pairs, name, hits, said, meant);
    F1Is(pairs, name, hits, said, meant);
  }

  lemma {:induction false} F1Added(pairs: seq<Pair>, f1: map<string, Option<real>>, names: seq<string>)
    requires forall x :: x in names ==> x in f1 && f1[x] == F1(pairs)(x)
    ensures F1Total(pairs, names) == DefinedTotal(f1, names)
    ensures |Scored(pairs, names)| == DefinedCount(f1, names)
  {
    if names != [] {
      F1Added(pairs, f1, names[1..]);
      assert names[0] in names;
      SumAppend(if DefinedF1(pairs)(names[0]) then [names[0]] else [], Scored(pairs, names[1..]), F1Value(pairs));
    }
  }

  /** The report of some pairs, by position. */
  lemma ReportExactly(pairs: seq<Pair>)
    requires pairs != []
    ensures var r := Report(pairs);
            && r.nPairs == |pairs|
            && r.accuracy == Pairs(pairs, Agreed()) as real / |pairs| as real
            && AreClasses(r.labels, pairs)
            && CountsCells(r.confusion, pairs)
            && (forall name :: name in r.labels ==> ScoresClass(r, pairs, name))
            && IsMean(r.macroF1, DefinedTotal(r.f1, r.labels), DefinedCount(r.f1, r.labels))
  {
    ClassesExactly(pairs);
    CellsCounted(pairs);
    PairsCounted(pairs, Correct, Agreed());
    forall name | name in Report(pairs).labels
      ensures ScoresClass(Report(pairs), pairs, name)
    {
      ClassScored(pairs, name);
    }
    F1Added(pairs, Report(pairs).f1, Classes(pairs));
  }

  /** No pair: nothing is counted and nothing defined. */
  lemma ReportOfNone()
    ensures var r := Report([]);
            && r.nPairs == 0 && r.accuracy == 0.0 && r.macroF1 == None && r.labels == [] && r.confusion == map[]
            && r.precision == map[] == r.recall && r.f1 == map[]
  {
  }
}
