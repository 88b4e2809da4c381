/**
 What the metrics of an iteration measure (optimization/aggregator.py), case by case and repetition
 by repetition.
 */
module MetricMeaning {
  import opened Wrappers
  import opened Sums
  import opened Grades
  import opened Metrics

  /** Repetition i is among the first k; a negative k leaves out as many at the end. */
  ghost predicate AmongFirst(labels: seq<GradeLabel>, k: int, i: int) {
    0 <= i < |labels| && if k >= 0 then i < k else i < |labels| + k
  }

  ghost predicate PassesWithin(labels: seq<GradeLabel>, k: int) {
    exists i :: AmongFirst(labels, k, i) && labels[i] == PASS
  }

  ghost predicate PassesThroughout(labels: seq<GradeLabel>, k: int) {
    |labels| >= k && forall i :: AmongFirst(labels, k, i) ==> labels[i] == PASS
  }

  ghost predicate PassesAtOnce(labels: seq<GradeLabel>) { labels != [] && labels[0] == PASS }

  ghost predicate ErrorsAtOnce(labels: seq<GradeLabel>) { labels != [] && labels[0] == ERROR }

  ghost predicate StartsBadly(labels: seq<GradeLabel>) { labels != [] && labels[0] != PASS }

  ghost predicate PassesLater(labels: seq<GradeLabel>) { exists i :: 0 < i < |labels| && labels[i] == PASS }

  ghost predicate RanOn(o: CaseOutcome, grader: string) { grader in o.perGrader && o.perGrader[grader] != [] }

  /** `hits` of `n` cases, and 0 of none. */
  ghost predicate IsShare(value: Result<real>, hits: nat, n: nat) {
    value == Ok(if n == 0 then 0.0 else hits as real / n as real)
  }

  lemma WindowIs(labels: seq<GradeLabel>, k: int)
    ensures AnyPass(labels, k) <==> PassesWithin(labels, k)
    ensures AllPass(labels, k) <==> PassesThroughout(labels, k)
    ensures |labels| >= k && AllPassWindow(labels, k) <==> PassesThroughout(labels, k)
  {
    var window := Take(labels, k);
    assert forall i :: 0 <= i < |window| <==> AmongFirst(labels, k, i);
    if AnyPass(labels, k) {
      var i :| 0 <= i < |window| && window[i] == PASS;
      assert AmongFirst(labels, k, i);
    }
    if i :| AmongFirst(labels, k, i) && labels[i] == PASS { assert window[i] in window; }
    if PassesThroughout(labels, k) {
      forall g | g in window
        ensures g == PASS
      {
        var i :| 0 <= i < |window| && window[i] == g;
        assert AmongFirst(labels, k, i);
      }
    }
    if AllPassWindow(labels, k) {
      forall i | AmongFirst(labels, k, i)
        ensures labels[i] == PASS
      {
        assert window[i] in window;
      }
    }
  }

  // ---- The cases a metric counts ----

  ghost function AtOnce(): CaseOutcome -> bool { (o: CaseOutcome) => PassesAtOnce(o.labels) }
  ghost function NoErrorAtOnce(): CaseOutcome -> bool { (o: CaseOutcome) => !ErrorsAtOnce(o.labels) }
  ghost function Within(k: int): CaseOutcome -> bool { (o: CaseOutcome) => PassesWithin(o.labels, k) }
  ghost function Throughout(k: int): CaseOutcome -> bool { (o: CaseOutcome) => PassesThroughout(o.labels, k) }
  ghost function Bad(): CaseOutcome -> bool { (o: CaseOutcome) => StartsBadly(o.labels) }
  ghost function BadThenGood(): CaseOutcome -> bool {
    (o: CaseOutcome) => StartsBadly(o.labels) && PassesLater(o.labels)
  }
  ghost function RanUnder(g: string): CaseOutcome -> bool { (o: CaseOutcome) => RanOn(o, g) }
  ghost function AtOnceUnder(g: string): CaseOutcome -> bool {
    (o: CaseOutcome) => RanOn(o, g) && PassesAtOnce(o.perGrader[g])
  }
  ghost function WithinUnder(g: string, k: int): CaseOutcome -> bool {
    (o: CaseOutcome) => RanOn(o, g) && PassesWithin(o.perGrader[g], k)
  }
  ghost function ThroughoutUnder(g: string, k: int): CaseOutcome -> bool {
    (o: CaseOutcome) => RanOn(o, g) && PassesThroughout(o.perGrader[g], k)
  }

  /** The number of cases of a kind. */
  ghost function Cases(outcomes: seq<CaseOutcome>, kind: CaseOutcome -> bool): nat { |Indices(outcomes, kind)| }

  lemma CasesCounted(outcomes: seq<CaseOutcome>, p: CaseOutcome -> bool, kind: CaseOutcome -> bool)
    requires forall o :: p(o) == kind(o)
    ensures Count(outcomes, p) == Cases(outcomes, kind)
  {
    FilterExtensional(outcomes, p, kind);
    CountIsIndices(outcomes, kind);
  }

  // ---- Without a primary grader ----

  /** pass@1: the cases that pass at once, of those that do not error at once. */
  lemma PassAtOneMeans(outcomes: seq<CaseOutcome>)
    requires outcomes != []
    ensures IsShare(Compute(PassAtOne, outcomes, None), Cases(outcomes, AtOnce()), Cases(outcomes, NoErrorAtOnce()))
  {
    CasesCounted(outcomes, ScoredPass, AtOnce());
    CasesCounted(outcomes, NotErrored, NoErrorAtOnce());
  }

  /** pass@k: the cases that pass in one of their first k repetitions. */
  lemma PassAtMeans(outcomes: seq<CaseOutcome>, k: int)
    requires outcomes != []
    ensures IsShare(Compute(PassAt(k), outcomes, None), Cases(outcomes, Within(k)), |outcomes|)
  {
    forall o: CaseOutcome { WindowIs(o.labels, k); }
    CasesCounted(outcomes, AnyPassIn(k), Within(k));
  }

  /** pass^k: the cases with k repetitions or more whose first k all pass. */
  lemma PassHatMeans(outcomes: seq<CaseOutcome>, k: int)
    requires outcomes != []
    ensures IsShare(Compute(PassHat(k), outcomes, None), Cases(outcomes, Throughout(k)), |outcomes|)
  {
    forall o: CaseOutcome { WindowIs(o.labels, k); }
    CasesCounted(outcomes, AllPassIn(k), Throughout(k));
  }

  /** One case with k repetitions that count: pass^k is 1 iff they all pass. */
  lemma PassHatOfOne(o: CaseOutcome, k: int)
    ensures Compute(PassHat(k), [o], None) == Ok(1.0) <==> PassesThroughout(o.labels, k)
  {
    PassHatMeans([o], k);
    assert Indices([o], Throughout(k)) == if PassesThroughout(o.labels, k) then {0} else {};
  }

  /** recovery: of the cases that do not pass at once, those that pass later. */
  lemma RecoveryMeans(outcomes: seq<CaseOutcome>, grader: Option<string>)
    requires outcomes != []
    ensures IsShare(Compute(RecoveryRate, outcomes, grader), Cases(outcomes, BadThenGood()), Cases(outcomes, Bad()))
  {
    forall o: CaseOutcome { LaterIs(o.labels); }
    CasesCounted(outcomes, Recovered, BadThenGood());
    CasesCounted(outcomes, NotPassedFirst, Bad());
  }

  lemma LaterIs(labels: seq<GradeLabel>)
    ensures labels != [] ==> (PASS in labels[1..] <==> PassesLater(labels))
  {
    if labels != [] {
      if PASS in labels[1..] {
        var i :| 0 <= i < |labels[1..]| && labels[1..][i] == PASS;
        assert labels[i + 1] == PASS;
      }
      if i :| 0 < i < |labels| && labels[i] == PASS { assert labels[1..][i - 1] == PASS; }
    }
  }

  ghost function IsPass(): GradeLabel -> bool { (g: GradeLabel) => g == PASS }

  /** The cases' shares of passing repetitions, added up. */
  ghost function ConsistencyTotal(outcomes: seq<CaseOutcome>): real {
    if outcomes == [] then 0.0
    else
      var labels := outcomes[0].labels;
      (if labels == [] then 0.0 else |Indices(labels, IsPass())| as real / |labels| as real)
      + ConsistencyTotal(outcomes[1..])
  }

  lemma OneConsistency(o: CaseOutcome)
    ensures Consistency(o) == if o.labels == [] then 0.0 else |Indices(o.labels, IsPass())| as real / |o.labels| as real
  {
    FilterExtensional(o.labels, Passed, IsPass());
    CountIsIndices(o.labels, IsPass());
  }

  lemma {:induction false} ConsistencyAdds(outcomes: seq<CaseOutcome>)
    ensures Sum(outcomes, Consistency) == ConsistencyTotal(outcomes)
  {
    if outcomes != [] {
      ConsistencyAdds(outcomes[1..]);
      OneConsistency(outcomes[0]);
    }
  }

  /** Consistency, under both its names: the mean share of passing repetitions. */
  lemma ConsistencyMeans(outcomes: seq<CaseOutcome>, grader: Option<string>)
    requires outcomes != []
    ensures Compute(ConsistencyRate, outcomes, grader) == Ok(Average(ConsistencyTotal(outcomes), |outcomes|))
    ensures Compute(StabilityScore, outcomes, grader) == Ok(Average(ConsistencyTotal(outcomes), |outcomes|))
  {
    ConsistencyAdds(outcomes);
  }

  ghost function Average(total: real, n: nat): real
    requires n > 0
  {
    total / n as real
  }

  /** No case at all is 0 under any name; otherwise a name that is not supported is an error. */
  lemma OtherwiseMeans(metric: Metric, outcomes: seq<CaseOutcome>, grader: Option<string>)
    ensures Compute(metric, [], grader) == Ok(0.0)
    ensures outcomes != [] ==>
              (Compute(metric, outcomes, grader) == Err(ValueError)
               <==> !(metric.PassAtOne? || metric.PassAt? || metric.PassHat? || metric.ConsistencyRate?
                      || metric.StabilityScore? || metric.RecoveryRate?))
  {
  }

  // ---- Against a primary grader ----

  /** The pass metrics of a primary grader: of the cases it ran on, those its own labels make hits. */
  lemma GraderMeans(outcomes: seq<CaseOutcome>, g: string, k: int)
    requires outcomes != []
    ensures var ran := Cases(outcomes, RanUnder(g));
            && IsShare(Compute(PassAtOne, outcomes, Some(g)), Cases(outcomes, AtOnceUnder(g)), ran)
            && IsShare(Compute(PassAt(k), outcomes, Some(g)), Cases(outcomes, WithinUnder(g, k)), ran)
            && IsShare(Compute(PassHat(k), outcomes, Some(g)), Cases(outcomes, ThroughoutUnder(g, k)), ran)
  {
    RanCounted(outcomes, g);
    AnyCounted(outcomes, g, k);
    AllCounted(outcomes, g, k);
  }

  lemma RanCounted(outcomes: seq<CaseOutcome>, g: string)
    ensures Count(outcomes, RanFor(g)) == Cases(outcomes, RanUnder(g))
    ensures Count(outcomes, PassesFor(g)) == Cases(outcomes, AtOnceUnder(g))
  {
    CasesCounted(outcomes, RanFor(g), RanUnder(g));
    CasesCounted(outcomes, PassesFor(g), AtOnceUnder(g));
  }

  lemma AnyCounted(outcomes: seq<CaseOutcome>, g: string, k: int)
    ensures Count(outcomes, AnyPassFor(g, k)) == Cases(outcomes, WithinUnder(g, k))
  {
    forall o: CaseOutcome | RanOn(o, g) { WindowIs(o.perGrader[g], k); }
    CasesCounted(outcomes, AnyPassFor(g, k), WithinUnder(g, k));
  }

  lemma AllCounted(outcomes: seq<CaseOutcome>, g: string, k: int)
    ensures Count(outcomes, AllPassFor(g, k)) == Cases(outcomes, ThroughoutUnder(g, k))
  {
    forall o: CaseOutcome | RanOn(o, g) { WindowIs(o.perGrader[g], k); }
    CasesCounted(outcomes, AllPassFor(g, k), ThroughoutUnder(g, k));
  }
}
