/**
 Grading one case (optimization/scenario_exec.py, optimization/aggregator.py): how a
 conversation's turns collapse into threads, and how grades become a case outcome.
 */
module ScenarioExec {
  import opened Wrappers
  import opened Sums
  import opened Counters
  import opened Ordering
  import opened Grades
  import opened CellKeys
  import opened Text

  /** One executed repetition, or one turn of a conversation, and what its trace says. */
  datatype Repetition = Repetition(
    threadId: Option<string>,
    traceId: string,
    position: Option<int>,
    errored: bool,
    costUsd: real,
    durationMs: int,
    llmSpans: seq<bool>)

  datatype Turn = Turn(rep: Repetition, grades: seq<GradeResult>)

  // ---- Collapsing a conversation ----

  function ThreadOf(turn: Turn): string {
    if turn.rep.threadId.Some? && turn.rep.threadId.value != "" then turn.rep.threadId.value else turn.rep.traceId
  }

  function InThread(thread: string): Turn -> bool { (t: Turn) => ThreadOf(t) == thread }

  function Position(turn: Turn): int { if turn.rep.position.Some? then turn.rep.position.value else 0 }
  predicate PositionLe(a: Turn, b: Turn) { Position(a) <= Position(b) }

  function Group(turns: seq<Turn>, thread: string): seq<Turn> { Filter(turns, InThread(thread)) }

  /** A thread's turns by position; turns at the same position keep their order. */
  function InOrder(turns: seq<Turn>, thread: string): seq<Turn> { Sort(Group(turns, thread), PositionLe) }

  function ChildrenOfGrade(turn: Turn, g: nat): seq<BreakdownNode> {
    if g < |turn.grades| && turn.grades[g].breakdown.Some? then turn.grades[g].breakdown.value.children else []
  }

  /** The advisory node of one turn under one grader: weight 0, so it never moves a score. */
  function TurnNode(turn: Turn, position: nat, g: nat): BreakdownNode {
    BreakdownNode(
      "turn_" + Decimal(position),
      if g < |turn.grades| then Some(turn.grades[g].grade) else None,
      if g < |turn.grades| then turn.grades[g].score else None,
      0.0, "per-turn diagnostic (advisory)", [],
      ChildrenOfGrade(turn, g))
  }

  function TurnNodes(turns: seq<Turn>, from: nat, g: nat): seq<BreakdownNode> {
    if turns == [] then [] else [TurnNode(turns[0], from, g)] + TurnNodes(turns[1..], from + 1, g)
  }

  function Conversation(final: GradeResult, turns: seq<Turn>, g: nat): GradeResult {
    final.(breakdown := Some(BreakdownNode("conversation", Some(final.grade), final.score, 1.0, "", [],
                                           TurnNodes(turns, 0, g))))
  }

  /** The synthetic grades of a thread: the final turn's, each over one node per turn. */
  function Synthetic(turns: seq<Turn>): (r: seq<GradeResult>)
    requires turns != []
    ensures |r| == |turns[|turns| - 1].grades|
    ensures forall g :: 0 <= g < |r| ==> r[g] == Conversation(turns[|turns| - 1].grades[g], turns, g)
  {
    var final := turns[|turns| - 1].grades;
    seq(|final|, g requires 0 <= g < |final| => Conversation(final[g], turns, g))
  }

  function AnyError(turns: seq<Turn>): bool { exists t :: t in turns && t.rep.errored }

  /** One thread as a single repetition: the final turn's trace, and the first error of any turn. */
  function CollapseThread(turns: seq<Turn>): Turn
    requires turns != []
  {
    Turn(turns[|turns| - 1].rep.(errored := AnyError(turns)), Synthetic(turns))
  }

  /** The threads in order of first appearance. */
  ghost predicate ThreadsInOrder(turns: seq<Turn>, order: seq<string>) {
    KeysInOrder(Map(turns, ThreadOf), order)
  }

  /** A thread is there, and is collapsed to `c`. */
  ghost predicate CollapsedAs(turns: seq<Turn>, thread: string, c: Turn) {
    InOrder(turns, thread) != [] && c == CollapseThread(InOrder(turns, thread))
  }

  /** The first `n` threads, as they were collapsed. */
  ghost predicate AllCollapsed(turns: seq<Turn>, threads: seq<string>, n: nat, collapsed: seq<Turn>) {
    && |collapsed| == n <= |threads|
    && forall i :: 0 <= i < n ==> CollapsedAs(turns, threads[i], collapsed[i])
  }

  lemma CollapsedNext(turns: seq<Turn>, threads: seq<string>, n: nat, collapsed: seq<Turn>, c: Turn)
    requires n < |threads| && AllCollapsed(turns, threads, n, collapsed) && CollapsedAs(turns, threads[n], c)
    ensures AllCollapsed(turns, threads, n + 1, collapsed + [c])
  {
  }

  /** Files one turn under its thread, which may be new. */
  method FileTurn(threads: seq<string>, byThread: map<string, seq<Turn>>, turn: Turn)
    returns (threads': seq<string>, byThread': map<string, seq<Turn>>)
    ensures var thread := ThreadOf(turn);
            && threads' == (if thread in byThread then threads else threads + [thread])
            && byThread' == byThread[thread := (if thread in byThread then byThread[thread] else []) + [turn]]
  {
    var thread := ThreadOf(turn);
    threads', byThread' := threads, byThread;
    if thread !in byThread {
      byThread', threads' := byThread[thread := []], threads + [thread];
    }
    byThread' := byThread'[thread := byThread'[thread] + [turn]];
  }

  /** The turns by thread, in the order in which the threads first appear. */
  method GroupByThread(reps: seq<Repetition>, gradesPerTurn: seq<seq<GradeResult>>)
    returns (threads: seq<string>, byThread: map<string, seq<Turn>>)
    requires |reps| == |gradesPerTurn|
    ensures Grouped(Zip(reps, gradesPerTurn), threads, byThread)
  {
    ghost var turns := Zip(reps, gradesPerTurn);
    threads, byThread := [], map[];
    for i := 0 to |reps|
      invariant Grouped(turns[..i], threads, byThread)
    {
      var turn := Turn(reps[i], gradesPerTurn[i]);
      GroupedLast(turns[..i], turn, turns[..i + 1], threads, byThread);
      threads, byThread := FileTurn(threads, byThread, turn);
    }
    assert turns[..|turns|] == turns;
  }

  /** `collapse_conversation_turns`; repetitions and grades of different lengths raise ValueError. */
  method Collapse(reps: seq<Repetition>, gradesPerTurn: seq<seq<GradeResult>>)
    returns (r: Result<seq<Turn>>, ghost order: seq<string>)
    ensures r.Ok? <==> |reps| == |gradesPerTurn|
    ensures r.Ok? ==>
              var turns := Zip(reps, gradesPerTurn);
              ThreadsInOrder(turns, order) && AllCollapsed(turns, order, |order|, r.value)
  {
    order := [];
    if |reps| != |gradesPerTurn| { return Err(ValueError), order; }
    ghost var turns := Zip(reps, gradesPerTurn);
    var threads, byThread := GroupByThread(reps, gradesPerTurn);
    var collapsed: seq<Turn> := [];
    for i := 0 to |threads|
      invariant AllCollapsed(turns, threads, i, collapsed)
    {
      ThreadThere(turns, threads, byThread, i);
      var inOrder := Sort(byThread[threads[i]], PositionLe);
      CollapsedNext(turns, threads, i, collapsed, CollapseThread(inOrder));
      collapsed := collapsed + [CollapseThread(inOrder)];
    }
    return Ok(collapsed), threads;
  }

  function Zip(reps: seq<Repetition>, grades: seq<seq<GradeResult>>): (r: seq<Turn>)
    requires |reps| == |grades|
    ensures |r| == |reps| && forall i :: 0 <= i < |r| ==> r[i] == Turn(reps[i], grades[i])
  {
    seq(|reps|, i requires 0 <= i < |reps| => Turn(reps[i], grades[i]))
  }

  ghost predicate Grouped(turns: seq<Turn>, threads: seq<string>, byThread: map<string, seq<Turn>>) {
    && ThreadsInOrder(turns, threads)
    && byThread.Keys == (set t | t in threads)
    && forall t :: t in byThread ==> byThread[t] == Group(turns, t)
  }

  lemma {:induction false} MapSnoc(turns: seq<Turn>, turn: Turn)
    ensures Map(turns + [turn], ThreadOf) == Map(turns, ThreadOf) + [ThreadOf(turn)]
  {
  }

  lemma GroupLast(turns: seq<Turn>, turn: Turn, thread: string)
    ensures Group(turns + [turn], thread)
            == if ThreadOf(turn) == thread then Group(turns, thread) + [turn] else Group(turns, thread)
  {
    FilterAppend(turns, [turn], InThread(thread));
  }

  lemma GroupExists(turns: seq<Turn>, thread: string)
    ensures Group(turns, thread) != [] <==> thread in Map(turns, ThreadOf)
  {
    CountPositive(turns, InThread(thread));
    if t :| t in turns && InThread(thread)(t) {
      var i :| 0 <= i < |turns| && turns[i] == t;
      assert Map(turns, ThreadOf)[i] == thread;
    }
    if thread in Map(turns, ThreadOf) {
      var i :| 0 <= i < |turns| && ThreadOf(turns[i]) == thread;
      assert turns[i] in turns && InThread(thread)(turns[i]);
    }
  }

  lemma GroupedLast(turns: seq<Turn>, turn: Turn, more: seq<Turn>, threads: seq<string>,
                    byThread: map<string, seq<Turn>>)
    requires Grouped(turns, threads, byThread) && more == turns + [turn]
    ensures var thread := ThreadOf(turn);
            var threads' := if thread in byThread then threads else threads + [thread];
            var group := if thread in byThread then byThread[thread] else [];
            Grouped(more, threads', byThread[thread := group + [turn]])
  {
    ThreadsLast(turns, turn, threads, byThread.Keys);
    GroupsLast(turns, turn, byThread);
  }

  lemma ThreadsLast(turns: seq<Turn>, turn: Turn, threads: seq<string>, known: set<string>)
    requires ThreadsInOrder(turns, threads) && known == (set t | t in threads)
    ensures var thread := ThreadOf(turn);
            var threads' := if thread in known then threads else threads + [thread];
            && ThreadsInOrder(turns + [turn], threads')
            && known + {thread} == (set t | t in threads')
            && (thread !in known ==> Group(turns, thread) == [])
  {
    ThreadsSnoc(turns, turn, threads);
    assert ThreadOf(turn) in known <==> ThreadOf(turn) in threads;
    GroupExists(turns, ThreadOf(turn));
  }

  lemma ThreadsSnoc(turns: seq<Turn>, turn: Turn, threads: seq<string>)
    requires ThreadsInOrder(turns, threads)
    ensures ThreadsInOrder(turns + [turn], if ThreadOf(turn) in threads then threads else threads + [ThreadOf(turn)])
    ensures ThreadOf(turn) in threads <==> ThreadOf(turn) in Map(turns, ThreadOf)
  {
    MapSnoc(turns, turn);
    KeysInOrderSnoc(Map(turns, ThreadOf), threads, ThreadOf(turn));
  }

  lemma GroupsLast(turns: seq<Turn>, turn: Turn, byThread: map<string, seq<Turn>>)
    requires forall t :: t in byThread ==> byThread[t] == Group(turns, t)
    requires ThreadOf(turn) !in byThread ==> Group(turns, ThreadOf(turn)) == []
    ensures var thread := ThreadOf(turn);
            var grown := byThread[thread := (if thread in byThread then byThread[thread] else []) + [turn]];
            forall t :: t in grown ==> grown[t] == Group(turns + [turn], t)
  {
    var thread := ThreadOf(turn);
    var grown := byThread[thread := (if thread in byThread then byThread[thread] else []) + [turn]];
    forall t | t in grown
      ensures grown[t] == Group(turns + [turn], t)
    {
      GroupLast(turns, turn, t);
    }
  }

  lemma ThreadThere(turns: seq<Turn>, threads: seq<string>, byThread: map<string, seq<Turn>>, i: nat)
    requires Grouped(turns, threads, byThread) && i < |threads|
    ensures threads[i] in byThread
    ensures var inOrder := Sort(byThread[threads[i]], PositionLe);
            inOrder != [] && CollapsedAs(turns, threads[i], CollapseThread(inOrder))
  {
    assert threads[i] in Map(turns, ThreadOf);
    var j :| 0 <= j < |turns| && ThreadOf(turns[j]) == threads[i];
    FilterMember(turns, InThread(threads[i]), turns[j]);
    SortPermutes(Group(turns, threads[i]), PositionLe);
  }

  // ---- What a collapse keeps ----

  function GradeCells(grade: GradeResult): seq<Pair> {
    if grade.breakdown.Some? then CellsOf(grade.breakdown.value) else []
  }
  function RootCell(grade: GradeResult): seq<Pair> {
    if grade.breakdown.Some? then OwnCell(grade.breakdown.value) else []
  }
  function ChildCells(grade: GradeResult): seq<Pair> {
    if grade.breakdown.Some? then CellsOfAll(grade.breakdown.value.children) else []
  }

  /** The confusion cells of a turn. */
  function TurnCells(turn: Turn): seq<Pair> { FlatMap(turn.grades, GradeCells) }

  function GradeAt(g: nat): Turn -> seq<Pair> {
    (t: Turn) => if g < |t.grades| then ChildCells(t.grades[g]) else []
  }

  /** What a turn contributes to a thread with `width` grades: the children of its first `width` grades. */
  function Kept(width: nat): Turn -> seq<Pair> { (t: Turn) => KeptOf(t, width) }

  function KeptOf(t: Turn, width: nat): seq<Pair> {
    if width == 0 then [] else KeptOf(t, width - 1) + GradeAt(width - 1)(t)
  }

  /** What it does not: cells on a breakdown's root, and the grades beyond `width`. */
  function LostOf(t: Turn, width: nat): seq<Pair> {
    FlatMap(t.grades, RootCell) + Beyond(t.grades, width)
  }

  function Width(turns: seq<Turn>, thread: string): nat {
    var inOrder := InOrder(turns, thread);
    if inOrder == [] then 0 else |inOrder[|inOrder| - 1].grades|
  }

  function Lost(turns: seq<Turn>): Turn -> seq<Pair> { (t: Turn) => LostOf(t, Width(turns, ThreadOf(t))) }

  lemma {:induction false} KeptIsPrefix(t: Turn, width: nat)
    ensures KeptOf(t, width) == FlatMap(if width < |t.grades| then t.grades[..width] else t.grades, ChildCells)
  {
    if width > 0 {
      KeptIsPrefix(t, width - 1);
      if width - 1 < |t.grades| {
        FlatMapSnoc(t.grades, width - 1, ChildCells);
        assert width == |t.grades| ==> t.grades[..width] == t.grades;
      }
    }
  }

  lemma {:induction false} CellsSplit(grades: seq<GradeResult>)
    ensures multiset(FlatMap(grades, GradeCells))
            == multiset(FlatMap(grades, RootCell)) + multiset(FlatMap(grades, ChildCells))
  {
    if grades != [] { CellsSplit(grades[1..]); }
  }

  /** A turn's cells are what it contributes and what is lost. */
  lemma TurnSplit(t: Turn, width: nat)
    ensures multiset(TurnCells(t)) == multiset(KeptOf(t, width)) + multiset(LostOf(t, width))
  {
    CellsSplit(t.grades);
    KeptIsPrefix(t, width);
    BeyondSplit(t.grades, width);
  }

  function Beyond(grades: seq<GradeResult>, width: nat): seq<Pair> {
    if width < |grades| then FlatMap(grades[width..], ChildCells) else []
  }

  lemma BeyondSplit(grades: seq<GradeResult>, width: nat)
    ensures FlatMap(grades, ChildCells)
            == FlatMap(if width < |grades| then grades[..width] else grades, ChildCells) + Beyond(grades, width)
  {
    if width < |grades| {
      assert grades == grades[..width] + grades[width..];
      FlatMapAppend(grades[..width], grades[width..], ChildCells);
    }
  }

  lemma KeysAreNoCells(position: nat)
    ensures ParseCellKey("conversation") == None && ParseCellKey("turn_" + Decimal(position)) == None
  {
    assert "conversation"[1] == 'o' && ("turn_" + Decimal(position))[0] == 't' && PREFIX[1] == 'e' && PREFIX[0] == 'c';
  }

  /** A turn's node shows the cells of the breakdown beneath its grade, and none of its own. */
  lemma OneTurnCells(turn: Turn, position: nat, g: nat)
    ensures CellsOf(TurnNode(turn, position, g)) == GradeAt(g)(turn)
  {
    KeysAreNoCells(position);
    assert OwnCell(TurnNode(turn, position, g)) == [];
    assert [] + GradeAt(g)(turn) == GradeAt(g)(turn);
  }

  lemma TurnNodesFirst(turns: seq<Turn>, from: nat, g: nat)
    requires turns != []
    ensures CellsOfAll(TurnNodes(turns, from, g))
            == CellsOf(TurnNode(turns[0], from, g)) + CellsOfAll(TurnNodes(turns[1..], from + 1, g))
  {
    var first, rest := TurnNode(turns[0], from, g), TurnNodes(turns[1..], from + 1, g);
    assert ([first] + rest)[1..] == rest;
  }

  lemma {:induction false} TurnNodeCells(turns: seq<Turn>, from: nat, g: nat)
    ensures CellsOfAll(TurnNodes(turns, from, g)) == FlatMap(turns, GradeAt(g))
  {
    if turns != [] {
      TurnNodeCells(turns[1..], from + 1, g);
      OneTurnCells(turns[0], from, g);
      TurnNodesFirst(turns, from, g);
    }
  }

  lemma ConversationCells(final: GradeResult, turns: seq<Turn>, g: nat)
    ensures GradeCells(Conversation(final, turns, g)) == FlatMap(turns, GradeAt(g))
  {
    KeysAreNoCells(0);
    TurnNodeCells(turns, 0, g);
  }

  lemma {:induction false} FlatMapUnion<T, U>(s: seq<T>, f: T -> seq<U>, g: T -> seq<U>, h: T -> seq<U>)
    requires forall x :: x in s ==> multiset(h(x)) == multiset(f(x)) + multiset(g(x))
    ensures multiset(FlatMap(s, h)) == multiset(FlatMap(s, f)) + multiset(FlatMap(s, g))
  {
    if s != [] { FlatMapUnion(s[1..], f, g, h); }
  }

  /** The cells of the first `n` synthetic grades are the kept cells of the thread's turns. */
  lemma {:induction false} SyntheticCells(turns: seq<Turn>, final: seq<GradeResult>, r: seq<GradeResult>, n: nat)
    requires n <= |r| == |final| && forall g :: 0 <= g < |r| ==> r[g] == Conversation(final[g], turns, g)
    ensures multiset(FlatMap(r[..n], GradeCells)) == multiset(FlatMap(turns, Kept(n)))
  {
    if n == 0 {
      FlatMapEmpty(turns, Kept(0));
    } else {
      SyntheticCells(turns, final, r, n - 1);
      SyntheticNext(turns, final, r, n - 1);
      KeptNext(turns, n);
    }
  }

  lemma SyntheticNext(turns: seq<Turn>, final: seq<GradeResult>, r: seq<GradeResult>, n: nat)
    requires n < |r| == |final| && r[n] == Conversation(final[n], turns, n)
    ensures multiset(FlatMap(r[..n + 1], GradeCells))
            == multiset(FlatMap(r[..n], GradeCells)) + multiset(FlatMap(turns, GradeAt(n)))
  {
    FlatMapSnoc(r, n, GradeCells);
    ConversationCells(final[n], turns, n);
  }

  lemma KeptNext(turns: seq<Turn>, n: nat)
    requires n > 0
    ensures multiset(FlatMap(turns, Kept(n)))
            == multiset(FlatMap(turns, Kept(n - 1))) + multiset(FlatMap(turns, GradeAt(n - 1)))
  {
    FlatMapUnion(turns, Kept(n - 1), GradeAt(n - 1), Kept(n));
  }

  lemma {:induction false} FlatMapEmpty<T, U>(s: seq<T>, f: T -> seq<U>)
    requires forall x :: x in s ==> f(x) == []
    ensures FlatMap(s, f) == []
  {
    if s != [] { FlatMapEmpty(s[1..], f); }
  }

  lemma ThreadCells(turns: seq<Turn>)
    requires turns != []
    ensures multiset(TurnCells(CollapseThread(turns))) == multiset(FlatMap(turns, Kept(|turns[|turns| - 1].grades|)))
  {
    var r := Synthetic(turns);
    SyntheticCells(turns, turns[|turns| - 1].grades, r, |r|);
    assert r[..|r|] == r;
  }

  // ---- Summing over threads ----

  function GroupOf(turns: seq<Turn>): string -> seq<Turn> { thread => Group(turns, thread) }
  function Anywhere(order: seq<string>): Turn -> bool { (t: Turn) => ThreadOf(t) in order }

  lemma {:induction false} FilterUnion<T>(s: seq<T>, p: T -> bool, q: T -> bool, r: T -> bool)
    requires forall x :: x in s ==> (r(x) <==> p(x) || q(x)) && !(p(x) && q(x))
    ensures multiset(Filter(s, r)) == multiset(Filter(s, p)) + multiset(Filter(s, q))
  {
    if s != [] { FilterUnion(s[1..], p, q, r); }
  }

  lemma {:induction false} GroupsPartition(turns: seq<Turn>, order: seq<string>)
    requires Distinct(order)
    ensures multiset(FlatMap(order, GroupOf(turns))) == multiset(Filter(turns, Anywhere(order)))
  {
    if order == [] {
      FilterExtensional(turns, Anywhere(order), Nothing<Turn>());
      FilterNothing(turns);
    } else {
      GroupsPartition(turns, order[1..]);
      FilterUnion(turns, InThread(order[0]), Anywhere(order[1..]), Anywhere(order));
    }
  }

  lemma GroupsPermute(turns: seq<Turn>, order: seq<string>)
    requires ThreadsInOrder(turns, order)
    ensures Permutes(FlatMap(order, GroupOf(turns)), turns)
  {
    GroupsPartition(turns, order);
    forall t | t in turns
      ensures Anywhere(order)(t)
    {
      var i :| 0 <= i < |turns| && turns[i] == t;
      assert Map(turns, ThreadOf)[i] in order;
    }
    FilterAll(turns, Anywhere(order));
  }

  /** What a conversation's turns are worth under `f`, thread by thread. */
  function PerThread(turns: seq<Turn>, f: Turn -> seq<Pair>): string -> seq<Pair> {
    thread => FlatMap(Group(turns, thread), f)
  }

  lemma {:induction false} FlatMapCompose<A, B, C>(s: seq<A>, f: A -> seq<B>, g: B -> seq<C>, h: A -> seq<C>)
    requires forall x :: x in s ==> h(x) == FlatMap(f(x), g)
    ensures FlatMap(FlatMap(s, f), g) == FlatMap(s, h)
  {
    if s != [] {
      FlatMapCompose(s[1..], f, g, h);
      FlatMapAppend(f(s[0]), FlatMap(s[1..], f), g);
    }
  }

  lemma ThreadsAddUp(turns: seq<Turn>, order: seq<string>, f: Turn -> seq<Pair>)
    requires ThreadsInOrder(turns, order)
    ensures Permutes(FlatMap(order, PerThread(turns, f)), FlatMap(turns, f))
  {
    GroupsPermute(turns, order);
    FlatMapPermutes(FlatMap(order, GroupOf(turns)), turns, f);
    FlatMapCompose(order, GroupOf(turns), f, PerThread(turns, f));
  }

  lemma OneThread(turns: seq<Turn>, thread: string, c: Turn)
    requires CollapsedAs(turns, thread, c)
    ensures multiset(TurnCells(c)) + multiset(PerThread(turns, Lost(turns))(thread))
            == multiset(PerThread(turns, TurnCells)(thread))
  {
    var group, inOrder, width := Group(turns, thread), InOrder(turns, thread), Width(turns, thread);
    ThreadCells(inOrder);
    SortPermutes(group, PositionLe);
    FlatMapPermutes(inOrder, group, Kept(width));
    forall t | t in group
      ensures multiset(TurnCells(t)) == multiset(Kept(width)(t)) + multiset(Lost(turns)(t))
    {
      FilterMember(turns, InThread(thread), t);
      TurnSplit(t, width);
    }
    FlatMapUnion(group, Kept(width), Lost(turns), TurnCells);
  }

  lemma {:induction false} AllThreads(turns: seq<Turn>, order: seq<string>, collapsed: seq<Turn>)
    requires AllCollapsed(turns, order, |order|, collapsed)
    ensures multiset(FlatMap(collapsed, TurnCells)) + multiset(FlatMap(order, PerThread(turns, Lost(turns))))
            == multiset(FlatMap(order, PerThread(turns, TurnCells)))
  {
    if order != [] {
      AllThreads(turns, order[1..], collapsed[1..]);
      OneThread(turns, order[0], collapsed[0]);
    }
  }

  /**
   Collapsing a conversation keeps every confusion cell but those the source discards: the
   cells of the collapsed threads and the lost ones together are the cells of the turns.
   */
  lemma CollapseConservesCells(turns: seq<Turn>, order: seq<string>, collapsed: seq<Turn>)
    requires ThreadsInOrder(turns, order) && AllCollapsed(turns, order, |order|, collapsed)
    ensures multiset(FlatMap(collapsed, TurnCells)) + multiset(FlatMap(turns, Lost(turns)))
            == multiset(FlatMap(turns, TurnCells))
  {
    AllThreads(turns, order, collapsed);
    ThreadsAddUp(turns, order, Lost(turns));
    ThreadsAddUp(turns, order, TurnCells);
  }

  lemma {:induction false} FlatMapNone(s: seq<Turn>, f: Turn -> seq<Pair>)
    requires FlatMap(s, f) == []
    ensures forall t :: t in s ==> f(t) == []
  {
    if s != [] {
      assert |FlatMap(s, f)| == |f(s[0])| + |FlatMap(s[1..], f)|;
      FlatMapNone(s[1..], f);
      assert forall t :: t in s ==> t == s[0] || t in s[1..];
    }
  }

  /** So the cells survive as a multiset exactly when no turn loses any. */
  lemma CellsSurviveExactly(turns: seq<Turn>, order: seq<string>, collapsed: seq<Turn>)
    requires ThreadsInOrder(turns, order) && AllCollapsed(turns, order, |order|, collapsed)
    ensures Permutes(FlatMap(collapsed, TurnCells), FlatMap(turns, TurnCells))
            <==> forall t :: t in turns ==> LostOf(t, Width(turns, ThreadOf(t))) == []
  {
    CollapseConservesCells(turns, order, collapsed);
    var lost := FlatMap(turns, Lost(turns));
    assert Permutes(FlatMap(collapsed, TurnCells), FlatMap(turns, TurnCells)) <==> multiset(lost) == multiset{};
    assert |multiset(lost)| == |lost|;
    if lost == [] {
      FlatMapNone(turns, Lost(turns));
    } else if forall t :: t in turns ==> LostOf(t, Width(turns, ThreadOf(t))) == [] {
      FlatMapEmpty(turns, Lost(turns));
    }
  }

  /** Classification grades, one per grader on every turn of a thread, lose nothing. */
  lemma UniformClassificationLosesNothing(t: Turn, width: nat)
    requires |t.grades| <= width
    requires forall g :: g in t.grades && g.breakdown.Some? ==> g.breakdown.value.key == "classification"
    ensures LostOf(t, width) == []
  {
    assert "classification"[1] == 'l' && PREFIX[1] == 'e';
    FlatMapEmpty(t.grades, RootCell);
  }

  /** The verdict of a collapsed thread is its final turn's, and no turn of the thread comes later. */
  lemma VerdictIsFinalTurns(turns: seq<Turn>, thread: string, c: Turn)
    requires CollapsedAs(turns, thread, c)
    ensures var inOrder := InOrder(turns, thread);
            var final := inOrder[|inOrder| - 1];
            && final in turns && ThreadOf(final) == thread
            && (forall t :: t in turns && ThreadOf(t) == thread ==> Position(t) <= Position(final))
            && |c.grades| == |final.grades|
            && forall g :: 0 <= g < |c.grades| ==>
                 c.grades[g].grade == final.grades[g].grade && c.grades[g].score == final.grades[g].score
  {
    SortSorted(Group(turns, thread), PositionLe);
    var inOrder := InOrder(turns, thread);
    forall t { InOrderMember(turns, thread, t); }
    assert inOrder[|inOrder| - 1] in inOrder;
  }

  lemma InOrderMember(turns: seq<Turn>, thread: string, t: Turn)
    ensures t in InOrder(turns, thread) <==> t in turns && ThreadOf(t) == thread
  {
    var group, inOrder := Group(turns, thread), InOrder(turns, thread);
    SortPermutes(group, PositionLe);
    FilterMember(turns, InThread(thread), t);
    SameMembers(inOrder, group);
  }

  // ---- What a collapsed thread shows ----

  /** The node of one turn under one grader: what the turn got there, without weight. */
  ghost predicate ShowsTurn(node: BreakdownNode, turn: Turn, position: nat, g: nat) {
    && node.key == "turn_" + Decimal(position) && node.weight == 0.0 && node.failureModes == []
    && (if g >= |turn.grades| then node.grade == None && node.score == None && node.children == []
        else
          && node.grade == Some(turn.grades[g].grade) && node.score == turn.grades[g].score
          && node.children == (if turn.grades[g].breakdown.Some? then turn.grades[g].breakdown.value.children else []))
  }

  /** A grade of a collapsed thread: the final turn's, over one node per turn. */
  ghost predicate ShowsThread(grade: GradeResult, final: GradeResult, turns: seq<Turn>, g: nat) {
    && grade.grader == final.grader && grade.grade == final.grade && grade.score == final.score
    && grade.reason == final.reason && grade.failureModes == final.failureModes && grade.breakdown.Some?
    && var root := grade.breakdown.value;
       && root.key == "conversation" && root.grade == Some(final.grade) && root.score == final.score
       && root.weight == 1.0 && |root.children| == |turns|
       && forall i :: 0 <= i < |turns| ==> ShowsTurn(root.children[i], turns[i], i, g)
  }

  lemma OneTurnShows(turn: Turn, position: nat, g: nat)
    ensures ShowsTurn(TurnNode(turn, position, g), turn, position, g)
  {
  }

  lemma {:induction false} TurnNodesAt(turns: seq<Turn>, from: nat, g: nat, i: nat)
    ensures |TurnNodes(turns, from, g)| == |turns|
    ensures i < |turns| ==> TurnNodes(turns, from, g)[i] == TurnNode(turns[i], from + i, g)
  {
    if turns != [] {
      var rest := turns[1..];
      TurnNodesAt(rest, from + 1, g, if i > 0 then i - 1 else 0);
      if 0 < i < |turns| { assert turns[i] == rest[i - 1]; }
    }
  }

  lemma TurnNodesShow(turns: seq<Turn>, g: nat)
    ensures |TurnNodes(turns, 0, g)| == |turns|
    ensures forall i :: 0 <= i < |turns| ==> ShowsTurn(TurnNodes(turns, 0, g)[i], turns[i], i, g)
  {
    TurnNodesAt(turns, 0, g, 0);
    forall i | 0 <= i < |turns|
      ensures ShowsTurn(TurnNodes(turns, 0, g)[i], turns[i], i, g)
    {
      TurnNodesAt(turns, 0, g, i);
      OneTurnShows(turns[i], i, g);
    }
  }

  /** A turn belongs to the thread its trace names, and to the trace itself when it names none. */
  ghost predicate Belongs(turn: Turn, thread: string) {
    var named := turn.rep.threadId;
    if named == None || named == Some("") then turn.rep.traceId == thread else named == Some(thread)
  }

  /** The place of a turn in its thread; one without a position counts as the first. */
  ghost function Place(turn: Turn): int {
    if turn.rep.position == None then 0 else turn.rep.position.value
  }

  ghost function AtPlace(place: int): Turn -> bool { (t: Turn) => Place(t) == place }
  ghost function In(thread: string): Turn -> bool { (t: Turn) => Belongs(t, thread) }

  ghost predicate PlacesRise(turns: seq<Turn>) {
    forall i, j :: 0 <= i < j < |turns| ==> Place(turns[i]) <= Place(turns[j])
  }

  /** The turns of a thread are put in order of position. */
  lemma ThreadInOrder(turns: seq<Turn>, thread: string)
    ensures Permutes(InOrder(turns, thread), Filter(turns, In(thread)))
    ensures PlacesRise(InOrder(turns, thread))
  {
    FilterExtensional(turns, InThread(thread), In(thread));
    SortPermutes(Group(turns, thread), PositionLe);
    SortSorted(Group(turns, thread), PositionLe);
  }

  /** Turns at the same place stay as they were recorded. */
  lemma ThreadIsStable(turns: seq<Turn>, thread: string, place: int)
    ensures Filter(InOrder(turns, thread), AtPlace(place)) == Filter(Filter(turns, In(thread)), AtPlace(place))
  {
    FilterExtensional(turns, InThread(thread), In(thread));
    SortStable(Group(turns, thread), PositionLe, AtPlace(place));
  }

  /** A collapsed thread, against its turns in order. */
  ghost predicate ShowsTurns(c: Turn, inOrder: seq<Turn>)
    requires inOrder != []
  {
    var final := inOrder[|inOrder| - 1];
    && c.rep == final.rep.(errored := c.rep.errored)
    && (c.rep.errored <==> exists t :: t in inOrder && t.rep.errored)
    && |c.grades| == |final.grades|
    && forall g :: 0 <= g < |c.grades| ==> ShowsThread(c.grades[g], final.grades[g], inOrder, g)
  }

  /**
   A thread as it was collapsed: the final turn's trace, errored as soon as one turn was; and the
   final turn's grades, each over one weightless node per turn.
   */
  lemma CollapsedShowsTurns(turns: seq<Turn>, thread: string, c: Turn)
    requires CollapsedAs(turns, thread, c)
    ensures ShowsTurns(c, InOrder(turns, thread))
  {
    var inOrder := InOrder(turns, thread);
    forall g | 0 <= g < |c.grades|
      ensures ShowsThread(c.grades[g], inOrder[|inOrder| - 1].grades[g], inOrder, g)
    {
      TurnNodesShow(inOrder, g);
    }
  }
}
