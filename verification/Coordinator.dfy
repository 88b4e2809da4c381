/**
 The storage tables the coordinator and the workers share, and the coordinator's
 iteration hook: plan, let others work, poll the barrier, aggregate from storage
 (optimization/coordinator.py).
 */
module Coordinator {
  import opened Wrappers
  import opened Sums
  import opened Ordering
  import opened OutcomeCodec
  import opened Aggregator
  import opened Sharding

  method InsertRows(jobs: map<Key, Job>, run: string, iteration: nat, caseIds: seq<string>, job: Job)
    returns (grown: map<Key, Job>, inserted: nat)
    ensures grown == InsertAll(jobs, run, iteration, caseIds, job)
    ensures |grown| == |jobs| + inserted
  {
    grown, inserted := jobs, 0;
    for i := 0 to |caseIds|
      invariant grown == InsertAll(jobs, run, iteration, caseIds[..i], job)
      invariant |grown| == |jobs| + inserted
    {
      var key := Key(run, iteration, caseIds[i]);
      if key !in grown {
        grown, inserted := grown[key := job], inserted + 1;
      }
      InsertNext(jobs, run, iteration, caseIds, i, job);
    }
    assert caseIds[..|caseIds|] == caseIds;
  }

  class Store {
    var jobs: map<Key, Job>
    var rows: map<Key, Row>
    var workers: map<Key, Phase>

    ghost function Snapshot(): State
      reads this
    {
      State(jobs, rows, workers)
    }

    constructor ()
      ensures Snapshot() == EMPTY
    {
      jobs, rows, workers := map[], map[], map[];
    }

    /** `insert_scenario_jobs`: a key that is already there is skipped. Returns how many were new. */
    method InsertScenarioJobs(exec: Exec, e: Event) returns (inserted: nat)
      requires e.Plan?
      modifies this
      ensures Snapshot() == Apply(exec, old(Snapshot()), e)
      ensures |jobs| == |old(jobs)| + inserted
    {
      var grown;
      grown, inserted := InsertRows(jobs, e.run, e.iteration, e.caseIds, Job(e.params, Pending, 0, e.maxAttempts));
      jobs := grown;
    }

    /** One step of another process. */
    method Perform(exec: Exec, e: Event)
      modifies this
      ensures Snapshot() == Apply(exec, old(Snapshot()), e)
    {
      match e
      case Plan(_, _, _, _, _) =>
        var _ := InsertScenarioJobs(exec, e);
      case Claim(key) =>
        if key in jobs && jobs[key].status == Pending {
          jobs := jobs[key := jobs[key].(status := Claimed, attempt := jobs[key].attempt + 1)];
          workers := workers[key := Executing];
        }
      case Write(key) =>
        if key in jobs && key in workers && workers[key] == Executing {
          rows := rows[key := RowFor(exec, key, jobs[key].params)];
          workers := workers[key := Written];
        }
      case Finish(key) =>
        if key in jobs && key in workers && workers[key] == Written {
          jobs := jobs[key := jobs[key].(status := Succeeded)];
          workers := workers - {key};
        }
      case Fail(key) =>
        if key in jobs && key in workers {
          var dead := jobs[key].attempt >= jobs[key].maxAttempts;
          jobs := jobs[key := jobs[key].(status := if dead then DeadLettered else Pending)];
          workers := workers - {key};
        }
      case Crash(key) =>
        workers := workers - {key};
    }

    method PerformAll(exec: Exec, events: seq<Event>)
      modifies this
      ensures Snapshot() == Run(exec, old(Snapshot()), events)
    {
      for i := 0 to |events|
        invariant Snapshot() == Run(exec, old(Snapshot()), events[..i])
      {
        Perform(exec, events[i]);
        assert events[..i + 1][..i] == events[..i];
      }
      assert events[..|events|] == events;
    }

    /** `pending + claimed + running` of `barrier_counts`. */
    method InFlightCount(run: string, iteration: nat) returns (n: nat)
      ensures n == 0 <==> BarrierClear(Snapshot(), run, iteration)
    {
      var busy := set k | k in jobs && k.run == run && k.iteration == iteration && InFlight(jobs[k]);
      n := |busy|;
      if busy == {} {
        forall k | k in jobs && k.run == run && k.iteration == iteration
          ensures !InFlight(jobs[k])
        {
          assert k !in busy;
        }
      } else {
        var k :| k in busy;
      }
    }

    /** The case ids of an iteration's rows, `ORDER BY case_id`. */
    method OrderedCases(run: string, iteration: nat) returns (cases: seq<string>)
      ensures cases == Ascending(CasesWithRow(Snapshot(), run, iteration))
    {
      var todo := set k | k in rows && k.run == run && k.iteration == iteration :: k.caseId;
      ghost var all := todo;
      var found: seq<string> := [];
      while todo != {}
        invariant Distinct(found)
        invariant forall c :: c in all <==> c in found || c in todo
        invariant forall c :: c in found ==> c !in todo
      {
        var c :| c in todo;
        found, todo := found + [c], todo - {c};
      }
      cases := Sort(found, TextLe);
      TextIsTotalOrder();
      SortPermutes(found, TextLe);
      SortSorted(found, TextLe);
      DistinctSameMembers(found, Ascending(all));
      SortedUnique(cases, Ascending(all), TextLe);
    }

    /** `aggregate_iteration_from_storage`. */
    method AggregateFromStorage(run: string, iteration: nat, target: Target) returns (r: Result<IterationAggregate>)
      ensures r == FromStorage(Snapshot(), run, iteration, target)
    {
      var cases := OrderedCases(run, iteration);
      forall c | c in cases
        ensures Key(run, iteration, c) in rows
      {
        var k :| k in rows && k.run == run && k.iteration == iteration && k.caseId == c;
        assert k == Key(run, iteration, c);
      }
      var outcomes := Decode(RowsFor(State(jobs, rows, workers), run, iteration, cases));
      if outcomes.Err? { return Err(outcomes.error); }
      r := AggregateIteration(outcomes.value, target.primary, target.reliability, target.grader);
    }
  }

  const POLL_SECONDS := 0.2
  const TIMEOUT_SECONDS := 3600.0

  /**
   `RunCoordinator._run_iteration`. `others(i)` is what every other process does before the i-th
   poll of the barrier, and `late` what they do between the barrier and the read.
   */
  method RunIteration(store: Store, exec: Exec, plan: Event, others: nat -> seq<Event>, late: seq<Event>,
                      target: Target)
    returns (cleared: bool, r: Result<IterationAggregate>, ghost before: seq<Event>, ghost after: seq<Event>)
    requires plan.Plan?
    modifies store
    ensures store.Snapshot() == Run(exec, old(store.Snapshot()), before + after)
    ensures before != [] && before[0] == plan
    ensures cleared == BarrierClear(Run(exec, old(store.Snapshot()), before), plan.run, plan.iteration)
    ensures cleared ==> r == FromStorage(store.Snapshot(), plan.run, plan.iteration, target)
    ensures !cleared ==> r == Err(TimeoutError)
  {
    ghost var start := store.Snapshot();
    store.Perform(exec, plan);
    before, after := [plan], [];
    assert Run(exec, start, [plan]) == Apply(exec, start, plan) by { assert [plan][..0] == []; }
    var polls, waited := 0, 0.0;
    cleared := false;
    while waited < TIMEOUT_SECONDS && !cleared
      invariant store.Snapshot() == Run(exec, start, before)
      invariant before != [] && before[0] == plan
      invariant waited == POLL_SECONDS * polls as real
      invariant polls <= 18000
      invariant cleared || polls > 0 ==> cleared == BarrierClear(store.Snapshot(), plan.run, plan.iteration)
      decreases 18000 - polls, !cleared
    {
      store.PerformAll(exec, others(polls));
      RunSplit(exec, start, before, others(polls));
      before := before + others(polls);
      var inFlight := store.InFlightCount(plan.run, plan.iteration);
      if inFlight == 0 {
        cleared := true;
      } else {
        polls, waited := polls + 1, waited + POLL_SECONDS;
      }
    }
    assert before + after == before;
    if !cleared { return cleared, Err(TimeoutError), before, after; }
    store.PerformAll(exec, late);
    RunSplit(exec, start, before, late);
    after := late;
    r := store.AggregateFromStorage(plan.run, plan.iteration, target);
  }

  // ---- An iteration that starts from a store with a past ----

  lemma {:induction false} PlannedSomewhere(events: seq<Event>, i: nat, run: string, iteration: nat)
    requires i < |events| && IsPlan(events[i], run, iteration)
    ensures FirstParams(events, run, iteration).Some?
  {
    if i < |events| - 1 { PlannedSomewhere(events[..|events| - 1], i, run, iteration); }
  }

  /** No case of the iteration was given up on. */
  ghost predicate NoneGivenUp(s: State, run: string, iteration: nat) {
    forall k :: k in s.jobs && k.run == run && k.iteration == iteration ==> s.jobs[k].status != DeadLettered
  }

  /**
   If the plans of the iteration are all for one list of cases and none was given up on, then `r`
   is the in-process aggregate, outcome order apart, for the parameters it was first planned with.
   */
  ghost predicate MatchesInProcess(exec: Exec, past: seq<Event>, after: seq<Event>, plan: Event, target: Target,
                                   r: Result<IterationAggregate>)
    requires plan.Plan?
  {
    && PlansCases(past + after, plan.run, plan.iteration, plan.caseIds)
    && NoneGivenUp(Run(exec, EMPTY, past), plan.run, plan.iteration) ==>
      var params := FirstParams(past, plan.run, plan.iteration);
      && params.Some?
      && Core(r) == Core(InProcess(exec, plan.caseIds, plan.iteration, params.value, target))
  }

  lemma PastThenIteration(exec: Exec, past: seq<Event>, at: nat, after: seq<Event>, plan: Event, target: Target)
    requires plan.Plan? && at < |past| && past[at] == plan && Distinct(plan.caseIds)
    requires BarrierClear(Run(exec, EMPTY, past), plan.run, plan.iteration)
    ensures MatchesInProcess(exec, past, after, plan, target,
                             FromStorage(Run(exec, EMPTY, past + after), plan.run, plan.iteration, target))
  {
    PlannedSomewhere(past, at, plan.run, plan.iteration);
    if PlansCases(past + after, plan.run, plan.iteration, plan.caseIds)
       && NoneGivenUp(Run(exec, EMPTY, past), plan.run, plan.iteration) {
      ShardedEqualsInProcess(exec, past, after, plan.run, plan.iteration, plan.caseIds, target);
    }
  }

  lemma Joined(exec: Exec, earlier: seq<Event>, later: seq<Event>, all: seq<Event>)
    requires all == earlier + later
    ensures Run(exec, Run(exec, EMPTY, earlier), later) == Run(exec, EMPTY, all)
  {
    RunSplit(exec, EMPTY, earlier, later);
  }

  /**
   The coordinator over any store a history of events left behind: when the barrier clears with no
   case given up on, it returns the in-process aggregate, outcome order apart, for the parameters
   the iteration was first planned with.
   */
  method RunIterationAfter(store: Store, exec: Exec, ghost earlier: seq<Event>, plan: Event, others: nat -> seq<Event>,
                           late: seq<Event>, target: Target)
    returns (cleared: bool, r: Result<IterationAggregate>, ghost before: seq<Event>, ghost after: seq<Event>)
    requires plan.Plan? && Distinct(plan.caseIds) && store.Snapshot() == Run(exec, EMPTY, earlier)
    modifies store
    ensures store.Snapshot() == Run(exec, EMPTY, earlier + before + after)
    ensures cleared == BarrierClear(Run(exec, EMPTY, earlier + before), plan.run, plan.iteration)
    ensures !cleared ==> r == Err(TimeoutError)
    ensures cleared ==> MatchesInProcess(exec, earlier + before, after, plan, target, r)
  {
    cleared, r, before, after := RunIteration(store, exec, plan, others, late, target);
    Joined(exec, earlier, before, earlier + before);
    Associate(earlier, before, after);
    Joined(exec, earlier, before + after, earlier + before + after);
    if cleared { PastThenIteration(exec, earlier + before, |earlier|, after, plan, target); }
  }
}
