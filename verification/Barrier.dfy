/**
 When the barrier of an iteration can clear (optimization/coordinator.py,
 worker/scenario_runner.py): exactly when no job of the iteration is left claimed by a worker
 that is gone.
 */
module Barrier {
  import opened Sharding

  /** The jobs of an iteration the barrier still waits for. */
  function Busy(s: State, run: string, iteration: nat): set<Key> {
    set k | k in s.jobs && k.run == run && k.iteration == iteration && InFlight(s.jobs[k])
  }

  /** A worker takes a job that is not stranded all the way to its end. */
  function Completion(k: Key): seq<Event> { [Claim(k), Write(k), Finish(k)] }

  lemma ThreeSteps(exec: Exec, s: State, a: Event, b: Event, c: Event)
    ensures Run(exec, s, [a, b, c]) == Apply(exec, Apply(exec, Apply(exec, s, a), b), c)
  {
    RunNext(exec, s, [], a, [a]);
    RunNext(exec, s, [a], b, [a, b]);
    RunNext(exec, s, [a, b], c, [a, b, c]);
    assert [] + [a] == [a] && [a] + [b] == [a, b] && [a, b] + [c] == [a, b, c];
  }

  /** `t` is `s` but for one job and its worker. */
  ghost predicate OnlyAt(s: State, t: State, k: Key) {
    && t.jobs.Keys == s.jobs.Keys
    && (forall j :: j in s.jobs && j != k ==> t.jobs[j] == s.jobs[j])
    && (forall j :: j != k ==> (j in t.workers <==> j in s.workers))
  }

  lemma ClaimHolds(exec: Exec, s: State, k: Key)
    requires Invariant(exec, s) && k in s.jobs && InFlight(s.jobs[k]) && !Stranded(s, k)
    ensures var t := Apply(exec, s, Claim(k)); OnlyAt(s, t, k) && k in t.jobs && k in t.workers
  {
  }

  lemma WriteHolds(exec: Exec, s: State, k: Key)
    requires k in s.jobs && k in s.workers
    ensures var t := Apply(exec, s, Write(k));
            OnlyAt(s, t, k) && k in t.jobs && k in t.workers && t.workers[k] == Written
  {
  }

  lemma FinishHolds(exec: Exec, s: State, k: Key)
    requires k in s.jobs && k in s.workers && s.workers[k] == Written
    ensures var t := Apply(exec, s, Finish(k)); OnlyAt(s, t, k) && k in t.jobs && t.jobs[k].status == Succeeded
  {
  }

  lemma FinishOne(exec: Exec, s: State, k: Key)
    requires Invariant(exec, s) && k in s.jobs && InFlight(s.jobs[k]) && !Stranded(s, k)
    ensures var t := Run(exec, s, Completion(k)); OnlyAt(s, t, k) && k in t.jobs && t.jobs[k].status == Succeeded
  {
    ThreeSteps(exec, s, Claim(k), Write(k), Finish(k));
    ClaimHolds(exec, s, k);
    var claimed := Apply(exec, s, Claim(k));
    WriteHolds(exec, claimed, k);
    FinishHolds(exec, Apply(exec, claimed, Write(k)), k);
  }

  lemma OneLess(s: State, t: State, k: Key)
    requires OnlyAt(s, t, k) && k in t.jobs && t.jobs[k].status == Succeeded
    ensures Busy(t, k.run, k.iteration) == Busy(s, k.run, k.iteration) - {k}
    ensures forall j :: Stranded(t, j) ==> Stranded(s, j)
  {
  }

  /** The iteration has no stranded job. */
  ghost predicate Free(s: State, run: string, iteration: nat) {
    forall k :: k in s.jobs && k.run == run && k.iteration == iteration ==> !Stranded(s, k)
  }

  lemma {:induction false} Drain(exec: Exec, s: State, run: string, iteration: nat) returns (more: seq<Event>)
    requires Invariant(exec, s) && Free(s, run, iteration)
    ensures BarrierClear(Run(exec, s, more), run, iteration)
    decreases Busy(s, run, iteration)
  {
    if k :| k in Busy(s, run, iteration) {
      var t := Run(exec, s, Completion(k));
      RunKeeps(exec, s, Completion(k));
      FinishOne(exec, s, k);
      OneLess(s, t, k);
      var rest := Drain(exec, t, run, iteration);
      RunSplit(exec, s, Completion(k), rest);
      more := Completion(k) + rest;
    } else {
      more := [];
      assert forall k :: k in s.jobs && k.run == run && k.iteration == iteration && InFlight(s.jobs[k]) ==>
                           k in Busy(s, run, iteration);
    }
  }

  ghost predicate ClearsAfter(exec: Exec, s: State, more: seq<Event>, run: string, iteration: nat) {
    BarrierClear(Run(exec, s, more), run, iteration)
  }

  lemma ClearsOnlyIfFree(exec: Exec, s: State, run: string, iteration: nat, more: seq<Event>)
    requires ClearsAfter(exec, s, more, run, iteration)
    ensures Free(s, run, iteration)
  {
    forall k | k in s.jobs && k.run == run && k.iteration == iteration
      ensures !Stranded(s, k)
    {
      if Stranded(s, k) { StrandedForever(exec, s, more, k); }
    }
  }

  /** The barrier of an iteration can still clear exactly when none of its jobs is stranded. */
  lemma BarrierCanClearExactly(exec: Exec, s: State, run: string, iteration: nat)
    requires Invariant(exec, s)
    ensures (exists more :: ClearsAfter(exec, s, more, run, iteration))
            <==> forall k :: k in s.jobs && k.run == run && k.iteration == iteration ==> !Stranded(s, k)
  {
    if more :| ClearsAfter(exec, s, more, run, iteration) {
      ClearsOnlyIfFree(exec, s, run, iteration, more);
    } else if Free(s, run, iteration) {
      var more := Drain(exec, s, run, iteration);
      assert ClearsAfter(exec, s, more, run, iteration);
    }
  }

  /** A worker that dies after claiming strands its job, from the very first plan on. */
  lemma CrashStrands(exec: Exec, run: string, iteration: nat, caseId: string, params: Params, limit: nat)
    ensures var k := Key(run, iteration, caseId);
            Stranded(Run(exec, EMPTY, [Plan(run, iteration, [caseId], params, limit), Claim(k), Crash(k)]), k)
  {
    var k := Key(run, iteration, caseId);
    var plan := Plan(run, iteration, [caseId], params, limit);
    ThreeSteps(exec, EMPTY, plan, Claim(k), Crash(k));
    InsertedKey(map[], run, iteration, [caseId], Job(params, Pending, 0, limit), k);
  }

  /** A job becomes stranded exactly by the death of the worker that holds it. */
  lemma StrandedBecauseOfCrash(exec: Exec, s: State, e: Event, k: Key)
    requires Invariant(exec, s) && !Stranded(s, k)
    ensures Stranded(Apply(exec, s, e), k) <==> e == Crash(k) && k in s.workers
  {
  }
}
