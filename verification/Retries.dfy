/**
 When a scenario job is tried again and when it is given up on (schemas/job.py,
 worker/scenario_runner.py), told from the history of events alone.
 */
module Retries {
  import opened Wrappers
  import opened Sharding

  /** A worker that holds the job fails on it at the last event. */
  ghost predicate FailsLast(exec: Exec, events: seq<Event>, k: Key) {
    events != [] && events[|events| - 1] == Fail(k) && k in Run(exec, EMPTY, events[..|events| - 1]).workers
  }

  /** How often a worker failed on the job. */
  ghost function Failures(exec: Exec, events: seq<Event>, k: Key): nat {
    if events == [] then 0
    else Failures(exec, events[..|events| - 1], k) + if FailsLast(exec, events, k) then 1 else 0
  }

  /** The first plan that names the case of a job. */
  ghost function FirstPlan(events: seq<Event>, k: Key): Option<Event> {
    if events == [] then None
    else
      var earlier, last := FirstPlan(events[..|events| - 1], k), events[|events| - 1];
      if earlier.Some? then earlier
      else if IsPlan(last, k.run, k.iteration) && k.caseId in last.caseIds then Some(last) else None
  }

  /** A job against the number of its failures. */
  ghost predicate Accounted(job: Job, failures: nat) {
    && job.attempt == failures + (if job.status == Claimed || job.status == Succeeded then 1 else 0)
    && (job.status == DeadLettered <==> failures > 0 && failures >= job.maxAttempts)
  }

  ghost predicate AccountedIn(s: State, k: Key, failures: nat) {
    if k in s.jobs then Accounted(s.jobs[k], failures) else failures == 0
  }

  lemma AccountOther(exec: Exec, s: State, e: Event, k: Key, failures: nat)
    requires AccountedIn(s, k, failures) && (e.Plan? || e.key != k)
    ensures AccountedIn(Apply(exec, s, e), k, failures)
  {
    if e.Plan? {
      InsertedKey(s.jobs, e.run, e.iteration, e.caseIds, Job(e.params, Pending, 0, e.maxAttempts), k);
    } else {
      OtherJob(exec, s, e, k);
    }
  }

  lemma OtherJob(exec: Exec, s: State, e: Event, k: Key)
    requires !e.Plan? && e.key != k
    ensures k in Apply(exec, s, e).jobs <==> k in s.jobs
    ensures k in s.jobs ==> Apply(exec, s, e).jobs[k] == s.jobs[k]
  {
  }

  lemma AccountOwn(exec: Exec, s: State, e: Event, k: Key, failures: nat)
    requires Invariant(exec, s) && AccountedIn(s, k, failures) && !e.Plan? && e.key == k
    ensures AccountedIn(Apply(exec, s, e), k, failures + if e == Fail(k) && k in s.workers then 1 else 0)
  {
  }

  lemma AccountStep(exec: Exec, s: State, e: Event, k: Key, failures: nat)
    requires Invariant(exec, s) && AccountedIn(s, k, failures)
    ensures AccountedIn(Apply(exec, s, e), k, failures + if e == Fail(k) && k in s.workers then 1 else 0)
  {
    if e.Plan? || e.key != k { AccountOther(exec, s, e, k, failures); } else { AccountOwn(exec, s, e, k, failures); }
  }

  lemma {:induction false} AccountKeeps(exec: Exec, events: seq<Event>, k: Key)
    ensures AccountedIn(Run(exec, EMPTY, events), k, Failures(exec, events, k))
  {
    if events != [] {
      var front, e := events[..|events| - 1], events[|events| - 1];
      AccountKeeps(exec, front, k);
      RunKeeps(exec, EMPTY, front);
      AccountStep(exec, Run(exec, EMPTY, front), e, k, Failures(exec, front, k));
    }
  }

  /**
   Over every history: a job is given up on exactly when it has failed, and at least as often as it
   may be attempted; and it has been claimed once per failure, and once more if it is held or done.
   */
  lemma GivenUpExactly(exec: Exec, events: seq<Event>, k: Key)
    requires k in Run(exec, EMPTY, events).jobs
    ensures var job, failures := Run(exec, EMPTY, events).jobs[k], Failures(exec, events, k);
            && (job.status == DeadLettered <==> failures > 0 && failures >= job.maxAttempts)
            && job.attempt == failures + if job.status == Claimed || job.status == Succeeded then 1 else 0
  {
    AccountKeeps(exec, events, k);
  }

  lemma PlanStepFirst(exec: Exec, s: State, e: Event, k: Key)
    ensures var t := Apply(exec, s, e);
            && (k in t.jobs
                <==> k in s.jobs || (IsPlan(e, k.run, k.iteration) && k.caseId in e.caseIds))
            && (k in s.jobs ==> t.jobs[k].params == s.jobs[k].params && t.jobs[k].maxAttempts == s.jobs[k].maxAttempts)
            && (k in t.jobs && k !in s.jobs ==> t.jobs[k] == Job(e.params, Pending, 0, e.maxAttempts))
  {
    if e.Plan? {
      InsertedKey(s.jobs, e.run, e.iteration, e.caseIds, Job(e.params, Pending, 0, e.maxAttempts), k);
    }
  }

  /** A job is there exactly when some plan named its case, with the parameters and the limit of the first. */
  lemma {:induction false} PlannedByFirst(exec: Exec, events: seq<Event>, k: Key)
    ensures var s, plan := Run(exec, EMPTY, events), FirstPlan(events, k);
            && (k in s.jobs <==> plan.Some?)
            && (plan.Some? ==>
                  && plan.value.Plan?
                  && s.jobs[k].params == plan.value.params && s.jobs[k].maxAttempts == plan.value.maxAttempts)
  {
    if events != [] {
      var front := events[..|events| - 1];
      PlannedByFirst(exec, front, k);
      PlanStepFirst(exec, Run(exec, EMPTY, front), events[|events| - 1], k);
    }
  }

  /** A failure with attempts left puts the job back, and the next claim takes it for one attempt more. */
  lemma FailureCanBeRetried(exec: Exec, s: State, k: Key)
    requires k in s.jobs && k in s.workers && s.jobs[k].attempt < s.jobs[k].maxAttempts
    ensures var failed := Apply(exec, s, Fail(k));
            var retried := Apply(exec, failed, Claim(k));
            && failed.jobs[k].status == Pending && k !in failed.workers
            && retried.jobs[k].status == Claimed && retried.jobs[k].attempt == s.jobs[k].attempt + 1
            && k in retried.workers && retried.workers[k] == Executing
  {
  }

  /** With two attempts allowed: a failure, then a success. */
  lemma SecondAttemptSucceeds(exec: Exec, run: string, params: Params)
    ensures var k := Key(run, 0, "a");
            Run(exec, EMPTY, [Plan(run, 0, ["a"], params, 2), Claim(k), Fail(k), Claim(k), Write(k), Finish(k)])
            == State(map[k := Job(params, Succeeded, 2, 2)], map[k := RowFor(exec, k, params)], map[])
  {
    var k := Key(run, 0, "a");
    SixSteps(exec, Plan(run, 0, ["a"], params, 2), Claim(k), Fail(k), Claim(k), Write(k), Finish(k));
    LonePlan(exec, run, params);
    LoneFailure(exec, k, params);
    LoneRetry(exec, k, params);
  }

  lemma SixSteps(exec: Exec, a: Event, b: Event, c: Event, d: Event, e: Event, f: Event)
    ensures Run(exec, EMPTY, [a, b, c, d, e, f])
            == Apply(exec, Apply(exec, Apply(exec, Apply(exec, Apply(exec, Apply(exec, EMPTY, a), b), c), d), e), f)
  {
    RunNext(exec, EMPTY, [], a, [a]);
    RunNext(exec, EMPTY, [a], b, [a, b]);
    RunNext(exec, EMPTY, [a, b], c, [a, b, c]);
    RunNext(exec, EMPTY, [a, b, c], d, [a, b, c, d]);
    RunNext(exec, EMPTY, [a, b, c, d], e, [a, b, c, d, e]);
    RunNext(exec, EMPTY, [a, b, c, d, e], f, [a, b, c, d, e, f]);
  }

  /** A store with one job, nobody working on it and no row. */
  function Lone(k: Key, job: Job): State { State(map[k := job], map[], map[]) }

  lemma LonePlan(exec: Exec, run: string, params: Params)
    ensures Apply(exec, EMPTY, Plan(run, 0, ["a"], params, 2)) == Lone(Key(run, 0, "a"), Job(params, Pending, 0, 2))
  {
    var jobs := InsertAll(map[], run, 0, ["a"], Job(params, Pending, 0, 2));
    assert jobs.Keys == {Key(run, 0, "a")};
  }

  lemma LoneFailure(exec: Exec, k: Key, params: Params)
    ensures Apply(exec, Apply(exec, Lone(k, Job(params, Pending, 0, 2)), Claim(k)), Fail(k))
            == Lone(k, Job(params, Pending, 1, 2))
  {
    var claimed := Apply(exec, Lone(k, Job(params, Pending, 0, 2)), Claim(k));
    assert claimed == State(map[k := Job(params, Claimed, 1, 2)], map[], map[k := Executing]);
  }

  lemma LoneRetry(exec: Exec, k: Key, params: Params)
    ensures Apply(exec, Apply(exec, Apply(exec, Lone(k, Job(params, Pending, 1, 2)), Claim(k)), Write(k)), Finish(k))
            == State(map[k := Job(params, Succeeded, 2, 2)], map[k := RowFor(exec, k, params)], map[])
  {
    var retried := Apply(exec, Lone(k, Job(params, Pending, 1, 2)), Claim(k));
    assert retried == State(map[k := Job(params, Claimed, 2, 2)], map[], map[k := Executing]);
    var written := Apply(exec, retried, Write(k));
    assert written == State(map[k := Job(params, Claimed, 2, 2)], map[k := RowFor(exec, k, params)], map[k := Written]);
  }
}
