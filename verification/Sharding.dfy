/**
 The sharded execution of an iteration (optimization/coordinator.py, api/run_jobs.py,
 worker/scenario_runner.py, storage/postgres/queries.py). A coordinator plans one job per
 case, workers claim, execute, write and finalize in any interleaving, a barrier clears, and
 the iteration is rebuilt from the stored rows. Executing a case is a deterministic function
 of the case, the iteration and the parameters.
 */
module Sharding {
  import opened Wrappers
  import opened Sums
  import opened Ordering
  import opened Grades
  import opened OutcomeCodec
  import opened Metrics
  import opened Aggregator

  type Params = map<string, Json>

  /** The unique key of both tables. */
  datatype Key = Key(run: string, iteration: nat, caseId: string)

  datatype Status = Pending | Claimed | Succeeded | DeadLettered

  datatype Job = Job(params: Params, status: Status, attempt: nat, maxAttempts: nat)

  /** How far the worker that holds a claimed job has got. */
  datatype Phase = Executing | Written

  datatype State = State(jobs: map<Key, Job>, rows: map<Key, Row>, workers: map<Key, Phase>)

  const EMPTY := State(map[], map[], map[])

  datatype Event =
    | Plan(run: string, iteration: nat, caseIds: seq<string>, params: Params, maxAttempts: nat)
    | Claim(key: Key)
    | Write(key: Key)
    | Finish(key: Key)
    | Fail(key: Key)
    | Crash(key: Key)

  type Exec = (string, nat, Params) -> CaseOutcome

  // ---- One step ----

  /** ON CONFLICT DO NOTHING: a key that is already planned keeps its job. */
  function InsertAll(jobs: map<Key, Job>, run: string, iteration: nat, caseIds: seq<string>, job: Job): map<Key, Job> {
    jobs + map c | c in caseIds && Key(run, iteration, c) !in jobs :: Key(run, iteration, c) := job
  }

  lemma InsertSnoc(jobs: map<Key, Job>, run: string, iteration: nat, caseIds: seq<string>, c: string, job: Job)
    ensures var before, after := InsertAll(jobs, run, iteration, caseIds, job),
                                 InsertAll(jobs, run, iteration, caseIds + [c], job);
            after == if Key(run, iteration, c) in before then before else before[Key(run, iteration, c) := job]
  {
    var before, after := InsertAll(jobs, run, iteration, caseIds, job),
                         InsertAll(jobs, run, iteration, caseIds + [c], job);
    forall k
      ensures k in after <==> k in before || k == Key(run, iteration, c)
      ensures k in after ==> after[k] == if k in before then before[k] else job
    {
      InsertedLater(jobs, run, iteration, caseIds, c, job, k);
    }
  }

  lemma InsertedKey(jobs: map<Key, Job>, run: string, iteration: nat, caseIds: seq<string>, job: Job, k: Key)
    ensures var all := InsertAll(jobs, run, iteration, caseIds, job);
            && (k in all <==> k in jobs || (k == Key(run, iteration, k.caseId) && k.caseId in caseIds))
            && (k in all ==> all[k] == if k in jobs then jobs[k] else job)
  {
  }

  lemma InsertedLater(jobs: map<Key, Job>, run: string, iteration: nat, caseIds: seq<string>, c: string, job: Job,
                      k: Key)
    ensures var before, after := InsertAll(jobs, run, iteration, caseIds, job),
                                 InsertAll(jobs, run, iteration, caseIds + [c], job);
            && (k in after <==> k in before || k == Key(run, iteration, c))
            && (k in after ==> after[k] == if k in before then before[k] else job)
  {
    InsertedKey(jobs, run, iteration, caseIds, job, k);
    InsertedKey(jobs, run, iteration, caseIds + [c], job, k);
  }

  lemma InsertNext(jobs: map<Key, Job>, run: string, iteration: nat, caseIds: seq<string>, i: nat, job: Job)
    requires i < |caseIds|
    ensures var before := InsertAll(jobs, run, iteration, caseIds[..i], job);
            var key := Key(run, iteration, caseIds[i]);
            InsertAll(jobs, run, iteration, caseIds[..i + 1], job)
            == if key in before then before else before[key := job]
  {
    InsertSnoc(jobs, run, iteration, caseIds[..i], caseIds[i], job);
    assert caseIds[..i + 1] == caseIds[..i] + [caseIds[i]];
  }

  function RowFor(exec: Exec, key: Key, params: Params): Row {
    ToFields(exec(key.caseId, key.iteration, params))
  }

  function SetStatus(s: State, key: Key, status: Status): map<Key, Job>
    requires key in s.jobs
  {
    s.jobs[key := s.jobs[key].(status := status)]
  }

  /** An event that is not possible in a state leaves it as it is. */
  function Apply(exec: Exec, s: State, e: Event): State {
    match e
    case Plan(run, iteration, caseIds, params, limit) =>
      s.(jobs := InsertAll(s.jobs, run, iteration, caseIds, Job(params, Pending, 0, limit)))
    case Claim(key) =>
      if key in s.jobs && s.jobs[key].status == Pending then
        s.(jobs := s.jobs[key := s.jobs[key].(status := Claimed, attempt := s.jobs[key].attempt + 1)],
           workers := s.workers[key := Executing])
      else s
    case Write(key) =>
      if key in s.jobs && key in s.workers && s.workers[key] == Executing then
        s.(rows := s.rows[key := RowFor(exec, key, s.jobs[key].params)],
           workers := s.workers[key := Written])
      else s
    case Finish(key) =>
      if key in s.jobs && key in s.workers && s.workers[key] == Written then
        s.(jobs := SetStatus(s, key, Succeeded), workers := s.workers - {key})
      else s
    case Fail(key) =>
      if key in s.jobs && key in s.workers then
        s.(jobs := SetStatus(s, key, if s.jobs[key].attempt >= s.jobs[key].maxAttempts then DeadLettered else Pending),
           workers := s.workers - {key})
      else s
    case Crash(key) => s.(workers := s.workers - {key})
  }

  function Run(exec: Exec, s: State, events: seq<Event>): State {
    if events == [] then s
    else Apply(exec, Run(exec, s, events[..|events| - 1]), events[|events| - 1])
  }

  // ---- What every step keeps ----

  ghost predicate Invariant(exec: Exec, s: State) {
    && (forall k :: k in s.rows ==> k in s.jobs && s.rows[k] == RowFor(exec, k, s.jobs[k].params))
    && (forall k :: k in s.workers ==>
          k in s.jobs && s.jobs[k].status == Claimed && (s.workers[k] == Written ==> k in s.rows))
    && (forall k :: k in s.jobs && s.jobs[k].status == Succeeded ==> k in s.rows)
  }

  /** Jobs keep their parameters and rows are never changed or lost. */
  ghost predicate Extends(s: State, t: State) {
    && (forall k :: k in s.jobs ==> k in t.jobs && t.jobs[k].params == s.jobs[k].params)
    && (forall k :: k in s.rows ==> k in t.rows && t.rows[k] == s.rows[k])
  }

  lemma PlanKeeps(exec: Exec, s: State, e: Event)
    requires Invariant(exec, s) && e.Plan?
    ensures Invariant(exec, Apply(exec, s, e)) && Extends(s, Apply(exec, s, e))
  {
    var t := Apply(exec, s, e);
    forall k
      ensures k in s.jobs ==> k in t.jobs && t.jobs[k] == s.jobs[k]
      ensures k in t.jobs && k !in s.jobs ==> t.jobs[k].status == Pending
    {
      InsertedKey(s.jobs, e.run, e.iteration, e.caseIds, Job(e.params, Pending, 0, e.maxAttempts), k);
    }
    PlannedKeeps(exec, s, t);
  }

  lemma PlannedKeeps(exec: Exec, s: State, t: State)
    requires Invariant(exec, s) && t.rows == s.rows && t.workers == s.workers
    requires forall k :: k in s.jobs ==> k in t.jobs && t.jobs[k] == s.jobs[k]
    requires forall k :: k in t.jobs && k !in s.jobs ==> t.jobs[k].status == Pending
    ensures Invariant(exec, t) && Extends(s, t)
  {
  }

  /** `t` differs from `s` only in the status and attempt of one job and in its worker. */
  ghost predicate OneJob(s: State, t: State, key: Key) {
    && t.rows == s.rows && t.jobs.Keys == s.jobs.Keys
    && (forall k :: k in s.jobs && k != key ==> t.jobs[k] == s.jobs[k])
    && (forall k :: k in t.workers && k != key ==> k in s.workers && t.workers[k] == s.workers[k])
    && (key in s.jobs ==> t.jobs[key].params == s.jobs[key].params)
  }

  lemma OneJobKeeps(exec: Exec, s: State, t: State, key: Key)
    requires Invariant(exec, s) && OneJob(s, t, key)
    requires key in t.workers ==> key in t.jobs && t.jobs[key].status == Claimed && t.workers[key] == Executing
    requires key in t.jobs && t.jobs[key].status == Succeeded ==> key in t.rows
    ensures Invariant(exec, t) && Extends(s, t)
  {
    forall k | k in s.jobs
      ensures t.jobs[k].params == s.jobs[k].params && (t.jobs[k].status == Succeeded ==> k in t.rows)
    {
      if k != key { assert t.jobs[k] == s.jobs[k]; }
    }
    forall k | k in t.workers
      ensures k in t.jobs && t.jobs[k].status == Claimed && (t.workers[k] == Written ==> k in t.rows)
    {
      if k != key { assert k in s.workers && t.jobs[k] == s.jobs[k]; }
    }
  }

  lemma WorkerKeeps(exec: Exec, s: State, e: Event)
    requires Invariant(exec, s) && !e.Plan? && !e.Write?
    ensures Invariant(exec, Apply(exec, s, e)) && Extends(s, Apply(exec, s, e))
  {
    var t := Apply(exec, s, e);
    if t != s {
      WorkerTouchesOneJob(exec, s, e);
      OneJobKeeps(exec, s, t, e.key);
    }
  }

  lemma WorkerTouchesOneJob(exec: Exec, s: State, e: Event)
    requires Invariant(exec, s) && !e.Plan? && !e.Write?
    ensures var t := Apply(exec, s, e);
            t != s ==> OneJob(s, t, e.key) && WorkerFits(t, e.key)
  {
    if e.Claim? { ClaimTouches(exec, s, e); } else if e.Fail? { FailTouches(exec, s, e); }
  }

  ghost predicate WorkerFits(t: State, key: Key) {
    && (key in t.workers ==> key in t.jobs && t.jobs[key].status == Claimed && t.workers[key] == Executing)
    && (key in t.jobs && t.jobs[key].status == Succeeded ==> key in t.rows)
  }

  lemma ClaimTouches(exec: Exec, s: State, e: Event)
    requires Invariant(exec, s) && e.Claim?
    ensures Apply(exec, s, e) != s ==> OneJob(s, Apply(exec, s, e), e.key) && WorkerFits(Apply(exec, s, e), e.key)
  {
  }

  lemma FailTouches(exec: Exec, s: State, e: Event)
    requires Invariant(exec, s) && e.Fail?
    ensures Apply(exec, s, e) != s ==> OneJob(s, Apply(exec, s, e), e.key) && WorkerFits(Apply(exec, s, e), e.key)
  {
  }

  lemma RowKeeps(exec: Exec, s: State, t: State, key: Key, row: Row)
    requires Invariant(exec, s) && key in s.workers && row == RowFor(exec, key, s.jobs[key].params)
    requires t == s.(rows := s.rows[key := row], workers := s.workers[key := Written])
    ensures Invariant(exec, t) && Extends(s, t)
  {
  }

  lemma WriteKeeps(exec: Exec, s: State, e: Event)
    requires Invariant(exec, s) && e.Write?
    ensures Invariant(exec, Apply(exec, s, e)) && Extends(s, Apply(exec, s, e))
  {
    var t := Apply(exec, s, e);
    if t != s { RowKeeps(exec, s, t, e.key, RowFor(exec, e.key, s.jobs[e.key].params)); }
  }

  lemma StepKeeps(exec: Exec, s: State, e: Event)
    requires Invariant(exec, s)
    ensures Invariant(exec, Apply(exec, s, e)) && Extends(s, Apply(exec, s, e))
  {
    if e.Plan? { PlanKeeps(exec, s, e); }
    else if e.Write? { WriteKeeps(exec, s, e); }
    else { WorkerKeeps(exec, s, e); }
  }

  lemma {:induction false} RunKeeps(exec: Exec, s: State, events: seq<Event>)
    requires Invariant(exec, s)
    ensures Invariant(exec, Run(exec, s, events)) && Extends(s, Run(exec, s, events))
  {
    if events != [] {
      RunKeeps(exec, s, events[..|events| - 1]);
      StepKeeps(exec, Run(exec, s, events[..|events| - 1]), events[|events| - 1]);
    }
  }

  lemma RunNext(exec: Exec, s: State, front: seq<Event>, last: Event, events: seq<Event>)
    requires events == front + [last]
    ensures Run(exec, s, events) == Apply(exec, Run(exec, s, front), last)
  {
    assert events[..|events| - 1] == front;
  }

  lemma {:induction false} RunSplit(exec: Exec, s: State, a: seq<Event>, b: seq<Event>)
    ensures Run(exec, s, a + b) == Run(exec, Run(exec, s, a), b)
  {
    if b == [] {
      assert a + b == a;
    } else {
      var front, last := b[..|b| - 1], b[|b| - 1];
      RunSplit(exec, s, a, front);
      RunNext(exec, s, a + front, last, a + b);
      RunNext(exec, Run(exec, s, a), front, last, b);
    }
  }

  // ---- Retries ----

  /** A job is never claimed more often than its limit allows. */
  ghost predicate WithinAttempts(s: State) {
    forall k :: k in s.jobs ==>
      && s.jobs[k].attempt <= s.jobs[k].maxAttempts
      && (s.jobs[k].status == Pending ==> s.jobs[k].attempt < s.jobs[k].maxAttempts)
  }

  lemma AttemptsStep(exec: Exec, s: State, e: Event)
    requires WithinAttempts(s) && (e.Plan? ==> e.maxAttempts >= 1)
    ensures WithinAttempts(Apply(exec, s, e))
  {
    var t := Apply(exec, s, e);
    if e.Plan? {
      assert forall k :: k in s.jobs ==> t.jobs[k] == s.jobs[k];
    } else {
      assert forall k :: k in t.jobs && k != e.key ==> k in s.jobs && t.jobs[k] == s.jobs[k];
    }
  }

  lemma {:induction false} AttemptsBounded(exec: Exec, events: seq<Event>)
    requires forall i :: 0 <= i < |events| && events[i].Plan? ==> events[i].maxAttempts >= 1
    ensures WithinAttempts(Run(exec, EMPTY, events))
  {
    if events != [] {
      var before := events[..|events| - 1];
      AttemptsBounded(exec, before);
      AttemptsStep(exec, Run(exec, EMPTY, before), events[|events| - 1]);
    }
  }

  // ---- The barrier ----

  predicate InFlight(job: Job) { job.status == Pending || job.status == Claimed }

  /** `pending + claimed + running == 0` for one iteration. */
  predicate BarrierClear(s: State, run: string, iteration: nat) {
    forall k :: k in s.jobs && k.run == run && k.iteration == iteration ==> !InFlight(s.jobs[k])
  }

  /** A claimed job whose worker is gone. */
  ghost predicate Stranded(s: State, k: Key) {
    k in s.jobs && s.jobs[k].status == Claimed && k !in s.workers
  }

  lemma StrandedStep(exec: Exec, s: State, e: Event, k: Key)
    requires Stranded(s, k)
    ensures Stranded(Apply(exec, s, e), k)
  {
    var t := Apply(exec, s, e);
    assert t.jobs[k] == s.jobs[k];
  }

  /** Nothing reclaims such a job, so its iteration's barrier never clears again. */
  lemma {:induction false} StrandedForever(exec: Exec, s: State, events: seq<Event>, k: Key)
    requires Stranded(s, k)
    ensures Stranded(Run(exec, s, events), k)
    ensures !BarrierClear(Run(exec, s, events), k.run, k.iteration)
  {
    if events != [] {
      StrandedForever(exec, s, events[..|events| - 1], k);
      StrandedStep(exec, Run(exec, s, events[..|events| - 1]), events[|events| - 1], k);
    }
  }

  // ---- Reading the iteration back ----

  function CasesWithRow(s: State, run: string, iteration: nat): set<string> {
    set k | k in s.rows && k.run == run && k.iteration == iteration :: k.caseId
  }

  /** The rows of one iteration, in ascending case order. */
  ghost function RowsOf(s: State, run: string, iteration: nat): seq<Row> {
    RowsFor(s, run, iteration, Ascending(CasesWithRow(s, run, iteration)))
  }

  function RowsFor(s: State, run: string, iteration: nat, cases: seq<string>): seq<Row>
    requires forall c :: c in cases ==> Key(run, iteration, c) in s.rows
  {
    if cases == [] then []
    else [s.rows[Key(run, iteration, cases[0])]] + RowsFor(s, run, iteration, cases[1..])
  }

  function Decode(rows: seq<Row>): Result<seq<CaseOutcome>> {
    if rows == [] then Ok([])
    else
      var first :- FromFields(rows[0]);
      var rest :- Decode(rows[1..]);
      Ok([first] + rest)
  }

  datatype Target = Target(primary: Metric, reliability: seq<Metric>, grader: Option<string>)

  /** `aggregate_iteration_from_storage`. */
  ghost function FromStorage(s: State, run: string, iteration: nat, target: Target): Result<IterationAggregate> {
    var outcomes :- Decode(RowsOf(s, run, iteration));
    Aggregate(outcomes, target.primary, target.reliability, target.grader)
  }

  function ExecuteOne(exec: Exec, iteration: nat, params: Params): string -> seq<CaseOutcome> {
    c => [exec(c, iteration, params)]
  }

  function ExecuteAll(exec: Exec, cases: seq<string>, iteration: nat, params: Params): seq<CaseOutcome> {
    FlatMap(cases, ExecuteOne(exec, iteration, params))
  }

  /** The aggregate of the in-process loop: every case executed here, in case order. */
  function InProcess(exec: Exec, cases: seq<string>, iteration: nat, params: Params, target: Target)
    : Result<IterationAggregate>
  {
    Aggregate(ExecuteAll(exec, cases, iteration, params), target.primary, target.reliability, target.grader)
  }

  // ---- The stored iteration against the in-process one ----

  ghost predicate IsPlan(e: Event, run: string, iteration: nat) {
    e.Plan? && e.run == run && e.iteration == iteration
  }

  /** Every planning of the iteration, restarts included, is for the run's one list of cases. */
  ghost predicate PlansCases(events: seq<Event>, run: string, iteration: nat, cases: seq<string>) {
    forall i :: 0 <= i < |events| && IsPlan(events[i], run, iteration) ==> events[i].caseIds == cases
  }

  /** The parameters of the first planning: later ones conflict and change nothing. */
  ghost function FirstParams(events: seq<Event>, run: string, iteration: nat): Option<Params> {
    if events == [] then None
    else
      var earlier := FirstParams(events[..|events| - 1], run, iteration);
      var last := events[|events| - 1];
      if earlier.Some? then earlier else if IsPlan(last, run, iteration) then Some(last.params) else None
  }

  /** Which jobs of an iteration exist, and with which parameters. */
  ghost predicate PlannedAs(s: State, run: string, iteration: nat, cases: seq<string>, params: Option<Params>) {
    forall k: Key :: k.run == run && k.iteration == iteration ==>
      && (k in s.jobs <==> params.Some? && k.caseId in cases)
      && (k in s.jobs ==> s.jobs[k].params == params.value)
  }

  lemma PlanStep(exec: Exec, s: State, e: Event, run: string, iteration: nat, cases: seq<string>,
                 params: Option<Params>)
    requires PlannedAs(s, run, iteration, cases, params)
    requires IsPlan(e, run, iteration) ==> e.caseIds == cases
    ensures PlannedAs(Apply(exec, s, e), run, iteration, cases,
                      if params.Some? then params else if IsPlan(e, run, iteration) then Some(e.params) else None)
  {
    var t := Apply(exec, s, e);
    if e.Plan? {
      forall k
        ensures k in t.jobs <==> k in s.jobs || (k.run == e.run && k.iteration == e.iteration && k.caseId in e.caseIds)
        ensures k in t.jobs && k !in s.jobs ==> t.jobs[k].params == e.params
        ensures k in s.jobs ==> t.jobs[k] == s.jobs[k]
      {
        InsertedKey(s.jobs, e.run, e.iteration, e.caseIds, Job(e.params, Pending, 0, e.maxAttempts), k);
      }
    } else {
      assert t.jobs.Keys == s.jobs.Keys;
      assert forall k :: k in s.jobs ==> t.jobs[k].params == s.jobs[k].params;
    }
  }

  lemma {:induction false} Planned(exec: Exec, events: seq<Event>, run: string, iteration: nat, cases: seq<string>)
    requires PlansCases(events, run, iteration, cases)
    ensures PlannedAs(Run(exec, EMPTY, events), run, iteration, cases, FirstParams(events, run, iteration))
  {
    if events != [] {
      var before := events[..|events| - 1];
      Planned(exec, before, run, iteration, cases);
      PlanStep(exec, Run(exec, EMPTY, before), events[|events| - 1], run, iteration, cases,
               FirstParams(before, run, iteration));
    }
  }

  /** Decoding the rows of an iteration gives back the outcomes the workers computed. */
  lemma DecodeFirst(o: CaseOutcome, rows: seq<Row>, rest: seq<CaseOutcome>)
    requires Decode(rows) == Ok(rest)
    ensures Decode([ToFields(o)] + rows) == Ok([o] + rest)
  {
    OutcomeRoundTrip(o);
    assert ([ToFields(o)] + rows)[1..] == rows;
  }

  lemma ExecuteFirst(exec: Exec, cases: seq<string>, iteration: nat, params: Params)
    requires cases != []
    ensures ExecuteAll(exec, cases, iteration, params)
            == [exec(cases[0], iteration, params)] + ExecuteAll(exec, cases[1..], iteration, params)
  {
  }

  lemma {:induction false} DecodeRows(exec: Exec, s: State, run: string, iteration: nat, cases: seq<string>,
                                      params: Params)
    requires forall c :: c in cases ==>
               && Key(run, iteration, c) in s.rows
               && s.rows[Key(run, iteration, c)] == RowFor(exec, Key(run, iteration, c), params)
    ensures Decode(RowsFor(s, run, iteration, cases)) == Ok(ExecuteAll(exec, cases, iteration, params))
  {
    if cases != [] {
      DecodeRows(exec, s, run, iteration, cases[1..], params);
      ExecuteFirst(exec, cases, iteration, params);
      DecodeFirst(exec(cases[0], iteration, params), RowsFor(s, run, iteration, cases[1..]),
                  ExecuteAll(exec, cases[1..], iteration, params));
    }
  }

  lemma {:induction false} ExecuteAllLength(exec: Exec, cases: seq<string>, iteration: nat, params: Params)
    ensures |ExecuteAll(exec, cases, iteration, params)| == |cases|
  {
    if cases != [] { ExecuteAllLength(exec, cases[1..], iteration, params); }
  }

  lemma CountMatches(outcomes: seq<CaseOutcome>, target: Target)
    ensures var r := Aggregate(outcomes, target.primary, target.reliability, target.grader);
            r.Ok? ==> r.value.caseCount == |outcomes|
  {
  }

  /** An iteration in a reachable state holds one row, with the worker's outcome, per finished case. */
  lemma StorageIs(exec: Exec, events: seq<Event>, run: string, iteration: nat, cases: seq<string>, target: Target)
    requires PlansCases(events, run, iteration, cases) && FirstParams(events, run, iteration).Some?
    ensures var s := Run(exec, EMPTY, events);
            && CasesWithRow(s, run, iteration) <= Elements(cases)
            && FromStorage(s, run, iteration, target)
               == InProcess(exec, Ascending(CasesWithRow(s, run, iteration)), iteration,
                            FirstParams(events, run, iteration).value, target)
  {
    var s := Run(exec, EMPTY, events);
    var params := FirstParams(events, run, iteration).value;
    RunKeeps(exec, EMPTY, events);
    Planned(exec, events, run, iteration, cases);
    var done := Ascending(CasesWithRow(s, run, iteration));
    forall c | c in done
      ensures Key(run, iteration, c) in s.rows
      ensures s.rows[Key(run, iteration, c)] == RowFor(exec, Key(run, iteration, c), params)
      ensures c in cases
    {
      var k :| k in s.rows && k.run == run && k.iteration == iteration && k.caseId == c;
      assert k == Key(run, iteration, c);
    }
    DecodeRows(exec, s, run, iteration, done, params);
  }

  lemma SameCasesSameAggregate(exec: Exec, a: seq<string>, b: seq<string>, iteration: nat, params: Params,
                               target: Target)
    requires Distinct(a) && Distinct(b) && forall x :: x in a <==> x in b
    ensures Core(InProcess(exec, a, iteration, params, target)) == Core(InProcess(exec, b, iteration, params, target))
  {
    DistinctSameMembers(a, b);
    FlatMapPermutes(a, b, ExecuteOne(exec, iteration, params));
    AggregateOrderFree(ExecuteAll(exec, a, iteration, params), ExecuteAll(exec, b, iteration, params),
                       target.primary, target.reliability, target.grader);
  }

  /**
   The aggregate rebuilt from storage is the in-process aggregate, on every field but the order
   of the outcome list, exactly when the cases are distinct and each has written its row.
   */
  lemma StorageMatchesExactly(exec: Exec, events: seq<Event>, run: string, iteration: nat, cases: seq<string>,
                              target: Target)
    requires PlansCases(events, run, iteration, cases) && FirstParams(events, run, iteration).Some?
    requires InProcess(exec, cases, iteration, FirstParams(events, run, iteration).value, target).Ok?
    ensures var s := Run(exec, EMPTY, events);
            Core(FromStorage(s, run, iteration, target))
            == Core(InProcess(exec, cases, iteration, FirstParams(events, run, iteration).value, target))
            <==> Distinct(cases) && forall c :: c in cases ==> Key(run, iteration, c) in s.rows
  {
    var s := Run(exec, EMPTY, events);
    var params := FirstParams(events, run, iteration).value;
    var withRow := CasesWithRow(s, run, iteration);
    var done := Ascending(withRow);
    StorageIs(exec, events, run, iteration, cases, target);
    ElementsSize(cases);
    assert withRow == Elements(cases) <==> forall c :: c in cases ==> Key(run, iteration, c) in s.rows by {
      forall c
        ensures c in withRow <==> Key(run, iteration, c) in s.rows
      {
        if Key(run, iteration, c) in s.rows { assert Key(run, iteration, c).caseId in withRow; }
      }
    }
    if Core(FromStorage(s, run, iteration, target)) == Core(InProcess(exec, cases, iteration, params, target)) {
      CountMatches(ExecuteAll(exec, cases, iteration, params), target);
      CountMatches(ExecuteAll(exec, done, iteration, params), target);
      ExecuteAllLength(exec, cases, iteration, params);
      ExecuteAllLength(exec, done, iteration, params);
      SubsetSize(withRow, Elements(cases));
    } else if Distinct(cases) && withRow == Elements(cases) {
      SameCasesSameAggregate(exec, done, cases, iteration, params, target);
    }
  }

  /** What the barrier promises: every case of the iteration has its row or was given up on. */
  lemma BarrierMeansDone(exec: Exec, events: seq<Event>, run: string, iteration: nat, cases: seq<string>, c: string)
    requires PlansCases(events, run, iteration, cases) && FirstParams(events, run, iteration).Some?
    requires BarrierClear(Run(exec, EMPTY, events), run, iteration) && c in cases
    ensures var s := Run(exec, EMPTY, events);
            Key(run, iteration, c) in s.rows
            || (Key(run, iteration, c) in s.jobs && s.jobs[Key(run, iteration, c)].status == DeadLettered)
  {
    RunKeeps(exec, EMPTY, events);
    Planned(exec, events, run, iteration, cases);
    var k := Key(run, iteration, c);
    assert k.run == run && k.iteration == iteration;
  }

  /**
   For every interleaving of planning and re-planning, claims, writes, failures, retries and
   crashes: once the barrier has cleared with no case given up on, the coordinator reads the
   in-process aggregate, whatever else happens before it reads.
   */
  lemma ShardedEqualsInProcess(exec: Exec, before: seq<Event>, after: seq<Event>, run: string, iteration: nat,
                               cases: seq<string>, target: Target)
    requires PlansCases(before + after, run, iteration, cases) && FirstParams(before, run, iteration).Some?
    requires Distinct(cases)
    requires BarrierClear(Run(exec, EMPTY, before), run, iteration)
    requires forall k :: k in Run(exec, EMPTY, before).jobs && k.run == run && k.iteration == iteration ==>
               Run(exec, EMPTY, before).jobs[k].status != DeadLettered
    ensures Core(FromStorage(Run(exec, EMPTY, before + after), run, iteration, target))
            == Core(InProcess(exec, cases, iteration, FirstParams(before, run, iteration).value, target))
  {
    var s, t := Run(exec, EMPTY, before), Run(exec, EMPTY, before + after);
    FirstParamsKept(before, after, run, iteration);
    assert PlansCases(before, run, iteration, cases) by {
      assert forall i :: 0 <= i < |before| ==> before[i] == (before + after)[i];
    }
    RunSplit(exec, EMPTY, before, after);
    RunKeeps(exec, EMPTY, before);
    RunKeeps(exec, s, after);
    StorageIs(exec, before + after, run, iteration, cases, target);
    var done := CasesWithRow(t, run, iteration);
    forall c
      ensures c in done <==> c in cases
    {
      if c in cases {
        BarrierMeansDone(exec, before, run, iteration, cases, c);
        assert Key(run, iteration, c) in t.rows;
      }
    }
    SameCasesSameAggregate(exec, Ascending(done), cases, iteration, FirstParams(before, run, iteration).value, target);
  }

  lemma {:induction false} FirstParamsKept(before: seq<Event>, after: seq<Event>, run: string, iteration: nat)
    requires FirstParams(before, run, iteration).Some?
    ensures FirstParams(before + after, run, iteration) == FirstParams(before, run, iteration)
  {
    if after == [] {
      assert before + after == before;
    } else {
      FirstParamsKept(before, after[..|after| - 1], run, iteration);
      assert (before + after)[..|before + after| - 1] == before + after[..|after| - 1];
    }
  }
}
