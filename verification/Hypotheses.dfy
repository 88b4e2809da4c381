/**
 How the offline LLM proposer uses up hypotheses (optimization/proposers.py and the
 persistence around it in optimization/loop.py). Error analysis may seed more at any time.
 */
module Hypotheses {
  import opened Wrappers
  import opened Sums
  import opened Ordering
  import Sharding

  type Params = Sharding.Params

  datatype Hypothesis = Hypothesis(id: string, createdAt: int, parameters: Params, consumedBy: Option<nat>)

  predicate Unused(h: Hypothesis) { h.consumedBy.None? }

  /** Oldest first, then by id. */
  predicate Before(a: Hypothesis, b: Hypothesis) {
    a.createdAt < b.createdAt || (a.createdAt == b.createdAt && TextLe(a.id, b.id))
  }

  /** `_pending_hypotheses`. */
  function Pending(records: seq<Hypothesis>): seq<Hypothesis> { Sort(Filter(records, Unused), Before) }

  /** The record of one id, stamped. */
  function Stamp(id: string, index: nat): Hypothesis -> Hypothesis {
    (h: Hypothesis) => if h.id == id then h.(consumedBy := Some(index)) else h
  }

  function Chosen(records: seq<Hypothesis>): Option<Hypothesis> {
    if Pending(records) == [] then None else Some(Pending(records)[0])
  }

  /** The records after a proposal at `index`; nothing pending changes nothing. */
  function Consumed(records: seq<Hypothesis>, index: nat): seq<Hypothesis> {
    if Chosen(records).None? then records else Map(records, Stamp(Chosen(records).value.id, index))
  }

  lemma BeforeIsPreorder()
    ensures TotalPreorder(Before)
  {
    forall a: Hypothesis, b: Hypothesis
      ensures Before(a, b) || Before(b, a)
    {
      TextTotal(a.id, b.id);
    }
    forall a: Hypothesis, b: Hypothesis, c: Hypothesis | Before(a, b) && Before(b, c)
      ensures Before(a, c)
    {
      if TextLe(a.id, b.id) && TextLe(b.id, c.id) { TextTransitive(a.id, b.id, c.id); }
    }
  }

  lemma PendingMember(records: seq<Hypothesis>, h: Hypothesis)
    ensures h in Pending(records) <==> h in records && Unused(h)
  {
    SortPermutes(Filter(records, Unused), Before);
    FilterMember(records, Unused, h);
    SameMembers(Pending(records), Filter(records, Unused));
  }

  /** The proposal is the oldest hypothesis nothing has used, and there is none exactly when all are used. */
  lemma OldestUnusedExactly(records: seq<Hypothesis>)
    ensures Chosen(records).None? <==> forall h :: h in records ==> !Unused(h)
    ensures Chosen(records).Some? ==>
              var c := Chosen(records).value;
              c in records && Unused(c) && forall h :: h in records && Unused(h) ==> Before(c, h)
  {
    var pending := Pending(records);
    forall h { PendingMember(records, h); }
    BeforeIsPreorder();
    SortSorted(Filter(records, Unused), Before);
    if pending != [] {
      assert pending[0] in pending;
      forall h | h in pending
        ensures Before(pending[0], h)
      {
        var i :| 0 <= i < |pending| && pending[i] == h;
        if i == 0 { TextTotal(h.id, h.id); }
      }
    }
  }

  class Store {
    var records: seq<Hypothesis>

    constructor (records: seq<Hypothesis>)
      ensures this.records == records
    {
      this.records := records;
    }

    /** `_mark_consumed` and `_persist_consumed_hypotheses`. */
    method MarkConsumed(id: string, index: nat)
      modifies this
      ensures records == Map(old(records), Stamp(id, index))
    {
      records := StampAll(records, id, index);
    }

    /** `_propose_offline`: None is SearchSpaceExhaustedError. */
    method ProposeOffline(index: nat) returns (r: Option<Params>)
      modifies this
      ensures records == Consumed(old(records), index)
      ensures r == if Chosen(old(records)).None? then None else Some(Chosen(old(records)).value.parameters)
    {
      var h := NextPending(Pending(records));
      FirstPending(records);
      if h.None? { return None; }
      MarkConsumed(h.value.id, index);
      return Some(h.value.parameters);
    }
  }

  method StampAll(records: seq<Hypothesis>, id: string, index: nat) returns (r: seq<Hypothesis>)
    ensures r == Map(records, Stamp(id, index))
  {
    r := [];
    for i := 0 to |records|
      invariant r == Map(records[..i], Stamp(id, index))
    {
      var h := if records[i].id == id then records[i].(consumedBy := Some(index)) else records[i];
      MapNext(records, i, Stamp(id, index));
      r := r + [h];
    }
    assert records[..|records|] == records;
  }

  /** `_next_pending_hypothesis`. */
  method NextPending(pending: seq<Hypothesis>) returns (r: Option<Hypothesis>)
    ensures r.None? <==> forall h :: h in pending ==> !Unused(h)
    ensures r.Some? ==> exists i :: 0 <= i < |pending| && pending[i] == r.value && Unused(pending[i])
                                    && forall j :: 0 <= j < i ==> !Unused(pending[j])
  {
    for i := 0 to |pending|
      invariant forall j :: 0 <= j < i ==> !Unused(pending[j])
    {
      assert pending[i] in pending;
      if pending[i].consumedBy.None? { return Some(pending[i]); }
    }
    return None;
  }

  /** Everything pending is unused, so the first of it is what the proposer takes. */
  lemma FirstPending(records: seq<Hypothesis>)
    ensures forall i :: 0 <= i < |Pending(records)| ==> Unused(Pending(records)[i])
  {
    forall i | 0 <= i < |Pending(records)|
      ensures Unused(Pending(records)[i])
    {
      PendingMember(records, Pending(records)[i]);
    }
  }

  // ---- A whole run ----

  /** The records before iteration n proposes: `seeds(i)` arrive before iteration i. */
  function Offered(start: seq<Hypothesis>, seeds: nat -> seq<Hypothesis>, n: nat): seq<Hypothesis> {
    (if n == 0 then start else Consumed(Offered(start, seeds, n - 1), n - 1)) + seeds(n)
  }

  ghost predicate UniqueIds(records: seq<Hypothesis>) {
    forall i, j :: 0 <= i < j < |records| ==> records[i].id != records[j].id
  }

  ghost predicate UsedUp(records: seq<Hypothesis>, id: string) {
    exists i :: 0 <= i < |records| && records[i].id == id && !Unused(records[i])
  }

  lemma ChosenIsUsedUp(records: seq<Hypothesis>, index: nat, more: seq<Hypothesis>)
    requires Chosen(records).Some?
    ensures UsedUp(Consumed(records, index) + more, Chosen(records).value.id)
  {
    OldestUnusedExactly(records);
    var c, next := Chosen(records).value, Consumed(records, index) + more;
    var i :| 0 <= i < |records| && records[i] == c;
    assert next[i].id == c.id && !Unused(next[i]);
  }

  lemma StaysUsedUp(records: seq<Hypothesis>, index: nat, more: seq<Hypothesis>, id: string)
    requires UsedUp(records, id)
    ensures UsedUp(Consumed(records, index) + more, id)
  {
    var i :| 0 <= i < |records| && records[i].id == id && !Unused(records[i]);
    var next := Consumed(records, index) + more;
    assert next[i].id == id && !Unused(next[i]);
  }

  lemma OfferedNext(start: seq<Hypothesis>, seeds: nat -> seq<Hypothesis>, n: nat, next: nat)
    requires next == n + 1
    ensures Offered(start, seeds, next) == Consumed(Offered(start, seeds, n), n) + seeds(next)
  {
  }

  lemma UsedUpNext(start: seq<Hypothesis>, seeds: nat -> seq<Hypothesis>, id: string, n: nat, next: nat)
    requires next == n + 1 && UsedUp(Offered(start, seeds, n), id)
    ensures UsedUp(Offered(start, seeds, next), id)
  {
    OfferedNext(start, seeds, n, next);
    StaysUsedUp(Offered(start, seeds, n), n, seeds(next), id);
  }

  lemma ChosenIsUsedUpNext(start: seq<Hypothesis>, seeds: nat -> seq<Hypothesis>, n: nat, next: nat)
    requires next == n + 1 && Chosen(Offered(start, seeds, n)).Some?
    ensures UsedUp(Offered(start, seeds, next), Chosen(Offered(start, seeds, n)).value.id)
  {
    OfferedNext(start, seeds, n, next);
    ChosenIsUsedUp(Offered(start, seeds, n), n, seeds(next));
  }

  lemma {:induction false} UsedUpStays(start: seq<Hypothesis>, seeds: nat -> seq<Hypothesis>, id: string, i: nat,
                                       j: nat)
    requires i <= j && UsedUp(Offered(start, seeds, i), id)
    ensures UsedUp(Offered(start, seeds, j), id)
  {
    if i < j {
      UsedUpStays(start, seeds, id, i, j - 1);
      UsedUpNext(start, seeds, id, j - 1, j);
    }
  }

  lemma UsedUpForGood(start: seq<Hypothesis>, seeds: nat -> seq<Hypothesis>, i: nat, j: nat)
    requires i < j && Chosen(Offered(start, seeds, i)).Some?
    ensures UsedUp(Offered(start, seeds, j), Chosen(Offered(start, seeds, i)).value.id)
  {
    ChosenIsUsedUpNext(start, seeds, i, i + 1);
    UsedUpStays(start, seeds, Chosen(Offered(start, seeds, i)).value.id, i + 1, j);
  }

  /** However hypotheses are seeded between iterations, no two iterations apply the same one. */
  lemma NeverAppliedTwice(start: seq<Hypothesis>, seeds: nat -> seq<Hypothesis>, i: nat, j: nat)
    requires i < j && UniqueIds(Offered(start, seeds, j))
    requires Chosen(Offered(start, seeds, i)).Some? && Chosen(Offered(start, seeds, j)).Some?
    ensures Chosen(Offered(start, seeds, i)).value.id != Chosen(Offered(start, seeds, j)).value.id
  {
    var records := Offered(start, seeds, j);
    UsedUpForGood(start, seeds, i, j);
    OldestUnusedExactly(records);
    var k :| 0 <= k < |records| && records[k].id == Chosen(Offered(start, seeds, i)).value.id && !Unused(records[k]);
    var m :| 0 <= m < |records| && records[m] == Chosen(records).value;
    assert k != m;
  }

  /** A proposal uses up exactly one hypothesis. */
  lemma {:induction false} PendingShrinks(records: seq<Hypothesis>, index: nat)
    requires UniqueIds(records)
    ensures Count(Consumed(records, index), Unused)
            == if Count(records, Unused) == 0 then 0 else Count(records, Unused) - 1
  {
    OldestUnusedExactly(records);
    CountUnused(records);
    if Chosen(records).Some? {
      StampCount(records, Chosen(records).value, index);
    }
  }

  lemma CountUnused(records: seq<Hypothesis>)
    ensures Count(records, Unused) == 0 <==> Chosen(records).None?
  {
    SortPermutes(Filter(records, Unused), Before);
  }

  lemma {:induction false} StampOthers(records: seq<Hypothesis>, id: string, index: nat)
    requires forall h :: h in records ==> h.id != id
    ensures Map(records, Stamp(id, index)) == records
  {
    if records != [] {
      assert records[0] in records && forall h :: h in records[1..] ==> h in records;
      StampOthers(records[1..], id, index);
    }
  }

  lemma {:induction false} StampCount(records: seq<Hypothesis>, h: Hypothesis, index: nat)
    requires UniqueIds(records) && h in records && Unused(h)
    ensures Count(Map(records, Stamp(h.id, index)), Unused) == Count(records, Unused) - 1
  {
    var rest := records[1..];
    assert UniqueIds(rest);
    assert Map(records, Stamp(h.id, index))[1..] == Map(rest, Stamp(h.id, index));
    if records[0] == h {
      assert forall g :: g in rest ==> g.id != h.id;
      StampOthers(rest, h.id, index);
    } else {
      assert h in rest;
      var i :| 0 <= i < |records| && records[i] == h;
      assert records[0].id != h.id;
      StampCount(rest, h, index);
    }
  }
}
