/**
 What a full queue leads to in the span broker (api/broker.py): which subscribers are dropped from
 the list while they still listen, and which streams can still end.
 */
module BrokerOverflow {
  import opened Wrappers
  import opened Broker

  // ---- Who is dropped ----

  /** A span is offered to the subscriber and finds its queue full. */
  ghost predicate Overflows(w: World, e: Event, id: Id) {
    e.Publish? && id in w.subs && Sends(w, e, id) != [] && |w.subs[id].queue| >= QUEUE_MAXSIZE
  }

  /** Another subscriber of the run leaves. */
  ghost predicate OtherLeaves(w: World, e: Event, id: Id, key: Key) {
    && e.Detach? && e.id != id && e.id in w.subs && w.subs[e.id].key == key
    && (w.subs[e.id].phase == Listening || w.subs[e.id].phase == Ended)
  }

  ghost predicate OverflowsAt(events: seq<Event>, i: nat, id: Id)
    requires i < |events|
  {
    Overflows(Run(events[..i]), events[i], id)
  }

  ghost predicate OtherLeavesAt(events: seq<Event>, i: nat, id: Id, key: Key)
    requires i < |events|
  {
    OtherLeaves(Run(events[..i]), events[i], id, key)
  }

  ghost predicate HasOverflowed(events: seq<Event>, id: Id) {
    exists i :: 0 <= i < |events| && OverflowsAt(events, i, id)
  }

  /** A span found the queue full, and later another subscriber of the run left. */
  ghost predicate WasSwept(events: seq<Event>, id: Id, key: Key) {
    exists i, j :: 0 <= i < j < |events| && OverflowsAt(events, i, id) && OtherLeavesAt(events, j, id, key)
  }

  lemma OverflowedSoFar(events: seq<Event>, id: Id)
    requires events != []
    ensures var front := events[..|events| - 1];
            HasOverflowed(events, id)
            <==> HasOverflowed(front, id) || Overflows(Run(front), events[|events| - 1], id)
  {
    var front := events[..|events| - 1];
    assert forall i :: 0 <= i < |front| ==> events[..i] == front[..i];
    assert forall i :: 0 <= i < |front| ==> (OverflowsAt(events, i, id) <==> OverflowsAt(front, i, id));
    assert OverflowsAt(events, |front|, id) <==> Overflows(Run(front), events[|events| - 1], id);
  }

  lemma SweptSoFar(events: seq<Event>, id: Id, key: Key)
    requires events != []
    ensures var front := events[..|events| - 1];
            WasSwept(events, id, key)
            <==> WasSwept(front, id, key)
                 || (HasOverflowed(front, id) && OtherLeaves(Run(front), events[|events| - 1], id, key))
  {
    var front := events[..|events| - 1];
    assert forall i :: 0 <= i < |front| ==> events[..i] == front[..i];
    assert forall i :: 0 <= i < |front| ==> (OverflowsAt(events, i, id) <==> OverflowsAt(front, i, id));
    assert forall i :: 0 <= i < |front| ==> (OtherLeavesAt(events, i, id, key) <==> OtherLeavesAt(front, i, id, key));
    assert OtherLeavesAt(events, |front|, id, key) <==> OtherLeaves(Run(front), events[|events| - 1], id, key);
    if HasOverflowed(front, id) && OtherLeaves(Run(front), events[|events| - 1], id, key) {
      var i :| 0 <= i < |front| && OverflowsAt(front, i, id);
      assert OverflowsAt(events, i, id);
    }
  }

  /** A listening subscriber, one event later. */
  lemma ListeningStep(w: World, e: Event, id: Id)
    requires Invariant(w) && id in w.subs && w.subs[id].phase == Listening
    requires Apply(w, e).subs[id].phase == Listening
    ensures var t := Apply(w, e);
            && t.subs[id].key == w.subs[id].key
            && (t.subs[id].closed <==> w.subs[id].closed || Overflows(w, e, id))
            && (!Listed(t, id) <==> !Listed(w, id) || (w.subs[id].closed && OtherLeaves(w, e, id, w.subs[id].key)))
  {
    if e.Detach? { LeavingStep(w, e, id); } else { StayingStep(w, e, id); }
  }

  lemma LeavingStep(w: World, e: Event, id: Id)
    requires Invariant(w) && id in w.subs && w.subs[id].phase == Listening && e.Detach? && e.id != id
    ensures var t := Apply(w, e);
            && id in t.subs && t.subs[id] == w.subs[id]
            && (!Listed(t, id) <==> !Listed(w, id) || (w.subs[id].closed && OtherLeaves(w, e, id, w.subs[id].key)))
  {
    if Apply(w, e) != w { DetachChannels(w, e); }
  }

  lemma StayingStep(w: World, e: Event, id: Id)
    requires Invariant(w) && id in w.subs && !e.Detach?
    ensures var t := Apply(w, e);
            && id in t.subs && t.subs[id].key == w.subs[id].key
            && (t.subs[id].closed <==> w.subs[id].closed || Overflows(w, e, id))
            && (Listed(t, id) <==> Listed(w, id))
  {
  }

  lemma NewListener(w: World, e: Event, id: Id)
    requires Invariant(w) && id !in w.subs && id in Apply(w, e).subs
    ensures !Apply(w, e).subs[id].closed && Listed(Apply(w, e), id)
    ensures !Overflows(w, e, id)
  {
  }

  lemma {:induction false} UnknownNeverOverflows(events: seq<Event>, id: Id)
    requires id !in Run(events).subs
    ensures !HasOverflowed(events, id)
  {
    if events != [] {
      var front := events[..|events| - 1];
      SubsStay(Run(front), events[|events| - 1]);
      UnknownNeverOverflows(front, id);
      OverflowedSoFar(events, id);
    }
  }

  lemma NeverOverflowedNeverSwept(events: seq<Event>, id: Id, key: Key)
    requires !HasOverflowed(events, id)
    ensures !WasSwept(events, id, key)
  {
  }

  lemma StillListens(w: World, e: Event, id: Id)
    requires id in w.subs && Apply(w, e).subs[id].phase == Listening
    ensures w.subs[id].phase == Listening && (e.Detach? ==> e.id != id || Apply(w, e) == w)
  {
  }

  /**
   A listening subscriber is marked exactly when a span found its queue full, and it is off its
   run's list exactly when, after such a span, another subscriber of the run left.
   */
  lemma {:induction false} DroppedExactly(events: seq<Event>, id: Id)
    requires id in Run(events).subs && Run(events).subs[id].phase == Listening
    ensures Run(events).subs[id].closed <==> HasOverflowed(events, id)
    ensures !Listed(Run(events), id) <==> WasSwept(events, id, Run(events).subs[id].key)
  {
    var front, e := events[..|events| - 1], events[|events| - 1];
    var w := Run(front);
    RunKeeps(front);
    OverflowedSoFar(events, id);
    SweptSoFar(events, id, Run(events).subs[id].key);
    if id in w.subs {
      StillListens(w, e, id);
      DroppedExactly(front, id);
      ListeningStep(w, e, id);
    } else {
      NewListener(w, e, id);
      UnknownNeverOverflows(front, id);
      NeverOverflowedNeverSwept(front, id, Run(events).subs[id].key);
    }
  }

  // ---- A run that drops a slow reader ----

  function Spans(n: nat, payload: string): (r: seq<Item>)
    ensures |r| == n && NoClose(r)
  {
    if n == 0 then [] else Spans(n - 1, payload) + [Span(payload)]
  }

  /** Two readers of one run, and `n` spans that only the second one reads. */
  function Feed(key: Key, payload: string, n: nat): seq<Event> {
    if n == 0 then [Attach(0, key), Attach(1, key)]
    else Feed(key, payload, n - 1) + [Publish(key, payload)] + [Consume(1)]
  }

  ghost predicate Fed(w: World, key: Key, payload: string, n: nat) {
    && w.channels == map[key := Channel([0, 1], false, None)]
    && w.subs == map[0 := Subscriber(key, Spans(n, payload), false, Listening),
                     1 := Subscriber(key, [], false, Listening)]
  }

  lemma FeedStarts(key: Key, payload: string)
    ensures Fed(Run(Feed(key, payload, 0)), key, payload, 0)
  {
    RunSplit([], Attach(0, key));
    RunSplit([Attach(0, key)], Attach(1, key));
    assert [] + [Attach(0, key)] == [Attach(0, key)];
    assert [Attach(0, key)] + [Attach(1, key)] == [Attach(0, key), Attach(1, key)];
    var none: seq<Id> := [];
    assert none + [0] == [0] && [0] + [1] == [0, 1];
    var w := Apply(START, Attach(0, key));
    assert w.channels == map[key := Channel([0], false, None)];
    var v := Apply(w, Attach(1, key));
    assert v.channels == map[key := Channel([0, 1], false, None)];
    assert v.subs.Keys == {0, 1} && Spans(0, payload) == [];
  }

  lemma OneMoreSpan(w: World, key: Key, payload: string, n: nat)
    requires Fed(w, key, payload, n) && n < QUEUE_MAXSIZE
    ensures Fed(Apply(Apply(w, Publish(key, payload)), Consume(1)), key, payload, n + 1)
  {
    var v := Apply(w, Publish(key, payload));
    assert v.subs[0] == Subscriber(key, Spans(n + 1, payload), false, Listening);
    assert v.subs[1] == Subscriber(key, [Span(payload)], false, Listening);
    var t := Apply(v, Consume(1));
    assert t.subs[1] == Subscriber(key, [], false, Listening);
    assert t.subs.Keys == {0, 1};
  }

  lemma {:induction false} FeedFeeds(key: Key, payload: string, n: nat)
    requires n <= QUEUE_MAXSIZE
    ensures Fed(Run(Feed(key, payload, n)), key, payload, n)
  {
    if n == 0 {
      FeedStarts(key, payload);
    } else {
      FeedFeeds(key, payload, n - 1);
      var before := Feed(key, payload, n - 1);
      RunSplit(before, Publish(key, payload));
      RunSplit(before + [Publish(key, payload)], Consume(1));
      OneMoreSpan(Run(before), key, payload, n - 1);
    }
  }

  /** 256 spans one of two readers does not read, one more, and the other reader leaves. */
  function SlowReader(key: Key, payload: string): seq<Event> {
    Feed(key, payload, 256) + [Publish(key, payload)] + [Detach(1)]
  }

  /** That run strands the slow reader: it listens, is on no list, and has no close in its queue. */
  lemma SlowReaderIsStranded(key: Key, payload: string)
    ensures Stranded(Run(SlowReader(key, payload)), 0)
  {
    var fed := Feed(key, payload, QUEUE_MAXSIZE);
    FeedFeeds(key, payload, QUEUE_MAXSIZE);
    RunKeeps(fed);
    OverflowStrands(Run(fed), 0, 1, key, payload);
    RunSplit(fed, Publish(key, payload));
    RunSplit(fed + [Publish(key, payload)], Detach(1));
  }

  // ---- Which streams can still end ----

  ghost predicate EndsAfter(events: seq<Event>, more: seq<Event>, id: Id) {
    var w := Run(events + more);
    id in w.subs && w.subs[id].phase == Ended
  }

  lemma ConsumeStep(events: seq<Event>, id: Id)
    requires CanConsume(Run(events), id)
    ensures Run(events + [Consume(id)]) == Apply(Run(events), Consume(id))
    ensures var t := Run(events + [Consume(id)]);
            && id in t.subs && t.subs[id] == Taken(Run(events).subs[id])
            && (Listed(t, id) <==> Listed(Run(events), id))
  {
    RunSplit(events, Consume(id));
  }

  lemma CloseThenRead(events: seq<Event>, id: Id)
    requires Listed(Run(events), id) && Run(events).subs[id].phase == Listening && Run(events).subs[id].queue == []
    ensures EndsAfter(events, [Close(Run(events).subs[id].key, ""), Consume(id)], id)
  {
    var close := Close(Run(events).subs[id].key, "");
    RunSplit(events, close);
    assert Run(events + [close]).subs[id].queue == [Closed("")];
    RunSplit(events + [close], Consume(id));
    assert events + [close, Consume(id)] == events + [close] + [Consume(id)];
  }

  /** Reads the queue up, and closes the run if that brought no close. */
  lemma {:induction false} WayToEnd(events: seq<Event>, id: Id) returns (more: seq<Event>)
    requires id in Run(events).subs && Run(events).subs[id].phase == Listening && !Stranded(Run(events), id)
    ensures EndsAfter(events, more, id)
    decreases |Run(events).subs[id].queue|
  {
    var sub := Run(events).subs[id];
    if sub.queue == [] {
      CloseThenRead(events, id);
      more := [Close(sub.key, ""), Consume(id)];
    } else {
      ConsumeStep(events, id);
      if sub.queue[0].Closed? {
        more := [Consume(id)];
      } else {
        assert !NoClose(sub.queue) ==> !NoClose(sub.queue[1..]) by {
          if !NoClose(sub.queue) {
            var i :| 0 <= i < |sub.queue| && !sub.queue[i].Span?;
            assert sub.queue[1..][i - 1] == sub.queue[i];
          }
        }
        var rest := WayToEnd(events + [Consume(id)], id);
        more := [Consume(id)] + rest;
        assert events + more == events + [Consume(id)] + rest;
      }
    }
  }

  /** The stream of a listening subscriber can still end exactly when it is not stranded. */
  lemma CanEndExactly(events: seq<Event>, id: Id)
    requires id in Run(events).subs && Run(events).subs[id].phase == Listening
    ensures (exists more :: EndsAfter(events, more, id)) <==> !Stranded(Run(events), id)
  {
    if Stranded(Run(events), id) {
      forall more
        ensures !EndsAfter(events, more, id)
      {
        StrandedForever(events, id, more);
      }
    } else {
      var more := WayToEnd(events, id);
    }
  }

  // ---- A broker with bounded queues ----

  /**
   What a subscriber would have of the ideal stream if an item were left out exactly when 256
   of those kept before it have not been read yet.
   */
  ghost function Kept(start: seq<Event>, id: Id, key: Key, after: seq<Event>): seq<Item> {
    if after == [] then []
    else
      var front := after[..|after| - 1];
      var kept, unread := Kept(start, id, key, front), |Kept(start, id, key, front)| - |Received(start + front, id)|;
      if unread < 256 then kept + Ideal(after, key)[|Ideal(front, key)|..] else kept
  }

  lemma KeptStep(start: seq<Event>, id: Id, key: Key, front: seq<Event>, e: Event, w: World)
    requires w == Run(start + front) && Invariant(w) && Listed(w, id)
    requires Follows(w, id, key, Ideal(front, key), Ideal(front, key))
    requires Stream(start + front, id) == Kept(start, id, key, front)
    ensures Stream(start + front + [e], id) == Kept(start, id, key, front + [e])
  {
    var all := start + front + [e];
    assert all[..|all| - 1] == start + front && (front + [e])[..|front|] == front;
    StreamStep(all, id);
    OfferIsIdeal(w, e, id, key, front);
    assert Ideal(front + [e], key)[|Ideal(front, key)|..] == Sends(w, e, id);
  }

  /** As long as a subscriber is on its run's list, marked or not, it has what such a broker gives it. */
  lemma {:induction false} ListedStreamExactly(before: seq<Event>, id: Id, key: Key, after: seq<Event>)
    requires id !in Run(before).subs && !ChannelOf(Run(before), key).closed
    requires Listed(Run(before + [Attach(id, key)] + after), id)
    ensures Stream(before + [Attach(id, key)] + after, id) == Kept(before + [Attach(id, key)], id, key, after)
  {
    var start := before + [Attach(id, key)];
    if after == [] {
      assert start + after == start;
      OffersFollow(before, id, key, []);
      NeverLate(before, id, key, []);
      StreamConserved(start, id);
      assert Stream(start, id)[0..] == Stream(start, id);
    } else {
      var most, e := after[..|after| - 1], after[|after| - 1];
      assert start + after == (start + most) + [e] && after == most + [e];
      OneMore(start + most, e, id);
      RunKeeps(start + most);
      AttachedStays(before, id, key, most);
      if !Listed(Run(start + most), id) { UnlistedStays(Run(start + most), e, id); }
      ListedStreamExactly(before, id, key, most);
      OffersFollow(before, id, key, most);
      KeptStep(start, id, key, most, e, Run(start + most));
    }
  }
}
