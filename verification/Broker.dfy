/**
 The in-process span broker (api/broker.py): fan-out from a receiver to subscribers with
 bounded queues. Every event is one uninterrupted stretch of the event loop; the broker's
 lock is never held across a suspension, so it never delays anyone.
 */
module Broker {
  import opened Wrappers
  import opened Sums

  type Key = (string, string)
  type Id = nat

  datatype Item = Span(payload: string) | Closed(finalState: string)

  /**
   Where a subscriber's generator stands: in its loop, past a close event, past its `finally`, or
   never in the loop.
   */
  datatype Phase = Listening | Ended | Gone | Late

  datatype Subscriber = Subscriber(key: Key, queue: seq<Item>, closed: bool, phase: Phase)

  datatype Channel = Channel(subscribers: seq<Id>, closed: bool, finalState: Option<string>)

  datatype World = World(channels: map<Key, Channel>, subs: map<Id, Subscriber>)

  datatype Event =
    | MarkActive(key: Key)
    | Attach(id: Id, key: Key)
    | Publish(key: Key, payload: string)
    | Close(key: Key, finalState: string)
    | Consume(id: Id)
    | Detach(id: Id)

  const QUEUE_MAXSIZE: nat := 256

  const FRESH := Channel([], false, None)

  const START := World(map[], map[])

  // ---- One step ----

  /** `put_nowait`: None is QueueFull. */
  function Put(sub: Subscriber, item: Item): Option<Subscriber> {
    if |sub.queue| < QUEUE_MAXSIZE then Some(sub.(queue := sub.queue + [item])) else None
  }

  function OfferSpan(sub: Subscriber, payload: string): Subscriber {
    match Put(sub, Span(payload))
    case Some(grown) => grown
    case None =>
      var dropped := sub.(closed := true);
      match Put(dropped, Closed("disconnected"))
      case Some(told) => told
      case None => dropped
  }

  function OfferClose(sub: Subscriber, finalState: string): Subscriber {
    match Put(sub, Closed(finalState))
    case Some(grown) => grown
    case None => sub
  }

  function ChannelOf(w: World, key: Key): Channel { if key in w.channels then w.channels[key] else FRESH }

  /** `final_state or "completed"`. */
  function FinalState(c: Channel): string {
    if c.finalState.Some? && c.finalState.value != "" then c.finalState.value else "completed"
  }

  function SpanToAll(subs: map<Id, Subscriber>, ids: seq<Id>, payload: string): map<Id, Subscriber> {
    map id | id in subs :: if id in ids then OfferSpan(subs[id], payload) else subs[id]
  }

  function CloseToAll(subs: map<Id, Subscriber>, ids: seq<Id>, finalState: string): map<Id, Subscriber> {
    map id | id in subs :: if id in ids then OfferClose(subs[id], finalState) else subs[id]
  }

  function StillOpen(subs: map<Id, Subscriber>): Id -> bool { (id: Id) => id in subs && !subs[id].closed }

  /** What the `finally` of a subscription does to its channel. */
  function Unlink(channels: map<Key, Channel>, subs: map<Id, Subscriber>, key: Key): map<Key, Channel> {
    if key !in channels then channels
    else
      var left := channels[key].(subscribers := Filter(channels[key].subscribers, StillOpen(subs)));
      if left.subscribers == [] && left.closed then channels - {key} else channels[key := left]
  }

  predicate CanConsume(w: World, id: Id) { id in w.subs && w.subs[id].phase == Listening && w.subs[id].queue != [] }

  /** An event that is not possible in a world leaves it as it is. */
  function Apply(w: World, e: Event): World {
    match e
    case MarkActive(key) => w.(channels := w.channels[key := ChannelOf(w, key)])
    case Attach(id, key) =>
      if id in w.subs then w
      else
        var channel := ChannelOf(w, key);
        World(w.channels[key := channel.(subscribers := channel.subscribers + [id])],
              w.subs[id := Subscriber(key, [], false, if channel.closed then Late else Listening)])
    case Publish(key, payload) =>
      if key !in w.channels || w.channels[key].closed then w
      else w.(subs := SpanToAll(w.subs, w.channels[key].subscribers, payload))
    case Close(key, finalState) =>
      if key !in w.channels then w.(channels := w.channels[key := Channel([], true, Some(finalState))])
      else
        World(w.channels[key := w.channels[key].(closed := true, finalState := Some(finalState))],
              CloseToAll(w.subs, w.channels[key].subscribers, finalState))
    case Consume(id) =>
      if CanConsume(w, id) then
        w.(subs := w.subs[id := Taken(w.subs[id])])
      else w
    case Detach(id) =>
      if id in w.subs && (w.subs[id].phase == Listening || w.subs[id].phase == Ended) then
        var subs := w.subs[id := w.subs[id].(closed := true, phase := Gone)];
        World(Unlink(w.channels, subs, w.subs[id].key), subs)
      else w
  }

  /** The head of the queue is yielded; a close event ends the loop. */
  function Taken(sub: Subscriber): Subscriber
    requires sub.queue != []
  {
    sub.(queue := sub.queue[1..], phase := if sub.queue[0].Closed? then Ended else sub.phase)
  }

  function Run(events: seq<Event>): World {
    if events == [] then START else Apply(Run(events[..|events| - 1]), events[|events| - 1])
  }

  // ---- What every step keeps ----

  predicate Listed(w: World, id: Id) {
    id in w.subs && w.subs[id].key in w.channels && id in w.channels[w.subs[id].key].subscribers
  }

  ghost predicate ChannelsFit(w: World) {
    && (forall key :: key in w.channels ==> Distinct(w.channels[key].subscribers))
    && (forall key, id :: key in w.channels && id in w.channels[key].subscribers ==>
          id in w.subs && w.subs[id].key == key)
  }

  ghost predicate SubsFit(w: World) {
    forall id :: id in w.subs ==>
      && |w.subs[id].queue| <= QUEUE_MAXSIZE
      && (!w.subs[id].closed ==> Listed(w, id))
      && (w.subs[id].phase == Gone ==> !Listed(w, id))
  }

  ghost predicate Invariant(w: World) { ChannelsFit(w) && SubsFit(w) }

  lemma FilteredMembers(channels: map<Key, Channel>, subs: map<Id, Subscriber>, key: Key)
    requires key in channels && Distinct(channels[key].subscribers)
    ensures key in Unlink(channels, subs, key) ==>
              && Distinct(Unlink(channels, subs, key)[key].subscribers)
              && (forall id :: id in Unlink(channels, subs, key)[key].subscribers <==>
                    id in channels[key].subscribers && StillOpen(subs)(id))
    ensures key !in Unlink(channels, subs, key) ==>
              forall id :: id in channels[key].subscribers ==> !StillOpen(subs)(id)
  {
    var all := channels[key].subscribers;
    FilterDistinct(all, StillOpen(subs));
    forall id
      ensures id in Filter(all, StillOpen(subs)) <==> id in all && StillOpen(subs)(id)
    {
      FilterMember(all, StillOpen(subs), id);
    }
  }

  lemma DetachKeeps(w: World, e: Event)
    requires Invariant(w) && e.Detach?
    ensures Invariant(Apply(w, e))
  {
    var t := Apply(w, e);
    if t != w {
      DetachChannels(w, e);
      forall id | id in t.subs
        ensures |t.subs[id].queue| <= QUEUE_MAXSIZE && (!t.subs[id].closed ==> Listed(t, id))
        ensures t.subs[id].phase == Gone ==> !Listed(t, id)
      {
        assert Listed(t, id) <==> Listed(w, id) && (t.subs[id].key == w.subs[e.id].key ==> !t.subs[id].closed);
      }
    }
  }

  /** Leaving drops the closed subscribers of one channel, and the channel once it is closed and empty. */
  lemma DetachChannels(w: World, e: Event)
    requires Invariant(w) && e.Detach? && Apply(w, e) != w
    ensures var t := Apply(w, e);
            && ChannelsFit(t) && t.subs.Keys == w.subs.Keys
            && (forall id :: id in t.subs ==> t.subs[id].key == w.subs[id].key)
            && (forall id :: id in t.subs ==>
                  (Listed(t, id) <==> Listed(w, id) && (t.subs[id].key == w.subs[e.id].key ==> !t.subs[id].closed)))
  {
    var t := Apply(w, e);
    var key := w.subs[e.id].key;
    if key in w.channels { FilteredMembers(w.channels, t.subs, key); }
  }

  /** `t` has the lists of `w`, and no subscriber came back to life or outgrew its queue. */
  ghost predicate SameLists(w: World, t: World) {
    && t.channels.Keys == w.channels.Keys && t.subs.Keys == w.subs.Keys
    && (forall key :: key in w.channels ==> t.channels[key].subscribers == w.channels[key].subscribers)
    && (forall id :: id in w.subs ==>
          && t.subs[id].key == w.subs[id].key && |t.subs[id].queue| <= QUEUE_MAXSIZE
          && (w.subs[id].closed ==> t.subs[id].closed) && (t.subs[id].phase == Gone ==> w.subs[id].phase == Gone))
  }

  lemma SameListsKeep(w: World, t: World)
    requires Invariant(w) && SameLists(w, t)
    ensures Invariant(t)
  {
    forall id | id in t.subs
      ensures Listed(t, id) <==> Listed(w, id)
    {
    }
  }

  lemma OfferKeeps(w: World, e: Event)
    requires Invariant(w) && (e.Publish? || e.Consume? || (e.Close? && e.key in w.channels))
    ensures SameLists(w, Apply(w, e))
  {
    if e.Publish? { PublishKeeps(w, e); } else if e.Close? { CloseKeeps(w, e); }
  }

  lemma PublishKeeps(w: World, e: Event)
    requires Invariant(w) && e.Publish?
    ensures SameLists(w, Apply(w, e))
  {
  }

  lemma CloseKeeps(w: World, e: Event)
    requires Invariant(w) && e.Close? && e.key in w.channels
    ensures SameLists(w, Apply(w, e))
  {
  }

  lemma AttachKeeps(w: World, e: Event)
    requires Invariant(w) && e.Attach?
    ensures Invariant(Apply(w, e))
  {
    var t := Apply(w, e);
    if t != w {
      assert e.id !in ChannelOf(w, e.key).subscribers;
      assert ChannelsFit(t);
      forall id | id in t.subs && id != e.id
        ensures Listed(t, id) <==> Listed(w, id)
      {
      }
    }
  }

  lemma OpenKeeps(w: World, e: Event)
    requires Invariant(w) && (e.MarkActive? || (e.Close? && e.key !in w.channels))
    ensures Invariant(Apply(w, e))
  {
    var t := Apply(w, e);
    forall id | id in t.subs
      ensures Listed(t, id) <==> Listed(w, id)
    {
    }
  }

  lemma StepKeeps(w: World, e: Event)
    requires Invariant(w)
    ensures Invariant(Apply(w, e))
  {
    if e.Detach? { DetachKeeps(w, e); }
    else if e.Attach? { AttachKeeps(w, e); }
    else if e.MarkActive? || (e.Close? && e.key !in w.channels) { OpenKeeps(w, e); }
    else {
      OfferKeeps(w, e);
      SameListsKeep(w, Apply(w, e));
    }
  }

  /**
   Over every interleaving: queues stay within bounds and every unclosed subscriber is listed once,
   in its own channel.
   */
  lemma {:induction false} RunKeeps(events: seq<Event>)
    ensures Invariant(Run(events))
  {
    if events != [] {
      RunKeeps(events[..|events| - 1]);
      StepKeeps(Run(events[..|events| - 1]), events[|events| - 1]);
    }
  }

  // ---- What a subscriber is sent and what it sees ----

  /** What an event offers to a subscriber. */
  function Sends(w: World, e: Event, id: Id): seq<Item> {
    match e
    case Publish(key, payload) =>
      if Listed(w, id) && w.subs[id].key == key && !w.channels[key].closed then [Span(payload)] else []
    case Close(key, finalState) => if Listed(w, id) && w.subs[id].key == key then [Closed(finalState)] else []
    case _ => []
  }

  /** What an event makes a subscriber's generator yield. */
  function Yields(w: World, e: Event, id: Id): seq<Item> {
    match e
    case Attach(who, key) =>
      if who == id && id !in w.subs && ChannelOf(w, key).closed then [Closed(FinalState(ChannelOf(w, key)))] else []
    case Consume(who) => if who == id && CanConsume(w, id) then [w.subs[id].queue[0]] else []
    case _ => []
  }

  function Sent(events: seq<Event>, id: Id): seq<Item> {
    if events == [] then []
    else
      var front := events[..|events| - 1];
      Sent(front, id) + Sends(Run(front), events[|events| - 1], id)
  }

  function Received(events: seq<Event>, id: Id): seq<Item> {
    if events == [] then []
    else
      var front := events[..|events| - 1];
      Received(front, id) + Yields(Run(front), events[|events| - 1], id)
  }

  /** How many offers found the queue full. */
  function Refused(events: seq<Event>, id: Id): nat {
    if events == [] then 0
    else
      var front, w := events[..|events| - 1], Run(events[..|events| - 1]);
      Refused(front, id)
      + if id in w.subs && |w.subs[id].queue| >= QUEUE_MAXSIZE then |Sends(w, events[|events| - 1], id)| else 0
  }

  /** Seen or still queued. */
  function Stream(events: seq<Event>, id: Id): seq<Item> {
    Received(events, id) + if id in Run(events).subs then Run(events).subs[id].queue else []
  }

  // ---- Conservation and order ----

  /**
   One event, seen by one subscriber: what is offered is queued if there is room, what is yielded
   leaves the queue.
   */
  lemma QueueStep(w: World, e: Event, id: Id)
    requires Invariant(w) && id in w.subs
    ensures id in Apply(w, e).subs
    ensures Yields(w, e, id) + Apply(w, e).subs[id].queue
            == w.subs[id].queue + (if |w.subs[id].queue| < QUEUE_MAXSIZE then Sends(w, e, id) else [])
    ensures |Sends(w, e, id)| <= 1
  {
  }

  lemma NewcomerStep(w: World, e: Event, id: Id)
    requires Invariant(w) && id !in w.subs
    ensures Sends(w, e, id) == []
    ensures id in Apply(w, e).subs ==>
              && Apply(w, e).subs[id].queue == []
              && (if Apply(w, e).subs[id].phase == Late
                  then |Yields(w, e, id)| == 1 && Yields(w, e, id)[0].Closed?
                  else Yields(w, e, id) == [])
    ensures id !in Apply(w, e).subs ==> Yields(w, e, id) == []
  {
  }

  predicate IsLate(w: World, id: Id) { id in w.subs && w.subs[id].phase == Late }

  /** The stream of a subscriber without its opening close event, if it came late. */
  ghost predicate Conserved(stream: seq<Item>, sent: seq<Item>, refused: nat, late: bool) {
    var lead := if late then 1 else 0;
    |stream| >= lead && Subsequence(stream[lead..], sent) && |stream| - lead + refused == |sent|
  }

  lemma ConservedStep(stream: seq<Item>, sent: seq<Item>, refused: nat, late: bool, offer: seq<Item>, room: bool)
    requires Conserved(stream, sent, refused, late) && |offer| <= 1
    ensures Conserved(if room then stream + offer else stream, sent + offer,
                      if room then refused else refused + |offer|, late)
  {
    var lead := if late then 1 else 0;
    if offer != [] {
      SubsequenceGrows(stream[lead..], sent, offer[0]);
      assert (stream + offer)[lead..] == stream[lead..] + [offer[0]];
      assert sent + offer == sent + [offer[0]];
    } else {
      assert stream + offer == stream && sent + offer == sent;
    }
  }

  lemma LateStays(w: World, e: Event, id: Id)
    requires id in w.subs
    ensures IsLate(Apply(w, e), id) <==> IsLate(w, id)
  {
  }

  /**
   For every interleaving: what a subscriber has seen or has queued is an in-order part of what
   was offered to it, and the offers that found its queue full account for exactly the rest.
   */
  lemma {:induction false} StreamConserved(events: seq<Event>, id: Id)
    ensures id in Run(events).subs ==>
              Conserved(Stream(events, id), Sent(events, id), Refused(events, id), IsLate(Run(events), id))
    ensures id !in Run(events).subs ==> Sent(events, id) == [] && Received(events, id) == [] && Refused(events, id) == 0
  {
    if events != [] {
      var front, e := events[..|events| - 1], events[|events| - 1];
      var w := Run(front);
      StreamConserved(front, id);
      RunKeeps(front);
      if id in w.subs {
        QueueStep(w, e, id);
        LateStays(w, e, id);
        ConservedStep(Stream(front, id), Sent(front, id), Refused(front, id), IsLate(w, id), Sends(w, e, id),
                      |w.subs[id].queue| < QUEUE_MAXSIZE);
        StreamStep(events, id);
      } else {
        NewcomerStep(w, e, id);
      }
    }
  }

  lemma StreamStep(events: seq<Event>, id: Id)
    requires events != [] && id in Run(events[..|events| - 1]).subs && Invariant(Run(events[..|events| - 1]))
    ensures var front, e := events[..|events| - 1], events[|events| - 1];
            var w := Run(front);
            Stream(events, id)
            == if |w.subs[id].queue| < QUEUE_MAXSIZE then Stream(front, id) + Sends(w, e, id)
               else Stream(front, id)
  {
    var front, e := events[..|events| - 1], events[|events| - 1];
    var w := Run(front);
    QueueStep(w, e, id);
    var seen, queue := Received(front, id), w.subs[id].queue;
    assert (seen + Yields(w, e, id)) + Apply(w, e).subs[id].queue
           == seen + (Yields(w, e, id) + Apply(w, e).subs[id].queue);
    assert (seen + queue) + Sends(w, e, id) == seen + (queue + Sends(w, e, id));
  }

  /** A subscriber got everything it was offered exactly when no offer found its queue full. */
  lemma NothingLostExactly(events: seq<Event>, id: Id)
    requires id in Run(events).subs && !IsLate(Run(events), id)
    ensures Stream(events, id) == Sent(events, id) <==> Refused(events, id) == 0
  {
    StreamConserved(events, id);
    var stream := Stream(events, id);
    assert stream[0..] == stream;
    SubsequenceLength(stream, Sent(events, id));
  }

  // ---- Nothing after the first close ----

  ghost predicate NoClose(s: seq<Item>) { forall i :: 0 <= i < |s| ==> s[i].Span? }

  /** A close event is the last thing a subscriber sees, and while it listens it has seen none. */
  ghost predicate SeenFits(w: World, id: Id, seen: seq<Item>) {
    if id !in w.subs then seen == []
    else match w.subs[id].phase
      case Listening => NoClose(seen)
      case Ended => seen != [] && seen[|seen| - 1].Closed? && NoClose(seen[..|seen| - 1])
      case Gone => seen != [] ==> NoClose(seen[..|seen| - 1])
      case Late => |seen| == 1 && seen[0].Closed?
  }

  /** How a subscriber's phase can change without its yielding anything. */
  lemma QuietStep(w: World, e: Event, id: Id)
    requires id in w.subs && Yields(w, e, id) == []
    ensures id in Apply(w, e).subs
    ensures var was, now := w.subs[id].phase, Apply(w, e).subs[id].phase;
            now == was || (now == Gone && (was == Listening || was == Ended))
  {
  }

  lemma SeenStep(w: World, e: Event, id: Id, seen: seq<Item>)
    requires Invariant(w) && SeenFits(w, id, seen)
    ensures SeenFits(Apply(w, e), id, seen + Yields(w, e, id))
  {
    if id !in w.subs {
      NewcomerStep(w, e, id);
    } else if Yields(w, e, id) == [] {
      QuietStep(w, e, id);
      assert seen + [] == seen;
    } else {
      var item := w.subs[id].queue[0];
      assert (seen + [item])[..|seen|] == seen;
    }
  }

  lemma {:induction false} NothingAfterClose(events: seq<Event>, id: Id)
    ensures SeenFits(Run(events), id, Received(events, id))
  {
    if events != [] {
      var front := events[..|events| - 1];
      NothingAfterClose(front, id);
      RunKeeps(front);
      SeenStep(Run(front), events[|events| - 1], id, Received(front, id));
    }
  }

  // ---- Who is told of a close ----

  lemma KeyStays(w: World, e: Event, id: Id)
    requires id in w.subs
    ensures id in Apply(w, e).subs && Apply(w, e).subs[id].key == w.subs[id].key
  {
  }

  /** Event i closes a run with a final state. */
  ghost predicate ClosesAt(events: seq<Event>, i: nat, key: Key, finalState: string)
    requires i < |events|
  {
    events[i].Close? && events[i].key == key && events[i].finalState == finalState
  }

  /** A close event a subscriber was offered was raised by someone closing its own run. */
  lemma {:induction false} OfferedCloseIsReal(events: seq<Event>, id: Id, finalState: string)
    requires id in Run(events).subs && Closed(finalState) in Sent(events, id)
    ensures exists i :: 0 <= i < |events| && ClosesAt(events, i, Run(events).subs[id].key, finalState)
  {
    if events != [] {
      var front, e := events[..|events| - 1], events[|events| - 1];
      if id !in Run(front).subs {
        StreamConserved(front, id);
        RunKeeps(front);
        NewcomerStep(Run(front), e, id);
      } else {
        KeyStays(Run(front), e, id);
        if Closed(finalState) in Sent(front, id) {
          OfferedCloseIsReal(front, id, finalState);
          var i :| 0 <= i < |front| && ClosesAt(front, i, Run(front).subs[id].key, finalState);
          assert ClosesAt(events, i, Run(events).subs[id].key, finalState);
        } else {
          assert Closed(finalState) in Sends(Run(front), e, id);
          assert ClosesAt(events, |front|, Run(events).subs[id].key, finalState);
        }
      }
    }
  }

  /**
   So a slow subscriber is never told that it was disconnected: the marker goes into the queue
   that has just refused a span, and a close it does see was raised by someone closing its run.
   */
  lemma DisconnectNeverDelivered(events: seq<Event>, id: Id, finalState: string)
    requires id in Run(events).subs && !IsLate(Run(events), id) && Closed(finalState) in Stream(events, id)
    ensures exists i :: 0 <= i < |events| && ClosesAt(events, i, Run(events).subs[id].key, finalState)
  {
    StreamConserved(events, id);
    assert Stream(events, id)[0..] == Stream(events, id);
    SubsequenceLength(Stream(events, id), Sent(events, id));
    OfferedCloseIsReal(events, id, finalState);
  }

  // ---- Against a broker without bounds ----

  /** What a subscriber of an open run would see with an unbounded queue. */
  ghost function Ideal(events: seq<Event>, key: Key): seq<Item> {
    if events == [] then []
    else
      var before := Ideal(events[..|events| - 1], key);
      match events[|events| - 1]
      case Publish(k, payload) => if k == key && NoClose(before) then before + [Span(payload)] else before
      case Close(k, finalState) => if k == key then before + [Closed(finalState)] else before
      case _ => before
  }

  /** A subscriber that is still there and has lost nothing stands where the unbounded broker has it. */
  ghost predicate Tracks(w: World, id: Id, key: Key, sent: seq<Item>, ideal: seq<Item>) {
    && Listed(w, id) && w.subs[id].key == key && !w.subs[id].closed && sent == ideal
    && (w.channels[key].closed <==> !NoClose(ideal))
  }

  lemma {:induction false} RunSplit(a: seq<Event>, e: Event)
    ensures Run(a + [e]) == Apply(Run(a), e)
  {
    assert (a + [e])[..|a|] == a;
  }

  lemma StaysOpen(w: World, e: Event, id: Id)
    requires Invariant(w) && Listed(w, id) && !w.subs[id].closed && Apply(w, e).subs[id].phase != Gone
    requires |w.subs[id].queue| < QUEUE_MAXSIZE || Sends(w, e, id) == []
    ensures !Apply(w, e).subs[id].closed && Apply(w, e).subs[id].key == w.subs[id].key
  {
  }

  /** A channel that keeps a subscriber is closed from the first close on. */
  lemma ChannelStep(w: World, e: Event, id: Id, key: Key)
    requires Invariant(w) && Listed(w, id) && w.subs[id].key == key && Listed(Apply(w, e), id)
    ensures Apply(w, e).channels[key].closed <==> w.channels[key].closed || (e.Close? && e.key == key)
  {
  }

  lemma {:induction false} AttachedStays(before: seq<Event>, id: Id, key: Key, after: seq<Event>)
    requires id !in Run(before).subs
    ensures id in Run(before + [Attach(id, key)] + after).subs
  {
    var start := before + [Attach(id, key)];
    if after == [] {
      assert start + after == start && start[..|before|] == before;
    } else {
      AttachedStays(before, id, key, after[..|after| - 1]);
      assert (start + after)[..|start + after| - 1] == start + after[..|after| - 1];
      SubsStay(Run(start + after[..|after| - 1]), after[|after| - 1]);
    }
  }

  lemma SubsStay(w: World, e: Event)
    ensures w.subs.Keys <= Apply(w, e).subs.Keys
  {
  }

  lemma GoneStays(w: World, e: Event, id: Id)
    requires id in w.subs
    ensures id in Apply(w, e).subs && (w.subs[id].phase == Gone ==> Apply(w, e).subs[id].phase == Gone)
  {
  }

  lemma OneMore(events: seq<Event>, e: Event, id: Id)
    ensures var w := Run(events);
            && Run(events + [e]) == Apply(w, e)
            && Sent(events + [e], id) == Sent(events, id) + Sends(w, e, id)
            && Refused(events + [e], id) >= Refused(events, id)
            && (Refused(events + [e], id) == 0 && id in w.subs ==>
                |w.subs[id].queue| < QUEUE_MAXSIZE || Sends(w, e, id) == [])
  {
    assert (events + [e])[..|events|] == events;
  }

  /**
   While a subscriber is on its run's list it is offered exactly the ideal stream, and from then on
   nothing more: whatever becomes of it, the offers are a beginning of the ideal stream.
   */
  ghost predicate Follows(w: World, id: Id, key: Key, sent: seq<Item>, ideal: seq<Item>) {
    && id in w.subs && w.subs[id].key == key && sent <= ideal
    && (Listed(w, id) ==> sent == ideal && (w.channels[key].closed <==> !NoClose(ideal)))
  }

  lemma IdealNext(after: seq<Event>, e: Event, key: Key)
    ensures Ideal(after, key) <= Ideal(after + [e], key)
    ensures !NoClose(Ideal(after + [e], key)) <==> !NoClose(Ideal(after, key)) || (e.Close? && e.key == key)
  {
    assert (after + [e])[..|after|] == after;
    var ideal := Ideal(after, key);
    if e.Close? && e.key == key { assert (ideal + [Closed(e.finalState)])[|ideal|].Closed?; }
    if e.Publish? { assert forall i :: 0 <= i < |ideal| ==> (ideal + [Span(e.payload)])[i] == ideal[i]; }
    if !NoClose(ideal) {
      var i :| 0 <= i < |ideal| && !ideal[i].Span?;
      assert Ideal(after + [e], key)[i] == ideal[i];
    }
  }

  /** What a listed subscriber is offered is what the ideal stream grows by. */
  lemma OfferIsIdeal(w: World, e: Event, id: Id, key: Key, after: seq<Event>)
    requires Follows(w, id, key, Ideal(after, key), Ideal(after, key)) && Listed(w, id)
    ensures Ideal(after + [e], key) == Ideal(after, key) + Sends(w, e, id)
  {
    assert (after + [e])[..|after|] == after;
  }

  lemma FollowStep(w: World, e: Event, id: Id, key: Key, sent: seq<Item>, after: seq<Event>)
    requires Invariant(w) && Follows(w, id, key, sent, Ideal(after, key))
    ensures Follows(Apply(w, e), id, key, sent + Sends(w, e, id), Ideal(after + [e], key))
  {
    IdealNext(after, e, key);
    KeyStays(w, e, id);
    if Listed(w, id) {
      OfferIsIdeal(w, e, id, key, after);
      if Listed(Apply(w, e), id) { ChannelStep(w, e, id, key); }
    } else {
      UnlistedStays(w, e, id);
      assert sent + [] == sent;
    }
  }

  lemma AttachFollows(w: World, id: Id, key: Key)
    requires Invariant(w) && id !in w.subs && !ChannelOf(w, key).closed
    ensures Follows(Apply(w, Attach(id, key)), id, key, [], [])
  {
  }

  lemma {:induction false} OffersFollow(before: seq<Event>, id: Id, key: Key, after: seq<Event>)
    requires id !in Run(before).subs && !ChannelOf(Run(before), key).closed
    ensures var events := before + [Attach(id, key)] + after;
            Follows(Run(events), id, key, Sent(events, id), Ideal(after, key))
  {
    var start := before + [Attach(id, key)];
    if after == [] {
      assert start + after == start;
      StreamConserved(before, id);
      RunKeeps(before);
      AttachFollows(Run(before), id, key);
      OneMore(before, Attach(id, key), id);
      NewcomerStep(Run(before), Attach(id, key), id);
    } else {
      var most, e := after[..|after| - 1], after[|after| - 1];
      assert start + after == (start + most) + [e] && after == most + [e];
      OneMore(start + most, e, id);
      RunKeeps(start + most);
      OffersFollow(before, id, key, most);
      FollowStep(Run(start + most), e, id, key, Sent(start + most, id), most);
    }
  }

  lemma AttachedListens(w: World, id: Id, key: Key)
    requires id !in w.subs && !ChannelOf(w, key).closed
    ensures var t := Apply(w, Attach(id, key)); id in t.subs && !IsLate(t, id) && !t.subs[id].closed
  {
  }

  lemma {:induction false} NeverLate(before: seq<Event>, id: Id, key: Key, after: seq<Event>)
    requires id !in Run(before).subs && !ChannelOf(Run(before), key).closed
    ensures !IsLate(Run(before + [Attach(id, key)] + after), id)
  {
    var start := before + [Attach(id, key)];
    if after == [] {
      assert start + after == start;
      AttachedListens(Run(before), id, key);
      OneMore(before, Attach(id, key), id);
    } else {
      var most, e := after[..|after| - 1], after[|after| - 1];
      assert start + after == (start + most) + [e];
      NeverLate(before, id, key, most);
      AttachedStays(before, id, key, most);
      OneMore(start + most, e, id);
      LateStays(Run(start + most), e, id);
    }
  }

  /**
   Whatever happens to a subscriber of an open run, overflow and dropping included: it is offered a
   beginning of the ideal stream, and what it has seen or has queued is an in-order part of it.
   */
  lemma StreamIsPartOfIdeal(before: seq<Event>, id: Id, key: Key, after: seq<Event>)
    requires id !in Run(before).subs && !ChannelOf(Run(before), key).closed
    ensures var events := before + [Attach(id, key)] + after;
            && Sent(events, id) <= Ideal(after, key)
            && Subsequence(Stream(events, id), Ideal(after, key))
  {
    var events := before + [Attach(id, key)] + after;
    OffersFollow(before, id, key, after);
    NeverLate(before, id, key, after);
    StreamConserved(events, id);
    assert Stream(events, id)[0..] == Stream(events, id);
    SubsequenceOfPrefix(Stream(events, id), Sent(events, id), Ideal(after, key));
  }

  lemma {:induction false} NeverMarked(before: seq<Event>, id: Id, key: Key, after: seq<Event>)
    requires id !in Run(before).subs && !ChannelOf(Run(before), key).closed
    requires var events := before + [Attach(id, key)] + after;
             id in Run(events).subs && Run(events).subs[id].phase != Gone && Refused(events, id) == 0
    ensures !Run(before + [Attach(id, key)] + after).subs[id].closed
  {
    var start := before + [Attach(id, key)];
    if after == [] {
      assert start + after == start;
      AttachedListens(Run(before), id, key);
      OneMore(before, Attach(id, key), id);
    } else {
      var most, e := after[..|after| - 1], after[|after| - 1];
      assert start + after == (start + most) + [e];
      OneMore(start + most, e, id);
      RunKeeps(start + most);
      AttachedStays(before, id, key, most);
      GoneStays(Run(start + most), e, id);
      NeverMarked(before, id, key, most);
      StaysOpen(Run(start + most), e, id);
    }
  }

  /** A subscriber of an open run that is still there and was refused nothing has exactly the ideal stream. */
  lemma TracksIdeal(before: seq<Event>, id: Id, key: Key, after: seq<Event>)
    requires id !in Run(before).subs && !ChannelOf(Run(before), key).closed
    requires var events := before + [Attach(id, key)] + after;
             id in Run(events).subs && Run(events).subs[id].phase != Gone && Refused(events, id) == 0
    ensures var events := before + [Attach(id, key)] + after;
            Tracks(Run(events), id, key, Sent(events, id), Ideal(after, key))
  {
    var events := before + [Attach(id, key)] + after;
    NeverMarked(before, id, key, after);
    RunKeeps(events);
    OffersFollow(before, id, key, after);
  }

  /** Everything up to and including the first close. */
  ghost function UntilClose(s: seq<Item>): seq<Item> {
    if s == [] then [] else if s[0].Closed? then [s[0]] else [s[0]] + UntilClose(s[1..])
  }

  lemma {:induction false} UntilCloseIs(seen: seq<Item>, rest: seq<Item>)
    requires seen != [] && seen[|seen| - 1].Closed? && NoClose(seen[..|seen| - 1])
    ensures UntilClose(seen + rest) == seen
  {
    if |seen| == 1 {
      assert seen[..0] == [];
    } else {
      assert seen[..|seen| - 1][0].Span?;
      assert (seen + rest)[1..] == seen[1..] + rest;
      assert forall i :: 0 <= i < |seen| - 2 ==> seen[1..][i] == seen[..|seen| - 1][i + 1];
      UntilCloseIs(seen[1..], rest);
    }
  }

  /**
   A subscriber of an open run whose queue never refused anything sees, once its loop has ended,
   exactly the spans published from its attachment to the first close, and then that close.
   */
  lemma SeesAllThenOneClose(before: seq<Event>, id: Id, key: Key, after: seq<Event>)
    requires id !in Run(before).subs && !ChannelOf(Run(before), key).closed
    requires var events := before + [Attach(id, key)] + after;
             id in Run(events).subs && Run(events).subs[id].phase == Ended && Refused(events, id) == 0
    ensures var events := before + [Attach(id, key)] + after;
            Received(events, id) == UntilClose(Ideal(after, key))
  {
    var events := before + [Attach(id, key)] + after;
    TracksIdeal(before, id, key, after);
    NothingLostExactly(events, id);
    NothingAfterClose(events, id);
    UntilCloseIs(Received(events, id), Run(events).subs[id].queue);
  }

  // ---- What overflow leads to ----

  /** Off the list for good: nothing it is waiting for can arrive. */
  ghost predicate Stranded(w: World, id: Id) {
    id in w.subs && !Listed(w, id) && w.subs[id].phase == Listening && NoClose(w.subs[id].queue)
  }

  /** Stranded, or stranded and then cancelled by its own reader. */
  ghost predicate NeverEnds(w: World, id: Id) {
    && id in w.subs && !Listed(w, id) && NoClose(w.subs[id].queue)
    && (w.subs[id].phase == Listening || w.subs[id].phase == Gone)
  }

  lemma NeverEndsStep(w: World, e: Event, id: Id)
    requires Invariant(w) && NeverEnds(w, id)
    ensures NeverEnds(Apply(w, e), id)
  {
    UnlistedStays(w, e, id);
    QueueStep(w, e, id);
    var t := Apply(w, e);
    if Yields(w, e, id) == [] {
      QuietStep(w, e, id);
    } else {
      assert t.subs[id].queue == w.subs[id].queue[1..];
    }
  }

  lemma UnlistedStays(w: World, e: Event, id: Id)
    requires Invariant(w) && id in w.subs && !Listed(w, id)
    ensures id in Apply(w, e).subs && !Listed(Apply(w, e), id)
  {
    if e.Detach? && Apply(w, e) != w {
      var key := w.subs[e.id].key;
      if key in w.channels { FilteredMembers(w.channels, Apply(w, e).subs, key); }
    }
  }

  lemma {:induction false} StrandedForever(events: seq<Event>, id: Id, more: seq<Event>)
    requires Stranded(Run(events), id)
    ensures NeverEnds(Run(events + more), id)
  {
    if more == [] {
      assert events + more == events;
    } else {
      var most, e := more[..|more| - 1], more[|more| - 1];
      assert events + more == (events + most) + [e];
      StrandedForever(events, id, most);
      RunKeeps(events + most);
      OneMore(events + most, e, id);
      NeverEndsStep(Run(events + most), e, id);
    }
  }

  /**
   A span that finds a listening subscriber's queue full of spans marks it; when any other
   subscriber of the run leaves, the marked one is dropped from the list and waits for ever.
   */
  lemma OverflowStrands(w: World, id: Id, other: Id, key: Key, payload: string)
    requires Invariant(w) && Listed(w, id) && Listed(w, other) && id != other
    requires w.subs[id].key == w.subs[other].key == key && !w.channels[key].closed
    requires w.subs[id].phase == w.subs[other].phase == Listening
    requires |w.subs[id].queue| == QUEUE_MAXSIZE && NoClose(w.subs[id].queue)
    ensures Stranded(Apply(Apply(w, Publish(key, payload)), Detach(other)), id)
  {
    var v := Apply(w, Publish(key, payload));
    OfferKeeps(w, Publish(key, payload));
    SameListsKeep(w, v);
    assert v.subs[id] == w.subs[id].(closed := true);
    var t := Apply(v, Detach(other));
    FilteredMembers(v.channels, t.subs, key);
  }

  // ---- What a late subscriber is told ----

  /** The last open subscriber of a run leaves. */
  ghost predicate LastLeaves(w: World, e: Event, key: Key) {
    && key in w.channels && e.Detach? && e.id in w.subs && w.subs[e.id].key == key
    && (w.subs[e.id].phase == Listening || w.subs[e.id].phase == Ended)
    && (forall id :: id in w.channels[key].subscribers && id != e.id ==> id in w.subs && w.subs[id].closed)
  }

  predicate KnownClosed(w: World, key: Key) { key in w.channels && w.channels[key].closed }

  /** A closed run is forgotten exactly when its last open subscriber leaves. */
  lemma ForgottenExactly(w: World, e: Event, key: Key)
    requires Invariant(w) && KnownClosed(w, key)
    ensures key !in Apply(w, e).channels <==> LastLeaves(w, e, key)
    ensures key in Apply(w, e).channels ==> Apply(w, e).channels[key].closed
  {
    if e.Detach? && e.id in w.subs && w.subs[e.id].key == key
       && (w.subs[e.id].phase == Listening || w.subs[e.id].phase == Ended) {
      var t := Apply(w, e);
      FilteredMembers(w.channels, t.subs, key);
      forall id | id in w.channels[key].subscribers
        ensures StillOpen(t.subs)(id) <==> id != e.id && !w.subs[id].closed
      {
      }
      if key in t.channels { assert t.channels[key].subscribers[0] in t.channels[key].subscribers; }
    }
  }

  ghost predicate Closes(e: Event, key: Key) { e.Close? && e.key == key }

  lemma KnownStep(w: World, e: Event, key: Key)
    requires Invariant(w)
    ensures KnownClosed(Apply(w, e), key) <==> Closes(e, key) || (KnownClosed(w, key) && !LastLeaves(w, e, key))
    ensures KnownClosed(w, key) && !LastLeaves(w, e, key) && !Closes(e, key) ==>
              Apply(w, e).channels[key].finalState == w.channels[key].finalState
  {
    if KnownClosed(w, key) {
      ForgottenExactly(w, e, key);
    } else if e.Detach? && Apply(w, e) != w {
      assert key in Apply(w, e).channels ==> key in w.channels;
    }
  }

  ghost predicate LeavesAt(events: seq<Event>, j: nat, key: Key)
    requires j < |events|
  {
    LastLeaves(Run(events[..j]), events[j], key)
  }

  /** Someone closed the run at step i, and since then its last open subscriber has not left. */
  ghost predicate Remembered(events: seq<Event>, i: nat, key: Key)
    requires i < |events|
  {
    Closes(events[i], key) && forall j :: i < j < |events| ==> !LeavesAt(events, j, key)
  }

  lemma RememberedSoFar(events: seq<Event>, i: nat, key: Key)
    requires i < |events| - 1
    ensures var front := events[..|events| - 1];
            Remembered(events, i, key) <==> Remembered(front, i, key) && !LastLeaves(Run(front), events[|front|], key)
  {
    var front := events[..|events| - 1];
    forall j | 0 <= j < |front|
      ensures LeavesAt(events, j, key) <==> LeavesAt(front, j, key)
    {
      assert events[..j] == front[..j];
    }
    assert LeavesAt(events, |front|, key) <==> LastLeaves(Run(front), events[|front|], key);
  }

  ghost predicate SomeRemembered(events: seq<Event>, key: Key) {
    exists i :: 0 <= i < |events| && Remembered(events, i, key)
  }

  lemma RememberedStep(events: seq<Event>, key: Key)
    requires events != []
    ensures var front, e := events[..|events| - 1], events[|events| - 1];
            SomeRemembered(events, key)
            <==> Closes(e, key) || (SomeRemembered(front, key) && !LastLeaves(Run(front), e, key))
  {
    var front, e := events[..|events| - 1], events[|events| - 1];
    assert Remembered(events, |front|, key) <==> Closes(e, key);
    if i :| 0 <= i < |front| && Remembered(front, i, key) { RememberedSoFar(events, i, key); }
    if i :| 0 <= i < |events| && Remembered(events, i, key) {
      if i < |front| { RememberedSoFar(events, i, key); }
    }
  }

  lemma {:induction false} KnownExactly(events: seq<Event>, key: Key)
    ensures KnownClosed(Run(events), key) <==> SomeRemembered(events, key)
  {
    if events != [] {
      var front := events[..|events| - 1];
      KnownExactly(front, key);
      RunKeeps(front);
      KnownStep(Run(front), events[|events| - 1], key);
      RememberedStep(events, key);
    }
  }

  lemma {:induction false} LatestState(events: seq<Event>, i: nat, key: Key)
    requires i < |events| && Remembered(events, i, key) && forall j :: i < j < |events| ==> !Closes(events[j], key)
    ensures KnownClosed(Run(events), key) && Run(events).channels[key].finalState == Some(events[i].finalState)
  {
    var front, e := events[..|events| - 1], events[|events| - 1];
    RunKeeps(front);
    KnownStep(Run(front), e, key);
    if i < |front| {
      RememberedSoFar(events, i, key);
      LatestState(front, i, key);
    }
  }

  /**
   Over every run: a newcomer is told at once that the run is closed exactly when someone closed it
   and its last open subscriber has not left since; it is told the state of the latest close.
   */
  lemma ToldOfCloseExactly(events: seq<Event>, id: Id, key: Key)
    requires id !in Run(events).subs
    ensures Yields(Run(events), Attach(id, key), id) != []
            <==> exists i :: 0 <= i < |events| && Remembered(events, i, key)
    ensures forall i :: 0 <= i < |events| && Remembered(events, i, key)
                        && (forall j :: i < j < |events| ==> !Closes(events[j], key)) ==>
              var state := events[i].finalState;
              Yields(Run(events), Attach(id, key), id) == [Closed(if state != "" then state else "completed")]
  {
    KnownExactly(events, key);
    forall i | 0 <= i < |events| && Remembered(events, i, key)
               && forall j :: i < j < |events| ==> !Closes(events[j], key)
      ensures Yields(Run(events), Attach(id, key), id)
              == [Closed(if events[i].finalState != "" then events[i].finalState else "completed")]
    {
      LatestState(events, i, key);
    }
  }

  lemma RunMore(events: seq<Event>, e: Event, more: seq<Event>)
    requires more == events + [e]
    ensures Run(more) == Apply(Run(events), e)
  {
    RunSplit(events, e);
  }

  lemma ThreeSteps(a: Event, b: Event, c: Event)
    ensures Run([a, b, c]) == Apply(Apply(Apply(START, a), b), c)
  {
    RunMore([], a, [a]);
    RunMore([a], b, [a, b]);
    RunMore([a, b], c, [a, b, c]);
  }

  lemma FourSteps(a: Event, b: Event, c: Event, d: Event)
    ensures Run([a, b, c, d]) == Apply(Apply(Apply(Apply(START, a), b), c), d)
  {
    ThreeSteps(a, b, c);
    RunMore([a, b, c], d, [a, b, c, d]);
  }

  /** A run with one reader, which is closed. */
  ghost predicate LoneReader(w: World, key: Key) {
    && key in w.channels && w.channels[key].subscribers == [0] && w.channels[key].closed
    && w.subs.Keys == {0} && w.subs[0].key == key && w.subs[0].phase == Listening
  }

  lemma LoneReaderStarts(key: Key)
    ensures LoneReader(Apply(Apply(Apply(START, MarkActive(key)), Attach(0, key)), Close(key, "done")), key)
  {
    var w := Apply(Apply(START, MarkActive(key)), Attach(0, key));
    assert w.channels[key] == Channel([0], false, None) && w.subs == map[0 := Subscriber(key, [], false, Listening)];
  }

  lemma LoneReaderLeaves(w: World, key: Key)
    requires LoneReader(w, key)
    ensures var t := Apply(w, Detach(0)); key !in t.channels && t.subs.Keys == {0}
  {
    var subs := Apply(w, Detach(0)).subs;
    var ids: seq<Id> := [0];
    assert ids[1..] == [] && !StillOpen(subs)(0);
    assert Filter(ids, StillOpen(subs)) == [];
  }

  /** A reader that leaves a closed run takes the memory of the close with it: the next one waits. */
  lemma NextReaderIsNotTold(key: Key)
    ensures var events := [MarkActive(key), Attach(0, key), Close(key, "done"), Detach(0)];
            1 !in Run(events).subs && Yields(Run(events), Attach(1, key), 1) == []
  {
    FourSteps(MarkActive(key), Attach(0, key), Close(key, "done"), Detach(0));
    LoneReaderStarts(key);
    LoneReaderLeaves(Apply(Apply(Apply(START, MarkActive(key)), Attach(0, key)), Close(key, "done")), key);
  }

  // ---- The broker object ----

  lemma {:induction false} SomeOffered(subs: map<Id, Subscriber>, ids: seq<Id>, i: nat, payload: string)
    requires i < |ids| && Distinct(ids) && forall id :: id in ids ==> id in subs
    ensures var before := SpanToAll(subs, ids[..i], payload);
            && ids[i] in before && before[ids[i]] == subs[ids[i]]
            && SpanToAll(subs, ids[..i + 1], payload) == before[ids[i] := OfferSpan(subs[ids[i]], payload)]
  {
    assert ids[..i + 1] == ids[..i] + [ids[i]];
    assert ids[i] !in ids[..i];
  }

  lemma {:induction false} SomeClosed(subs: map<Id, Subscriber>, ids: seq<Id>, i: nat, finalState: string)
    requires i < |ids| && Distinct(ids) && forall id :: id in ids ==> id in subs
    ensures var before := CloseToAll(subs, ids[..i], finalState);
            && ids[i] in before && before[ids[i]] == subs[ids[i]]
            && CloseToAll(subs, ids[..i + 1], finalState) == before[ids[i] := OfferClose(subs[ids[i]], finalState)]
  {
    assert ids[..i + 1] == ids[..i] + [ids[i]];
    assert ids[i] !in ids[..i];
  }

  method KeepOpen(subs: map<Id, Subscriber>, all: seq<Id>) returns (left: seq<Id>)
    ensures left == Filter(all, StillOpen(subs))
  {
    left := [];
    for i := 0 to |all|
      invariant left == Filter(all[..i], StillOpen(subs))
    {
      FilterSnoc(all, i, StillOpen(subs));
      if all[i] in subs && !subs[all[i]].closed { left := left + [all[i]]; }
    }
    assert all[..|all|] == all;
  }

  class SpanBroker {
    var channels: map<Key, Channel>
    var subs: map<Id, Subscriber>

    ghost function State(): World
      reads this
    {
      World(channels, subs)
    }

    constructor ()
      ensures State() == START
    {
      channels, subs := map[], map[];
    }

    /** `_mark_active_sync`. */
    method MarkActiveSync(key: Key)
      modifies `channels
      ensures State() == Apply(old(State()), MarkActive(key))
    {
      if key !in channels { channels := channels[key := FRESH]; }
    }

    /** The start of `subscribe`: the event yielded at once, if the run is already closed. */
    method Subscribe(id: Id, key: Key) returns (first: Option<Item>)
      requires id !in subs
      modifies this
      ensures State() == Apply(old(State()), Attach(id, key))
      ensures Yields(old(State()), Attach(id, key), id) == if first.Some? then [first.value] else []
    {
      if key !in channels { channels := channels[key := FRESH]; }
      var channel := channels[key];
      channels := channels[key := channel.(subscribers := channel.subscribers + [id])];
      subs := subs[id := Subscriber(key, [], false, if channel.closed then Late else Listening)];
      return if channel.closed then Some(Closed(FinalState(channel))) else None;
    }

    /** One turn of a subscriber's loop with an event in its queue. */
    method Next(id: Id) returns (item: Item)
      requires CanConsume(State(), id)
      modifies `subs
      ensures State() == Apply(old(State()), Consume(id))
      ensures Yields(old(State()), Consume(id), id) == [item]
    {
      item := subs[id].queue[0];
      subs := subs[id := Taken(subs[id])];
    }

    /** `_publish_sync`. */
    method PublishSync(key: Key, payload: string)
      requires Invariant(State())
      modifies `subs
      ensures State() == Apply(old(State()), Publish(key, payload))
    {
      if key !in channels || channels[key].closed { return; }
      var ids := channels[key].subscribers;
      for i := 0 to |ids|
        invariant subs == SpanToAll(old(subs), ids[..i], payload)
      {
        SomeOffered(old(subs), ids, i, payload);
        var sub := subs[ids[i]];
        var put := Put(sub, Span(payload));
        if put.Some? {
          subs := subs[ids[i] := put.value];
        } else {
          sub := sub.(closed := true);
          put := Put(sub, Closed("disconnected"));
          subs := subs[ids[i] := if put.Some? then put.value else sub];
        }
      }
      assert ids[..|ids|] == ids;
    }

    /** `_close_sync`. */
    method CloseSync(key: Key, finalState: string)
      requires Invariant(State())
      modifies this
      ensures State() == Apply(old(State()), Close(key, finalState))
    {
      if key !in channels {
        channels := channels[key := Channel([], true, Some(finalState))];
        return;
      }
      channels := channels[key := channels[key].(closed := true, finalState := Some(finalState))];
      var ids := channels[key].subscribers;
      for i := 0 to |ids|
        invariant channels == Apply(old(State()), Close(key, finalState)).channels && ids == channels[key].subscribers
        invariant subs == CloseToAll(old(subs), ids[..i], finalState)
      {
        SomeClosed(old(subs), ids, i, finalState);
        var put := Put(subs[ids[i]], Closed(finalState));
        if put.Some? { subs := subs[ids[i] := put.value]; }
      }
      assert ids[..|ids|] == ids;
    }

    /** The `finally` of a subscription. */
    method Leave(id: Id)
      requires id in subs && (subs[id].phase == Listening || subs[id].phase == Ended)
      modifies this
      ensures State() == Apply(old(State()), Detach(id))
    {
      var key := subs[id].key;
      subs := subs[id := subs[id].(closed := true, phase := Gone)];
      if key in channels {
        var left := KeepOpen(subs, channels[key].subscribers);
        channels := if left == [] && channels[key].closed then channels - {key}
                    else channels[key := channels[key].(subscribers := left)];
      }
    }
  }
}
