/** agent/utils/broadcaster.go: an asynchronous publish/subscribe loop.  Every listener has a bounded queue of
    its own; a run that does not fit is dropped for that listener only. */
module Broadcasters {

  const PUBLISH_CAPACITY := 1000

  /** A run offered to a listener, and how full the listener's queue was. */
  datatype Offer<T> = Offer(item: T, delivered: bool, occupancy: nat)

  /** A listener's channel: its queue, whether the listener is blocked in a receive, and history: what it has
      received, what it was offered, and how many runs had been processed when it was subscribed. */
  datatype Channel<T> = Channel(
    capacity: nat,
    queue: seq<T>,
    waiting: bool,
    received: seq<T>,
    offers: seq<Offer<T>>,
    since: nat)

  datatype Bus<T> = Bus(
    publishes: seq<T>,
    subscribes: seq<nat>,
    unsubscribes: seq<nat>,
    subscribed: set<nat>,
    channels: map<nat, Channel<T>>,
    published: seq<T>,
    processed: seq<T>,
    stopped: bool)

  /** Listener and publisher actions, and the cases of the loop's select.  GiveUp is a listener that leaves its blocked
      receive by another case of its own select. */
  datatype Action<T> =
    | Publish(item: T)
    | Subscribe(ch: nat, capacity: nat)
    | Unsubscribe(ch: nat)
    | Receive(ch: nat)
    | GiveUp(ch: nat)
    | Stop
    | TakeSubscribe
    | TakeUnsubscribe
    | TakePublish

  /** The non-blocking send: hand over to a blocked receiver, else queue if there is room, else drop. */
  function Offered<T>(c: Channel<T>, item: T): Channel<T> {
    var room := c.waiting || |c.queue| < c.capacity;
    var offers := c.offers + [Offer(item, room, |c.queue|)];
    if c.waiting then c.(waiting := false, received := c.received + [item], offers := offers)
    else if |c.queue| < c.capacity then c.(queue := c.queue + [item], offers := offers)
    else c.(offers := offers)
  }

  function Received<T>(c: Channel<T>): Channel<T> {
    if c.queue == [] then c.(waiting := true) else c.(received := c.received + [c.queue[0]], queue := c.queue[1..])
  }

  function OfferedToAll<T>(channels: map<nat, Channel<T>>, subscribed: set<nat>, item: T): map<nat, Channel<T>> {
    map ch | ch in channels :: if ch in subscribed then Offered(channels[ch], item) else channels[ch]
  }

  predicate Enabled<T>(b: Bus<T>, a: Action<T>) {
    match a
    case Publish(_) => |b.publishes| < PUBLISH_CAPACITY
    case Subscribe(ch, _) => ch !in b.channels && |b.subscribes| < 1
    case Unsubscribe(ch) => ch in b.channels && |b.unsubscribes| < 1
    case Receive(ch) => ch in b.channels && !b.channels[ch].waiting
    case GiveUp(ch) => ch in b.channels && b.channels[ch].waiting
    case Stop => !b.stopped
    case TakeSubscribe => !b.stopped && b.subscribes != []
    case TakeUnsubscribe => !b.stopped && b.unsubscribes != []
    case TakePublish => !b.stopped && b.publishes != []
  }

  function Apply<T>(b: Bus<T>, a: Action<T>): Bus<T>
    requires Enabled(b, a)
  {
    match a
    case Publish(item) => b.(publishes := b.publishes + [item], published := b.published + [item])
    case Subscribe(ch, capacity) =>
      b.(subscribes := b.subscribes + [ch], channels := b.channels[ch := Channel(capacity, [], false, [], [], 0)])
    case Unsubscribe(ch) => b.(unsubscribes := b.unsubscribes + [ch])
    case Receive(ch) => b.(channels := b.channels[ch := Received(b.channels[ch])])
    case GiveUp(ch) => b.(channels := b.channels[ch := b.channels[ch].(waiting := false)])
    case Stop => b.(stopped := true)
    case TakeSubscribe =>
      var ch := b.subscribes[0];
      b.(subscribes := b.subscribes[1..],
         subscribed := b.subscribed + {ch},
         channels := if ch in b.channels then b.channels[ch := b.channels[ch].(since := |b.processed|)] else b.channels)
    case TakeUnsubscribe => b.(unsubscribes := b.unsubscribes[1..], subscribed := b.subscribed - {b.unsubscribes[0]})
    case TakePublish =>
      var item := b.publishes[0];
      b.(publishes := b.publishes[1..],
         processed := b.processed + [item],
         channels := OfferedToAll(b.channels, b.subscribed, item))
  }

  ghost predicate IsRun<T>(b: Bus<T>, acts: seq<Action<T>>)
    decreases |acts|
  {
    acts == [] || (Enabled(b, acts[0]) && IsRun(Apply(b, acts[0]), acts[1..]))
  }

  ghost function Run<T>(b: Bus<T>, acts: seq<Action<T>>): Bus<T>
    requires IsRun(b, acts)
    decreases |acts|
  {
    if acts == [] then b else Run(Apply(b, acts[0]), acts[1..])
  }

  function Empty<T>(): Bus<T> {
    Bus([], [], [], {}, map[], [], [], false)
  }

  // ---------------------------------------------------------------- what a listener sees

  function Delivered<T>(offers: seq<Offer<T>>): seq<T> {
    if offers == [] then []
    else
      var last := offers[|offers| - 1];
      Delivered(offers[..|offers| - 1]) + (if last.delivered then [last.item] else [])
  }

  /** The stream of a listener is what it has received and what is queued for it. */
  function Stream<T>(c: Channel<T>): seq<T> {
    c.received + c.queue
  }

  /** `subscribed` and `pending` say whether the channel is in the loop's map and whether its subscription is
      still queued. */
  ghost predicate ChannelOk<T>(c: Channel<T>, processed: seq<T>, subscribed: bool, pending: bool) {
    && |c.queue| <= c.capacity && (c.waiting ==> c.queue == [])
    && Stream(c) == Delivered(c.offers)
    && (forall i :: 0 <= i < |c.offers| && !c.offers[i].delivered ==> c.offers[i].occupancy == c.capacity)
    && c.since + |c.offers| <= |processed|
    && (forall i :: 0 <= i < |c.offers| ==> c.offers[i].item == processed[c.since + i])
    && (subscribed ==> c.since + |c.offers| == |processed|)
    && (pending ==> c.offers == [] && !subscribed)
  }

  ghost predicate ChannelInv<T>(b: Bus<T>, ch: nat)
    requires ch in b.channels
  {
    ChannelOk(b.channels[ch], b.processed, ch in b.subscribed, ch in b.subscribes)
  }

  ghost predicate Inv<T>(b: Bus<T>) {
    && b.published == b.processed + b.publishes
    && |b.subscribes| <= 1 && |b.unsubscribes| <= 1
    && (forall i :: 0 <= i < |b.subscribes| ==> b.subscribes[i] in b.channels)
    && (forall ch :: ch in b.subscribed ==> ch in b.channels)
    && (forall ch :: ch in b.channels ==> ChannelInv(b, ch))
  }

  lemma OfferKeepsOk<T>(c: Channel<T>, processed: seq<T>, item: T, pending: bool)
    requires ChannelOk(c, processed, true, pending)
    ensures ChannelOk(Offered(c, item), processed + [item], true, pending)
  {
    var d := Offered(c, item);
    assert d.offers[..|d.offers| - 1] == c.offers;
    assert Delivered(d.offers) == Delivered(c.offers) + if d.offers[|c.offers|].delivered then [item] else [];
  }

  lemma ReceiveKeepsOk<T>(c: Channel<T>, processed: seq<T>, subscribed: bool, pending: bool)
    requires ChannelOk(c, processed, subscribed, pending)
    ensures ChannelOk(Received(c), processed, subscribed, pending)
    ensures ChannelOk(c.(waiting := false), processed, subscribed, pending)
  {
    assert Stream(c.(waiting := false)) == Stream(c);
    if c.queue != [] {
      assert c.received + c.queue == (c.received + [c.queue[0]]) + c.queue[1..];
    }
  }

  lemma UnseenKeepsOk<T>(c: Channel<T>, processed: seq<T>, item: T, pending: bool)
    requires ChannelOk(c, processed, false, pending)
    ensures ChannelOk(c, processed + [item], false, pending)
  {
  }

  lemma StepKeepsChannel<T>(b: Bus<T>, a: Action<T>, ch: nat)
    requires Inv(b) && Enabled(b, a) && ch in Apply(b, a).channels
    ensures ChannelInv(Apply(b, a), ch)
  {
    match a {
      case TakePublish => TakePublishKeepsChannel(b, ch);
      case TakeSubscribe => TakeSubscribeKeepsChannel(b, ch);
      case Receive(_) => ReceiveKeepsChannel(b, a, ch);
      case GiveUp(_) => ReceiveKeepsChannel(b, a, ch);
      case Subscribe(_, _) => SubscribeKeepsChannel(b, a, ch);
      case _ => assert ChannelInv(b, ch);
    }
  }

  lemma ReceiveKeepsChannel<T>(b: Bus<T>, a: Action<T>, ch: nat)
    requires Inv(b) && (a.Receive? || a.GiveUp?) && Enabled(b, a) && ch in b.channels
    ensures ChannelInv(Apply(b, a), ch)
  {
    assert ChannelInv(b, ch);
    if a.ch == ch {
      ReceiveKeepsOk(b.channels[ch], b.processed, ch in b.subscribed, ch in b.subscribes);
    } else {
      assert Apply(b, a).channels[ch] == b.channels[ch];
    }
  }

  lemma TakePublishKeepsChannel<T>(b: Bus<T>, ch: nat)
    requires Inv(b) && Enabled(b, TakePublish) && ch in b.channels
    ensures ChannelInv(Apply(b, TakePublish), ch)
  {
    assert ChannelInv(b, ch);
    if ch in b.subscribed {
      OfferKeepsOk(b.channels[ch], b.processed, b.publishes[0], ch in b.subscribes);
    } else {
      UnseenKeepsOk(b.channels[ch], b.processed, b.publishes[0], ch in b.subscribes);
    }
  }

  lemma TakeSubscribeKeepsChannel<T>(b: Bus<T>, ch: nat)
    requires Inv(b) && Enabled(b, TakeSubscribe) && ch in b.channels
    ensures ChannelInv(Apply(b, TakeSubscribe), ch)
  {
    assert ChannelInv(b, ch);
    assert ch in b.subscribes <==> ch == b.subscribes[0];
  }

  lemma SubscribeKeepsChannel<T>(b: Bus<T>, a: Action<T>, ch: nat)
    requires Inv(b) && a.Subscribe? && Enabled(b, a) && ch in Apply(b, a).channels
    ensures ChannelInv(Apply(b, a), ch)
  {
    if ch in b.channels {
      assert ChannelInv(b, ch);
    } else {
      assert ch !in b.subscribed;
    }
  }

  lemma StepKeepsInv<T>(b: Bus<T>, a: Action<T>)
    requires Inv(b) && Enabled(b, a)
    ensures Inv(Apply(b, a))
  {
    var t := Apply(b, a);
    forall ch | ch in t.channels ensures ChannelInv(t, ch) {
      StepKeepsChannel(b, a, ch);
    }
    if a.TakePublish? {
      assert b.publishes == [b.publishes[0]] + b.publishes[1..];
    }
  }

  lemma {:induction false} RunKeepsInv<T>(b: Bus<T>, acts: seq<Action<T>>)
    requires Inv(b) && IsRun(b, acts)
    ensures Inv(Run(b, acts))
    decreases |acts|
  {
    if acts != [] {
      StepKeepsInv(b, acts[0]);
      RunKeepsInv(Apply(b, acts[0]), acts[1..]);
    }
  }

  /** `stream` picks elements of `log[from..to]` in order, each position at most once. */
  ghost predicate PicksFrom<T>(stream: seq<T>, log: seq<T>, from: nat, to: nat, at: seq<nat>) {
    && |at| == |stream| && to <= |log|
    && (forall k :: 0 <= k < |at| ==> from <= at[k] < to && stream[k] == log[at[k]])
    && (forall k, l :: 0 <= k < l < |at| ==> at[k] < at[l])
  }

  function DropCount<T>(offers: seq<Offer<T>>): nat {
    if offers == [] then 0
    else DropCount(offers[..|offers| - 1]) + if offers[|offers| - 1].delivered then 0 else 1
  }

  lemma {:induction false} DeliveredCount<T>(offers: seq<Offer<T>>)
    ensures |Delivered(offers)| + DropCount(offers) == |offers|
  {
    if offers != [] {
      DeliveredCount(offers[..|offers| - 1]);
    }
  }

  /** The offered items are those of the log from a position on. */
  ghost predicate Follows<T>(offers: seq<Offer<T>>, log: seq<T>, from: nat)
    requires from + |offers| <= |log|
  {
    offers == [] ||
    (Follows(offers[..|offers| - 1], log, from) && offers[|offers| - 1].item == log[from + |offers| - 1])
  }

  lemma {:induction false} ItemsFollow<T>(offers: seq<Offer<T>>, log: seq<T>, from: nat)
    requires from + |offers| <= |log| && forall i :: 0 <= i < |offers| ==> offers[i].item == log[from + i]
    ensures Follows(offers, log, from)
  {
    if offers != [] {
      ItemsFollow(offers[..|offers| - 1], log, from);
    }
  }

  lemma {:induction false} DeliveredPicks<T>(offers: seq<Offer<T>>, log: seq<T>, from: nat) returns (at: seq<nat>)
    requires from + |offers| <= |log| && Follows(offers, log, from)
    ensures PicksFrom(Delivered(offers), log, from, from + |offers|, at)
  {
    at := [];
    if offers != [] {
      var n := |offers| - 1;
      var front := DeliveredPicks(offers[..n], log, from);
      at := DeliveredNext(offers, log, from, front);
    }
  }

  lemma DeliveredNext<T>(offers: seq<Offer<T>>, log: seq<T>, from: nat, at: seq<nat>) returns (next: seq<nat>)
    requires offers != [] && from + |offers| <= |log| && offers[|offers| - 1].item == log[from + |offers| - 1]
    requires PicksFrom(Delivered(offers[..|offers| - 1]), log, from, from + |offers| - 1, at)
    ensures PicksFrom(Delivered(offers), log, from, from + |offers|, next)
  {
    var n := |offers| - 1;
    next := PicksNext(Delivered(offers[..n]), log, from, from + n, at, offers[n].delivered);
  }

  lemma PicksNext<T>(stream: seq<T>, log: seq<T>, from: nat, to: nat, at: seq<nat>, delivered: bool)
    returns (next: seq<nat>)
    requires PicksFrom(stream, log, from, to, at) && from <= to < |log|
    ensures PicksFrom(stream + (if delivered then [log[to]] else []), log, from, to + 1, next)
  {
    next := if delivered then at + [to] else at;
  }

  /** For every schedule and every listener: runs are processed in the order they were published; the listener
      was offered exactly the runs processed while it was subscribed; its stream is an order-preserving,
      duplicate-free selection of them; what is not delivered is dropped; and a drop happens only when the
      listener's queue is full. */
  lemma ListenerStream<T>(acts: seq<Action<T>>, ch: nat) returns (at: seq<nat>)
    requires IsRun(Empty(), acts) && ch in Run(Empty(), acts).channels
    ensures var b := Run(Empty(), acts);
            var c := b.channels[ch];
            && b.published == b.processed + b.publishes
            && c.since + |c.offers| <= |b.processed| && (ch in b.subscribed ==> c.since + |c.offers| == |b.processed|)
            && PicksFrom(Stream(c), b.processed, c.since, c.since + |c.offers|, at)
            && |Stream(c)| + DropCount(c.offers) == |c.offers|
            && forall i :: 0 <= i < |c.offers| && !c.offers[i].delivered ==> c.offers[i].occupancy == c.capacity
  {
    RunKeepsInv(Empty(), acts);
    var b := Run(Empty(), acts);
    assert ChannelInv(b, ch);
    ItemsFollow(b.channels[ch].offers, b.processed, b.channels[ch].since);
    at := DeliveredPicks(b.channels[ch].offers, b.processed, b.channels[ch].since);
    DeliveredCount(b.channels[ch].offers);
  }

  /** What one offer does: the run reaches the listener's stream exactly if the listener is waiting or its queue has
      room, and otherwise the stream is left as it was. */
  lemma OfferOutcome<T>(c: Channel<T>, item: T)
    requires c.waiting ==> c.queue == []
    ensures var room := c.waiting || |c.queue| < c.capacity;
            && Stream(Offered(c, item)) == (if room then Stream(c) + [item] else Stream(c))
            && Offered(c, item).offers == c.offers + [Offer(item, room, |c.queue|)]
            && Offered(c, item).received == (if c.waiting then c.received + [item] else c.received)
            && !Offered(c, item).waiting
            && Offered(c, item).capacity == c.capacity && Offered(c, item).since == c.since
  {
    if c.waiting {
      assert c.received + [item] + c.queue == c.received + c.queue + [item];
    }
  }

  /** A listener's queue has the capacity it subscribed with, in every schedule and for good. */
  lemma {:induction false} CapacityAsRequested<T>(b: Bus<T>, acts: seq<Action<T>>, ch: nat, capacity: nat)
    requires IsRun(b, acts)
    requires Subscribe(ch, capacity) in acts || (ch in b.channels && b.channels[ch].capacity == capacity)
    ensures ch in Run(b, acts).channels && Run(b, acts).channels[ch].capacity == capacity
    decreases |acts|
  {
    if acts != [] {
      assert acts == [acts[0]] + acts[1..];
      if acts[0] != Subscribe(ch, capacity) && Subscribe(ch, capacity) in acts[1..] {
        CapacityAsRequested(Apply(b, acts[0]), acts[1..], ch, capacity);
      } else {
        CapacityStep(b, acts[0], ch, capacity);
        CapacityAsRequested(Apply(b, acts[0]), acts[1..], ch, capacity);
      }
    }
  }

  lemma CapacityStep<T>(b: Bus<T>, a: Action<T>, ch: nat, capacity: nat)
    requires Enabled(b, a)
    requires a == Subscribe(ch, capacity) || (ch in b.channels && b.channels[ch].capacity == capacity)
    ensures ch in Apply(b, a).channels && Apply(b, a).channels[ch].capacity == capacity
  {
  }

  /** A listener that keeps receiving gets the whole of its stream: as many receives as there are runs in its queue
      empty the queue, in order, and change nothing else. */
  lemma {:induction false} ReceivesDrainQueue<T>(b: Bus<T>, ch: nat, n: nat, acts: seq<Action<T>>)
    requires ch in b.channels && !b.channels[ch].waiting && |b.channels[ch].queue| == n == |acts|
    requires forall i :: 0 <= i < n ==> acts[i] == Receive(ch)
    ensures IsRun(b, acts)
    ensures var c := b.channels[ch];
            Run(b, acts) == b.(channels := b.channels[ch := c.(queue := [], received := c.received + c.queue)])
    decreases n
  {
    var c := b.channels[ch];
    if n == 0 {
      assert c == c.(queue := [], received := c.received + c.queue);
      assert b.channels == b.channels[ch := c];
    } else {
      assert acts[0] == Receive(ch);
      assert forall i :: 0 <= i < n - 1 ==> acts[1..][i] == acts[i + 1];
      ReceivesDrainQueue(Apply(b, acts[0]), ch, n - 1, acts[1..]);
      assert c.received + [c.queue[0]] + c.queue[1..] == c.received + c.queue;
    }
  }

  /** A listener that has given up its receive is not handed a run. */
  lemma GivenUpReceiveGetsNothing<T>(b: Bus<T>, ch: nat, item: T)
    requires Inv(b) && Enabled(b, GiveUp(ch))
    ensures var c := Apply(b, GiveUp(ch)).channels[ch]; Offered(c, item).received == b.channels[ch].received
  {
    assert ChannelInv(b, ch);
    OfferOutcome(Apply(b, GiveUp(ch)).channels[ch], item);
  }

  /** The publish channel never holds more than 1000 runs. */
  lemma {:induction false} PublishChannelBounded<T>(b: Bus<T>, acts: seq<Action<T>>)
    requires IsRun(b, acts) && |b.publishes| <= 1000
    ensures |Run(b, acts).publishes| <= 1000
    decreases |acts|
  {
    if acts != [] {
      PublishChannelBounded(Apply(b, acts[0]), acts[1..]);
    }
  }

  lemma {:induction false} StaysStopped<T>(b: Bus<T>, acts: seq<Action<T>>)
    requires b.stopped && IsRun(b, acts)
    ensures var t := Run(b, acts); t.stopped && t.processed == b.processed && t.subscribed == b.subscribed
    decreases |acts|
  {
    if acts != [] {
      StaysStopped(Apply(b, acts[0]), acts[1..]);
    }
  }

  /** After Stop the loop takes nothing more: no run is processed and no listener is added or removed. */
  lemma StoppedForGood<T>(b: Bus<T>, acts: seq<Action<T>>)
    requires Enabled(b, Stop) && IsRun(Apply(b, Stop), acts)
    ensures var t := Run(Apply(b, Stop), acts); t.processed == b.processed && t.subscribed == b.subscribed
  {
    StaysStopped(Apply(b, Stop), acts);
  }

  // ---------------------------------------------------------------- listeners do not disturb each other

  /** The two states agree on everything but the channels of other listeners. */
  ghost predicate SameFor<T>(b: Bus<T>, d: Bus<T>, ch: nat) {
    && d == b.(channels := d.channels)
    && b.channels.Keys == d.channels.Keys
    && (ch in b.channels ==> b.channels[ch] == d.channels[ch])
  }

  predicate OtherReceives<T>(a: Action<T>, ch: nat) {
    (a.Receive? || a.GiveUp?) && a.ch != ch
  }

  /** The schedule without what other listeners do to receive. */
  function Erase<T>(acts: seq<Action<T>>, ch: nat): seq<Action<T>> {
    if acts == [] then []
    else if OtherReceives(acts[0], ch) then Erase(acts[1..], ch)
    else [acts[0]] + Erase(acts[1..], ch)
  }

  lemma StepSame<T>(b: Bus<T>, d: Bus<T>, a: Action<T>, ch: nat)
    requires SameFor(b, d, ch) && Enabled(b, a) && !OtherReceives(a, ch)
    ensures Enabled(d, a) && SameFor(Apply(b, a), Apply(d, a), ch)
  {
  }

  /** How slowly other listeners drain their queues has no influence on what a listener gets: removing all
      their receives from a schedule leaves a schedule with the same outcome for it. */
  lemma {:induction false} OthersDoNotMatter<T>(b: Bus<T>, d: Bus<T>, acts: seq<Action<T>>, ch: nat)
    requires SameFor(b, d, ch) && IsRun(b, acts)
    ensures IsRun(d, Erase(acts, ch)) && SameFor(Run(b, acts), Run(d, Erase(acts, ch)), ch)
    decreases |acts|
  {
    if acts != [] {
      if OtherReceives(acts[0], ch) {
        OthersDoNotMatter(Apply(b, acts[0]), d, acts[1..], ch);
      } else {
        StepSame(b, d, acts[0], ch);
        OthersDoNotMatter(Apply(b, acts[0]), Apply(d, acts[0]), acts[1..], ch);
        assert ([acts[0]] + Erase(acts[1..], ch))[1..] == Erase(acts[1..], ch);
      }
    }
  }

  /** Two schedules that differ only in the receives of other listeners. */
  lemma StreamIndependentOfOthers<T>(acts: seq<Action<T>>, other: seq<Action<T>>, ch: nat)
    requires IsRun(Empty(), acts) && IsRun(Empty(), other) && Erase(acts, ch) == Erase(other, ch)
    ensures ch in Run(Empty(), acts).channels <==> ch in Run(Empty(), other).channels
    ensures ch in Run(Empty(), acts).channels ==> Run(Empty(), acts).channels[ch] == Run(Empty(), other).channels[ch]
  {
    OthersDoNotMatter(Empty(), Empty(), acts, ch);
    OthersDoNotMatter(Empty(), Empty(), other, ch);
  }

  // ---------------------------------------------------------------- unsubscribing

  ghost predicate NoUnsubscribe<T>(acts: seq<Action<T>>, ch: nat) {
    forall i :: 0 <= i < |acts| ==> acts[i] != Unsubscribe(ch)
  }

  /** The listener is gone, or its unsubscription is queued and its subscription is not. */
  ghost predicate Leaving<T>(b: Bus<T>, ch: nat) {
    ch in b.channels && ch !in b.subscribes && (ch in b.unsubscribes || ch !in b.subscribed)
  }

  ghost predicate Gone<T>(b: Bus<T>, ch: nat) {
    ch in b.channels && ch !in b.subscribes && ch !in b.subscribed
  }

  lemma {:induction false} StaysGone<T>(b: Bus<T>, acts: seq<Action<T>>, ch: nat)
    requires IsRun(b, acts)
    ensures Gone(b, ch) ==> Gone(Run(b, acts), ch)
    ensures Leaving(b, ch) ==> Leaving(Run(b, acts), ch)
    decreases |acts|
  {
    if acts != [] {
      GoneStep(b, acts[0], ch);
      StaysGone(Apply(b, acts[0]), acts[1..], ch);
    }
  }

  lemma GoneStep<T>(b: Bus<T>, a: Action<T>, ch: nat)
    requires Enabled(b, a)
    ensures Gone(b, ch) ==> Gone(Apply(b, a), ch)
    ensures Leaving(b, ch) ==> Leaving(Apply(b, a), ch)
  {
    if a.TakeSubscribe? {
      assert b.subscribes[0] in b.subscribes;
    } else if a.TakeUnsubscribe? {
      assert forall c :: c in b.unsubscribes ==> c == b.unsubscribes[0] || c in b.unsubscribes[1..];
    }
  }

  /** Without a further unsubscription a subscription that is queued or taken lasts. */
  lemma {:induction false} StaysSubscribed<T>(b: Bus<T>, acts: seq<Action<T>>, ch: nat)
    requires IsRun(b, acts) && NoUnsubscribe(acts, ch) && ch !in b.unsubscribes
    ensures ch in b.subscribed ==> ch in Run(b, acts).subscribed
    ensures ch in b.subscribes ==> ch in Run(b, acts).subscribes || ch in Run(b, acts).subscribed
    decreases |acts|
  {
    if acts != [] {
      var t := Apply(b, acts[0]);
      assert acts[0] != Unsubscribe(ch);
      assert b.subscribes != [] ==> forall c :: c in b.subscribes ==> c == b.subscribes[0] || c in b.subscribes[1..];
      assert forall i :: 0 <= i < |acts[1..]| ==> acts[1..][i] == acts[i + 1];
      StaysSubscribed(t, acts[1..], ch);
    }
  }

  lemma OneStep<T>(b: Bus<T>, a: Action<T>)
    requires Enabled(b, a)
    ensures IsRun(b, [a]) && Run(b, [a]) == Apply(b, a)
  {
    assert [a][1..] == [];
    assert Run(Apply(b, a), [a][1..]) == Apply(b, a);
  }

  lemma TwoSteps<T>(b: Bus<T>, a: Action<T>, c: Action<T>)
    requires Enabled(b, a) && Enabled(Apply(b, a), c)
    ensures IsRun(b, [a, c]) && Run(b, [a, c]) == Apply(Apply(b, a), c)
  {
    assert [a, c][1..] == [c];
    OneStep(Apply(b, a), c);
  }

  /** Under every schedule the listener is out of the loop's map. */
  ghost predicate GoneForGood<T(!new)>(b: Bus<T>, ch: nat) {
    forall acts :: IsRun(b, acts) ==> ch !in Run(b, acts).subscribed
  }

  /** When the loop takes a listener's unsubscription, the listener is gone for good, through all later schedules, if
      and only if its subscription had been taken before. */
  lemma TakenUnsubscriptionLastsIff<T(!new)>(b: Bus<T>, ch: nat)
    requires Inv(b) && !b.stopped && b.unsubscribes == [ch] && ch in b.channels
    ensures GoneForGood(Apply(b, TakeUnsubscribe), ch) <==> ch !in b.subscribes
  {
    var t := Apply(b, TakeUnsubscribe);
    if ch in b.subscribes {
      assert t.subscribes == [ch];
      OneStep(t, TakeSubscribe);
    } else {
      forall acts | IsRun(t, acts) ensures ch !in Run(t, acts).subscribed {
        StaysGone(t, acts, ch);
      }
    }
  }

  /** Otherwise the listener is subscribed from the moment its subscription is taken, through all later schedules in
      which it does not unsubscribe a second time. */
  lemma OvertakenUnsubscriptionIsLost<T>(b: Bus<T>, ch: nat, acts: seq<Action<T>>)
    requires Inv(b) && !b.stopped && b.unsubscribes == [ch] && ch in b.subscribes
    requires IsRun(Apply(b, TakeUnsubscribe), acts) && NoUnsubscribe(acts, ch)
    ensures var t := Run(Apply(b, TakeUnsubscribe), acts); ch !in t.subscribes ==> ch in t.subscribed
  {
    StaysSubscribed(Apply(b, TakeUnsubscribe), acts, ch);
  }

  /** Under every schedule without a further unsubscription, the listener is out of the loop's map once its
      unsubscription has been taken. */
  ghost predicate UnsubscribesSafely<T(!new)>(b: Bus<T>, ch: nat) {
    forall acts :: IsRun(b, acts) && NoUnsubscribe(acts, ch) ==>
                     ch in Run(b, acts).unsubscribes || ch !in Run(b, acts).subscribed
  }

  /** The guard for the caller: that holds if and only if the listener's subscription is no longer queued at the
      call. */
  lemma UnsubscribeIsSafeIff<T(!new)>(b: Bus<T>, ch: nat)
    requires Inv(b) && !b.stopped && Enabled(b, Unsubscribe(ch))
    ensures UnsubscribesSafely(Apply(b, Unsubscribe(ch)), ch) <==> ch !in b.subscribes
  {
    var t := Apply(b, Unsubscribe(ch));
    if ch in b.subscribes {
      Overtaking(t, ch);
    } else {
      assert ch in t.unsubscribes;
      forall acts | IsRun(t, acts) ensures ch in Run(t, acts).unsubscribes || ch !in Run(t, acts).subscribed {
        StaysGone(t, acts, ch);
      }
    }
  }

  /** The loop's select may take the unsubscription before the subscription. */
  lemma Overtaking<T(!new)>(b: Bus<T>, ch: nat)
    requires Inv(b) && !b.stopped && b.unsubscribes == [ch] && ch in b.subscribes
    ensures !UnsubscribesSafely(b, ch)
  {
    assert b.subscribes == [ch];
    var acts: seq<Action<T>> := [TakeUnsubscribe, TakeSubscribe];
    TwoSteps(b, TakeUnsubscribe, TakeSubscribe);
    assert NoUnsubscribe(acts, ch);
  }

  // ---------------------------------------------------------------- the broadcaster as it is updated in place

  /** Each method is one step of the schedules above; the fields satisfy the invariant of the step system. */
  class Broadcaster<T> {
    var publishes: seq<T>
    var subscribes: seq<nat>
    var unsubscribes: seq<nat>
    var subscribed: set<nat>
    var channels: map<nat, Channel<T>>
    var stopped: bool
    // history
    var published: seq<T>
    var processed: seq<T>

    ghost function View(): Bus<T>
      reads this
    {
      Bus(publishes, subscribes, unsubscribes, subscribed, channels, published, processed, stopped)
    }

    ghost predicate Valid()
      reads this
    {
      Inv(View())
    }

    constructor ()
      ensures Valid() && View() == Empty()
      ensures !stopped && subscribed == {} && channels == map[] && published == processed == publishes == []
    {
      publishes, subscribes, unsubscribes, subscribed, channels, stopped := [], [], [], {}, map[], false;
      published, processed := [], [];
    }

    method PublishTestRun(item: T)
      requires Valid() && Enabled(View(), Publish(item))
      modifies this
      ensures Valid() && View() == Apply(old(View()), Publish(item))
    {
      StepKeepsInv(View(), Publish(item));
      publishes := publishes + [item];
      published := published + [item];
    }

    method SubscribeToTestRuns(ch: nat, capacity: nat)
      requires Valid() && Enabled(View(), Subscribe(ch, capacity))
      modifies this
      ensures Valid() && View() == Apply(old(View()), Subscribe(ch, capacity))
    {
      StepKeepsInv(View(), Subscribe(ch, capacity));
      channels := channels[ch := Channel(capacity, [], false, [], [], 0)];
      subscribes := subscribes + [ch];
    }

    method UnsubscribeFromTestRuns(ch: nat)
      requires Valid() && Enabled(View(), Unsubscribe(ch))
      modifies this
      ensures Valid() && View() == Apply(old(View()), Unsubscribe(ch))
    {
      StepKeepsInv(View(), Unsubscribe(ch));
      unsubscribes := unsubscribes + [ch];
    }

    method Stop()
      requires Valid() && Enabled(View(), Action.Stop)
      modifies this
      ensures Valid() && View() == Apply(old(View()), Action.Stop)
    {
      StepKeepsInv(View(), Action.Stop);
      stopped := true;
    }

    method HandleSubscribe()
      requires Valid() && Enabled(View(), TakeSubscribe)
      modifies this
      ensures Valid() && View() == Apply(old(View()), TakeSubscribe)
    {
      StepKeepsInv(View(), TakeSubscribe);
      var ch := subscribes[0];
      subscribes := subscribes[1..];
      subscribed := subscribed + {ch};
      channels := channels[ch := channels[ch].(since := |processed|)];
    }

    method HandleUnsubscribe()
      requires Valid() && Enabled(View(), TakeUnsubscribe)
      modifies this
      ensures Valid() && View() == Apply(old(View()), TakeUnsubscribe)
    {
      StepKeepsInv(View(), TakeUnsubscribe);
      subscribed := subscribed - {unsubscribes[0]};
      unsubscribes := unsubscribes[1..];
    }

    /** Offers the run to every subscribed listener. */
    method HandlePublish()
      requires Valid() && Enabled(View(), TakePublish)
      modifies this
      ensures Valid() && View() == Apply(old(View()), TakePublish)
    {
      StepKeepsInv(View(), TakePublish);
      var item := publishes[0];
      publishes := publishes[1..];
      processed := processed + [item];
      channels := OfferToAll(channels, subscribed, item);
    }

    /** A listener's own receive on its channel. */
    method Listen(a: Action<T>)
      requires Valid() && (a.Receive? || a.GiveUp?) && Enabled(View(), a)
      modifies this
      ensures Valid() && View() == Apply(old(View()), a)
    {
      StepKeepsInv(View(), a);
      if a.Receive? {
        channels := channels[a.ch := Received(channels[a.ch])];
      } else {
        channels := channels[a.ch := channels[a.ch].(waiting := false)];
      }
    }

    method Perform(a: Action<T>)
      requires Valid() && Enabled(View(), a)
      modifies this
      ensures Valid() && View() == Apply(old(View()), a)
    {
      match a {
        case Publish(item) => PublishTestRun(item);
        case Subscribe(ch, capacity) => SubscribeToTestRuns(ch, capacity);
        case Unsubscribe(ch) => UnsubscribeFromTestRuns(ch);
        case Receive(_) => Listen(a);
        case GiveUp(_) => Listen(a);
        case Stop => Stop();
        case TakeSubscribe => HandleSubscribe();
        case TakeUnsubscribe => HandleUnsubscribe();
        case TakePublish => HandlePublish();
      }
    }

    /** Any schedule of calls, receives and cases of the loop's select, carried out on the object.  So ListenerStream
        and the statements about unsubscribing hold of the object's fields. */
    method Execute(acts: seq<Action<T>>)
      requires Valid() && IsRun(View(), acts)
      modifies this
      ensures Valid() && View() == Run(old(View()), acts)
    {
      for i := 0 to |acts|
        invariant Valid() && IsRun(View(), acts[i..]) && Run(View(), acts[i..]) == Run(old(View()), acts)
      {
        assert acts[i..][0] == acts[i] && acts[i..][1..] == acts[i + 1..];
        Perform(acts[i]);
      }
    }
  }

  /** The loop over the subscribed listeners, in the unspecified order of a Go map. */
  method OfferToAll<T>(channels: map<nat, Channel<T>>, subscribed: set<nat>, item: T)
    returns (next: map<nat, Channel<T>>)
    requires subscribed <= channels.Keys
    ensures next == OfferedToAll(channels, subscribed, item)
  {
    next := channels;
    var rest := subscribed;
    while rest != {}
      invariant rest <= subscribed
      invariant next == OfferedToAll(channels, subscribed - rest, item)
      decreases rest
    {
      var ch :| ch in rest;
      next := next[ch := Offered(next[ch], item)];
      rest := rest - {ch};
    }
    assert subscribed - rest == subscribed;
  }
}
