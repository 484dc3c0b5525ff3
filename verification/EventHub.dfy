/**
  The event hub (cli/engine/event_hub.go): a bounded replay log per session together with live fan-out.
  The code under the lock is one step; each offer to a subscriber's channel is a later step of its own.
 */
module EventHub {

  type Session = string
  type ChanId = nat
  type Payload = nat

  const MAX_HISTORY := 512
  const CHANNEL_CAPACITY := 128

  datatype Frame = Frame(sequence: int, payload: Payload)

  datatype Hub = Hub(
    subscribers: map<Session, set<ChanId>>,
    history: map<Session, seq<Frame>>,
    nextSeq: int,
    nextChan: ChanId
  )

  const EMPTY_HUB := Hub(map[], map[], 0, 0)

  function HistoryOf(h: map<Session, seq<Frame>>, s: Session): seq<Frame> { if s in h then h[s] else [] }

  function SubscribersOf(h: Hub, s: Session): set<ChanId> { if s in h.subscribers then h.subscribers[s] else {} }

  /** The frames above a sequence number. */
  function Above(fs: seq<Frame>, after: int): seq<Frame> {
    if fs == [] then [] else
      Above(fs[..|fs| - 1], after) + (if fs[|fs| - 1].sequence > after then [fs[|fs| - 1]] else [])
  }

  /** The last min(n, 512) frames. */
  function Retained(fs: seq<Frame>): seq<Frame> {
    if |fs| > MAX_HISTORY then fs[|fs| - MAX_HISTORY..] else fs
  }

  datatype Subscribed = Subscribed(hub: Hub, ch: ChanId, backlog: seq<Frame>)

  function Subscribe(h: Hub, s: Session, afterSeq: int): Subscribed {
    Subscribed(h.(subscribers := h.subscribers[s := SubscribersOf(h, s) + {h.nextChan}], nextChan := h.nextChan + 1),
               h.nextChan,
               if afterSeq <= 0 then [] else Above(HistoryOf(h.history, s), afterSeq))
  }

  function Unsubscribe(h: Hub, s: Session, ch: ChanId): Hub {
    if s !in h.subscribers then h
    else if h.subscribers[s] - {ch} == {} then h.(subscribers := h.subscribers - {s})
    else h.(subscribers := h.subscribers[s := h.subscribers[s] - {ch}])
  }

  datatype Published = Published(hub: Hub, frame: Frame, copies: set<ChanId>)

  /** The critical section of Publish when the event can be encoded; otherwise only the sequence number is used up. */
  function Publish(h: Hub, s: Session, payload: Payload): Published {
    var frame := Frame(h.nextSeq + 1, payload);
    Published(h.(nextSeq := h.nextSeq + 1, history := h.history[s := Retained(HistoryOf(h.history, s) + [frame])]),
              frame, SubscribersOf(h, s))
  }

  class EventHub {
    var subscribers: map<Session, set<ChanId>>
    var history: map<Session, seq<Frame>>
    var nextSeq: int
    var nextChan: ChanId
    const maxHistory := MAX_HISTORY

    constructor ()
      ensures State() == EMPTY_HUB
    {
      subscribers, history, nextSeq, nextChan := map[], map[], 0, 0;
    }

    function State(): Hub
      reads this
    {
      Hub(subscribers, history, nextSeq, nextChan)
    }

    method SubscribeSince(sessionID: Session, afterSeq: int) returns (ch: ChanId, backlog: seq<Frame>)
      modifies this
      ensures Subscribed(State(), ch, backlog) == Subscribe(old(State()), sessionID, afterSeq)
    {
      ch := nextChan;
      nextChan := nextChan + 1;
      if sessionID !in subscribers {
        subscribers := subscribers[sessionID := {}];
      }
      subscribers := subscribers[sessionID := subscribers[sessionID] + {ch}];
      var items := HistoryOf(history, sessionID);
      backlog := [];
      if |items| == 0 || afterSeq <= 0 {
        return;
      }
      for k := 0 to |items|
        invariant backlog == Above(items[..k], afterSeq)
      {
        assert items[..k + 1][..k] == items[..k];
        if items[k].sequence > afterSeq {
          backlog := backlog + [items[k]];
        }
      }
      assert items[..|items|] == items;
    }

    method UnsubscribeFrom(sessionID: Session, ch: ChanId)
      modifies this
      ensures State() == Unsubscribe(old(State()), sessionID, ch)
    {
      if sessionID !in subscribers {
        return;
      }
      var bucket := subscribers[sessionID] - {ch};
      subscribers := subscribers[sessionID := bucket];
      if bucket == {} {
        subscribers := subscribers - {sessionID};
      }
    }

    /** The part of Publish under the lock; the offers to the returned channels follow one by one. */
    method PublishLocked(sessionID: Session, payload: Payload, encodes: bool) returns (frame: Frame, copies: set<ChanId>)
      modifies this
      ensures encodes ==> Published(State(), frame, copies) == Publish(old(State()), sessionID, payload)
      ensures !encodes ==> copies == {} && State() == old(State()).(nextSeq := old(nextSeq) + 1)
    {
      nextSeq := nextSeq + 1;
      frame := Frame(nextSeq, payload);
      copies := {};
      if !encodes {
        return;
      }
      var items := HistoryOf(history, sessionID) + [frame];
      if |items| > maxHistory {
        items := items[|items| - maxHistory..];
      }
      history := history[sessionID := items];
      if sessionID in subscribers {
        copies := subscribers[sessionID];
      }
    }
  }

  // ----- the hub with its subscribers' channels, as a step system -----

  /** What is remembered about a subscription: the session, afterSeq, the frames published before it, its backlog. */
  datatype Subscription = Subscription(session: Session, afterSeq: int, before: nat, backlog: seq<Frame>)

  datatype Offer = Offer(ch: ChanId, frame: Frame)

  datatype World = World(
    hub: Hub,
    pending: seq<Offer>,                       // offers of publishers that have left the lock
    channels: map<ChanId, seq<Frame>>,         // buffered frames
    // history
    published: map<Session, seq<Frame>>,
    subscriptions: map<ChanId, Subscription>,
    offered: map<ChanId, seq<Frame>>,          // in the order of publication
    taken: map<ChanId, seq<Frame>>,            // offers made and accepted, in the order of the offers
    received: map<ChanId, seq<Frame>>,         // what the subscriber has received
    dropped: map<ChanId, multiset<Frame>>      // offers made to a full channel
  )

  const START := World(EMPTY_HUB, [], map[], map[], map[], map[], map[], map[], map[])

  datatype Step =
    | DoSubscribe(session: Session, afterSeq: int)
    | DoUnsubscribe(ch: ChanId)
    | DoPublish(session: Session, payload: Payload, order: seq<ChanId>)
    | FailToEncode
    | DoOffer(i: nat)
    | Receive(ch: ChanId)

  predicate NoOfferTo(pending: seq<Offer>, ch: ChanId) { forall o :: o in pending ==> o.ch != ch }

  /** A map is copied in any order, each key once. */
  predicate Lists(order: seq<ChanId>, chs: set<ChanId>) {
    && (forall i, j :: 0 <= i < j < |order| ==> order[i] != order[j])
    && (forall i :: 0 <= i < |order| ==> order[i] in chs)
    && (forall ch :: ch in chs ==> ch in order)
  }

  /** Unsubscribe closes the channel; it must not race with an offer to it. */
  predicate Enabled(w: World, s: Step) {
    match s
    case DoSubscribe(_, _) => true
    case DoUnsubscribe(ch) => ch in w.subscriptions && NoOfferTo(w.pending, ch)
    case DoPublish(session, _, order) => Lists(order, SubscribersOf(w.hub, session))
    case FailToEncode => true
    case DoOffer(i) => i < |w.pending| && w.pending[i].ch in w.channels &&
                       w.pending[i].ch in w.taken && w.pending[i].ch in w.dropped
    case Receive(ch) => ch in w.channels && w.channels[ch] != [] && ch in w.received
  }

  /** One offer of the frame to each channel. */
  function OffersTo(order: seq<ChanId>, frame: Frame): seq<Offer> {
    if order == [] then [] else
      OffersTo(order[..|order| - 1], frame) + [Offer(order[|order| - 1], frame)]
  }

  /** What a publication adds to the offers of each subscriber. */
  function Announce(offered: map<ChanId, seq<Frame>>, order: seq<ChanId>, frame: Frame): map<ChanId, seq<Frame>> {
    map ch | ch in offered :: if ch in order then offered[ch] + [frame] else offered[ch]
  }

  function Announced(w: World, session: Session, payload: Payload, order: seq<ChanId>): World {
    var r := Publish(w.hub, session, payload);
    w.(hub := r.hub, pending := w.pending + OffersTo(order, r.frame),
       published := w.published[session := HistoryOf(w.published, session) + [r.frame]],
       offered := Announce(w.offered, order, r.frame))
  }

  function Offered(w: World, i: nat): World
    requires Enabled(w, DoOffer(i))
  {
    var o := w.pending[i];
    var w' := w.(pending := w.pending[..i] + w.pending[i + 1..]);
    if |w.channels[o.ch]| < CHANNEL_CAPACITY
    then w'.(channels := w.channels[o.ch := w.channels[o.ch] + [o.frame]],
             taken := w.taken[o.ch := w.taken[o.ch] + [o.frame]])
    else w'.(dropped := w.dropped[o.ch := w.dropped[o.ch] + multiset{o.frame}])
  }

  function Next(w: World, s: Step): World
    requires Enabled(w, s)
  {
    match s
    case DoSubscribe(session, afterSeq) =>
      var r := Subscribe(w.hub, session, afterSeq);
      w.(hub := r.hub, channels := w.channels[r.ch := []],
         subscriptions := w.subscriptions[r.ch := Subscription(session, afterSeq, |HistoryOf(w.published, session)|, r.backlog)],
         offered := w.offered[r.ch := []], taken := w.taken[r.ch := []], received := w.received[r.ch := []],
         dropped := w.dropped[r.ch := multiset{}])
    case DoUnsubscribe(ch) =>
      w.(hub := Unsubscribe(w.hub, w.subscriptions[ch].session, ch), channels := w.channels - {ch},
         subscriptions := w.subscriptions - {ch}, offered := w.offered - {ch}, taken := w.taken - {ch},
         received := w.received - {ch}, dropped := w.dropped - {ch})
    case DoPublish(session, payload, order) => Announced(w, session, payload, order)
    case FailToEncode => w.(hub := w.hub.(nextSeq := w.hub.nextSeq + 1))
    case DoOffer(i) => Offered(w, i)
    case Receive(ch) =>
      w.(channels := w.channels[ch := w.channels[ch][1..]], received := w.received[ch := w.received[ch] + [w.channels[ch][0]]])
  }

  // ----- invariant -----

  predicate Increasing(fs: seq<Frame>) { forall i, j :: 0 <= i < j < |fs| ==> fs[i].sequence < fs[j].sequence }

  /** Frames of a session, oldest first, with the log that is kept of them. */
  predicate LogIs(p: seq<Frame>, log: seq<Frame>, nextSeq: int) {
    Increasing(p) && log == Retained(p) && forall f :: f in p ==> 0 < f.sequence <= nextSeq
  }

  predicate LogOk(w: World, s: Session) {
    LogIs(HistoryOf(w.published, s), HistoryOf(w.hub.history, s), w.hub.nextSeq)
  }

  function PendingFor(pending: seq<Offer>, ch: ChanId): multiset<Frame> {
    if pending == [] then multiset{} else
      PendingFor(pending[..|pending| - 1], ch) +
      (if pending[|pending| - 1].ch == ch then multiset{pending[|pending| - 1].frame} else multiset{})
  }

  predicate Registered(w: World, ch: ChanId) {
    && ch in w.subscriptions && ch in SubscribersOf(w.hub, w.subscriptions[ch].session)
    && ch in w.channels && ch in w.offered && ch in w.taken && ch in w.received && ch in w.dropped
  }

  /** A subscriber is given the retained frames above afterSeq at once and is offered every later frame. */
  predicate Served(sub: Subscription, p: seq<Frame>, offered: seq<Frame>) {
    && sub.before <= |p|
    && sub.backlog == (if sub.afterSeq <= 0 then [] else Above(Retained(p[..sub.before]), sub.afterSeq))
    && offered == p[sub.before..]
  }

  /** Every offer is on its way, taken or dropped. */
  predicate Conserved(taken: seq<Frame>, dropped: multiset<Frame>, pending: multiset<Frame>, offered: seq<Frame>) {
    multiset(taken) + dropped + pending == multiset(offered)
  }

  /** The channel is within its capacity and holds, in order, what it took and the subscriber has not received. */
  predicate Buffers(taken: seq<Frame>, received: seq<Frame>, channel: seq<Frame>) {
    received + channel == taken && |channel| <= 128
  }

  predicate SubscriberOk(w: World, ch: ChanId) {
    && Registered(w, ch)
    && Served(w.subscriptions[ch], HistoryOf(w.published, w.subscriptions[ch].session), w.offered[ch])
    && Conserved(w.taken[ch], w.dropped[ch], PendingFor(w.pending, ch), w.offered[ch])
    && Buffers(w.taken[ch], w.received[ch], w.channels[ch])
  }

  /** The hub's subscriber sets, the offers under way and the subscriptions name the same channels. */
  ghost predicate LinksOk(w: World) {
    && (forall s, ch :: s in w.hub.subscribers && ch in w.hub.subscribers[s] ==>
                          ch in w.subscriptions && w.subscriptions[ch].session == s)
    && (forall o :: o in w.pending ==> o.ch in w.subscriptions)
    && (forall ch :: ch in w.subscriptions ==> ch < w.hub.nextChan)
    && 0 <= w.hub.nextSeq
  }

  ghost predicate Inv(w: World) {
    && (forall s: Session :: LogOk(w, s))
    && (forall ch {:trigger SubscriberOk(w, ch)} :: ch in w.subscriptions ==> SubscriberOk(w, ch))
    && LinksOk(w)
  }

  lemma {:induction false} PendingOfConcat(a: seq<Offer>, b: seq<Offer>, ch: ChanId)
    ensures PendingFor(a + b, ch) == PendingFor(a, ch) + PendingFor(b, ch)
  {
    if b == [] {
      assert a + b == a;
    } else {
      assert (a + b)[..|a + b| - 1] == a + b[..|b| - 1];
      PendingOfConcat(a, b[..|b| - 1], ch);
    }
  }

  lemma {:induction false} PendingOfOthers(a: seq<Offer>, ch: ChanId)
    requires NoOfferTo(a, ch)
    ensures PendingFor(a, ch) == multiset{}
  {
    if a != [] {
      PendingOfOthers(a[..|a| - 1], ch);
    }
  }

  /** Each subscriber gets one offer. */
  lemma {:induction false} PendingOfOffers(order: seq<ChanId>, frame: Frame, ch: ChanId)
    requires forall i, j :: 0 <= i < j < |order| ==> order[i] != order[j]
    ensures PendingFor(OffersTo(order, frame), ch) == if ch in order then multiset{frame} else multiset{}
  {
    if order != [] {
      var rest, last := order[..|order| - 1], order[|order| - 1];
      PendingOfOffers(rest, frame, ch);
      assert order == rest + [last];
      var offers := OffersTo(order, frame);
      assert offers[..|offers| - 1] == OffersTo(rest, frame);
    }
  }

  lemma {:induction false} OffersGoTo(order: seq<ChanId>, frame: Frame, o: Offer)
    requires o in OffersTo(order, frame)
    ensures o.ch in order && o.frame == frame
  {
    if o != Offer(order[|order| - 1], frame) {
      OffersGoTo(order[..|order| - 1], frame, o);
    }
  }

  lemma PendingWithout(a: seq<Offer>, i: nat, ch: ChanId)
    requires i < |a|
    ensures PendingFor(a, ch) == PendingFor(a[..i] + a[i + 1..], ch) +
                                 (if a[i].ch == ch then multiset{a[i].frame} else multiset{})
  {
    assert a == a[..i] + [a[i]] + a[i + 1..];
    PendingOfConcat(a[..i] + [a[i]], a[i + 1..], ch);
    PendingOfConcat(a[..i], [a[i]], ch);
    PendingOfConcat(a[..i], a[i + 1..], ch);
    assert [a[i]][..0] == [];
    assert PendingFor([a[i]], ch) == if a[i].ch == ch then multiset{a[i].frame} else multiset{};
  }

  // ----- every step keeps it -----

  lemma RetainedGrows(p: seq<Frame>, f: Frame)
    ensures Retained(Retained(p) + [f]) == Retained(p + [f])
  {
  }

  lemma LogGrows(p: seq<Frame>, log: seq<Frame>, n: int, f: Frame)
    requires LogIs(p, log, n) && f.sequence == n + 1 && 0 <= n
    ensures LogIs(p + [f], Retained(log + [f]), n + 1)
  {
    RetainedGrows(p, f);
    assert forall i :: 0 <= i < |p| ==> p[i] in p;
  }

  lemma ServedGrows(sub: Subscription, p: seq<Frame>, offered: seq<Frame>, f: Frame)
    requires Served(sub, p, offered)
    ensures Served(sub, p + [f], offered + [f])
  {
    assert (p + [f])[..sub.before] == p[..sub.before];
    assert (p + [f])[sub.before..] == p[sub.before..] + [f];
  }

  lemma ConservedGrows(taken: seq<Frame>, dropped: multiset<Frame>, pending: multiset<Frame>, offered: seq<Frame>, f: Frame)
    requires Conserved(taken, dropped, pending, offered)
    ensures Conserved(taken, dropped, pending + multiset{f}, offered + [f])
  {
  }

  lemma PublishKeepsLog(w: World, s: Session, payload: Payload, order: seq<ChanId>, session: Session)
    requires LogOk(w, session) && 0 <= w.hub.nextSeq
    ensures LogOk(Announced(w, s, payload, order), session)
  {
    hide LogIs, Retained, OffersTo, Announce, SubscribersOf;
    var p, log, n := HistoryOf(w.published, session), HistoryOf(w.hub.history, session), w.hub.nextSeq;
    var w' := Announced(w, s, payload, order);
    LogGrows(p, log, n, Frame(n + 1, payload));
    if session == s {
      assert HistoryOf(w'.published, s) == p + [Frame(n + 1, payload)];
    } else {
      LogOutlives(p, log, n);
    }
  }

  lemma LogOutlives(p: seq<Frame>, log: seq<Frame>, n: int)
    requires LogIs(p, log, n)
    ensures LogIs(p, log, n + 1)
  {
  }

  lemma StepKeepsLog(w: World, s: Step, session: Session)
    requires Enabled(w, s) && LogOk(w, session) && 0 <= w.hub.nextSeq
    ensures LogOk(Next(w, s), session)
  {
    hide LogIs, Announced, Lists;
    if s.DoPublish? {
      PublishKeepsLog(w, s.session, s.payload, s.order, session);
    } else if s.FailToEncode? {
      LogOutlives(HistoryOf(w.published, session), HistoryOf(w.hub.history, session), w.hub.nextSeq);
    }
  }

  lemma PublishKeepsPending(pending: seq<Offer>, order: seq<ChanId>, f: Frame, ch: ChanId)
    requires forall i, j :: 0 <= i < j < |order| ==> order[i] != order[j]
    ensures PendingFor(pending + OffersTo(order, f), ch) ==
            if ch in order then PendingFor(pending, ch) + multiset{f} else PendingFor(pending, ch)
  {
    PendingOfConcat(pending, OffersTo(order, f), ch);
    PendingOfOffers(order, f, ch);
  }

  /** What a publication changes for one subscriber. */
  lemma AnnouncedToSubscriber(w: World, s: Session, payload: Payload, order: seq<ChanId>, ch: ChanId)
    requires Registered(w, ch) && Lists(order, SubscribersOf(w.hub, s))
    requires ch in SubscribersOf(w.hub, s) <==> w.subscriptions[ch].session == s
    ensures var w', f, session := Announced(w, s, payload, order), Frame(w.hub.nextSeq + 1, payload), w.subscriptions[ch].session;
            && Registered(w', ch) && w'.subscriptions == w.subscriptions && w'.taken == w.taken && w'.dropped == w.dropped
            && w'.received == w.received && w'.channels == w.channels
            && w'.pending == w.pending + OffersTo(order, f)
            && (ch in order <==> session == s)
            && HistoryOf(w'.published, session) == HistoryOf(w.published, session) + (if session == s then [f] else [])
            && w'.offered[ch] == w.offered[ch] + (if session == s then [f] else [])
  {
    hide Retained, OffersTo;
    assert ch in order <==> ch in SubscribersOf(w.hub, s);
  }

  lemma PublishKeepsSubscriber(w: World, s: Session, payload: Payload, order: seq<ChanId>, ch: ChanId)
    requires SubscriberOk(w, ch) && Lists(order, SubscribersOf(w.hub, s))
    requires ch in SubscribersOf(w.hub, s) <==> w.subscriptions[ch].session == s
    ensures SubscriberOk(Announced(w, s, payload, order), ch)
  {
    hide Served, Conserved, Buffers, OffersTo, Announced, PendingFor;
    var f, sub := Frame(w.hub.nextSeq + 1, payload), w.subscriptions[ch];
    AnnouncedToSubscriber(w, s, payload, order, ch);
    PublishKeepsPending(w.pending, order, f, ch);
    if sub.session == s {
      ServedGrows(sub, HistoryOf(w.published, sub.session), w.offered[ch], f);
      ConservedGrows(w.taken[ch], w.dropped[ch], PendingFor(w.pending, ch), w.offered[ch], f);
    } else {
      assert w.offered[ch] + [] == w.offered[ch];
      assert HistoryOf(w.published, sub.session) + [] == HistoryOf(w.published, sub.session);
    }
  }

  lemma OfferConserves(taken: seq<Frame>, dropped: multiset<Frame>, before: multiset<Frame>, after: multiset<Frame>,
                       offered: seq<Frame>, f: Frame)
    requires Conserved(taken, dropped, before, offered) && before == after + multiset{f}
    ensures Conserved(taken + [f], dropped, after, offered)
    ensures Conserved(taken, dropped + multiset{f}, after, offered)
  {
  }

  lemma OfferKeepsSubscriber(w: World, i: nat, ch: ChanId)
    requires Enabled(w, DoOffer(i)) && SubscriberOk(w, ch)
    ensures SubscriberOk(Offered(w, i), ch)
  {
    var w', o := Offered(w, i), w.pending[i];
    PendingWithout(w.pending, i, ch);
    if o.ch == ch {
      OfferConserves(w.taken[ch], w.dropped[ch], PendingFor(w.pending, ch), PendingFor(w'.pending, ch), w.offered[ch], o.frame);
    } else {
      assert PendingFor(w'.pending, ch) == PendingFor(w.pending, ch);
      assert w'.taken[ch] == w.taken[ch] && w'.dropped[ch] == w.dropped[ch];
    }
    OfferKeepsBuffer(w, i, ch);
    hide PendingFor, Served, Conserved, Buffers;
  }

  lemma OfferKeepsBuffer(w: World, i: nat, ch: ChanId)
    requires Enabled(w, DoOffer(i)) && Registered(w, ch) && Buffers(w.taken[ch], w.received[ch], w.channels[ch])
    ensures var w' := Offered(w, i); Registered(w', ch) && Buffers(w'.taken[ch], w'.received[ch], w'.channels[ch])
  {
    var f := w.pending[i].frame;
    assert w.received[ch] + (w.channels[ch] + [f]) == w.received[ch] + w.channels[ch] + [f];
  }

  lemma SubscribeKeepsSubscriber(w: World, s: Step, ch: ChanId)
    requires s.DoSubscribe? && Enabled(w, s) && LogOk(w, s.session) && ch in Next(w, s).subscriptions
    requires ch in w.subscriptions ==> SubscriberOk(w, ch)
    requires NoOfferTo(w.pending, w.hub.nextChan)
    ensures SubscriberOk(Next(w, s), ch)
  {
    if ch == w.hub.nextChan {
      PendingOfOthers(w.pending, ch);
      var p := HistoryOf(w.published, s.session);
      assert p[..|p|] == p && p[|p|..] == [];
    }
  }

  lemma ReceiveKeepsBuffer(taken: seq<Frame>, received: seq<Frame>, channel: seq<Frame>)
    requires Buffers(taken, received, channel) && channel != []
    ensures Buffers(taken, received + [channel[0]], channel[1..])
  {
    assert channel == [channel[0]] + channel[1..];
    assert received + [channel[0]] + channel[1..] == received + channel;
  }

  lemma ReceivedFields(w: World, x: ChanId, ch: ChanId)
    requires Enabled(w, Receive(x)) && Registered(w, ch)
    ensures var w' := Next(w, Receive(x));
            && w'.hub == w.hub && w'.pending == w.pending && w'.published == w.published && Registered(w', ch)
            && w'.subscriptions == w.subscriptions && w'.offered == w.offered && w'.taken == w.taken && w'.dropped == w.dropped
            && w'.channels[ch] == (if x == ch then w.channels[ch][1..] else w.channels[ch])
            && w'.received[ch] == (if x == ch then w.received[ch] + [w.channels[ch][0]] else w.received[ch])
  {
    hide SubscribersOf;
  }

  lemma ReceiveKeepsSubscriber(w: World, x: ChanId, ch: ChanId)
    requires Enabled(w, Receive(x)) && SubscriberOk(w, ch)
    ensures SubscriberOk(Next(w, Receive(x)), ch)
  {
    ReceivedFields(w, x, ch);
    hide Next, Registered, Served, Conserved, Buffers, PendingFor, HistoryOf;
    if x == ch {
      ReceiveKeepsBuffer(w.taken[ch], w.received[ch], w.channels[ch]);
    }
  }

  lemma UnsubscribeKeepsSubscriber(w: World, x: ChanId, ch: ChanId)
    requires Enabled(w, DoUnsubscribe(x)) && SubscriberOk(w, ch) && x != ch
    ensures SubscriberOk(Next(w, DoUnsubscribe(x)), ch)
  {
    hide Served, Conserved, Buffers, PendingFor, NoOfferTo, HistoryOf;
  }

  lemma FailureKeepsSubscriber(w: World, ch: ChanId)
    requires SubscriberOk(w, ch)
    ensures SubscriberOk(Next(w, FailToEncode), ch)
  {
    hide Served, Conserved, Buffers, PendingFor, HistoryOf;
  }

  lemma PublishKeepsLinks(w: World, session: Session, payload: Payload, order: seq<ChanId>)
    requires LinksOk(w) && Lists(order, SubscribersOf(w.hub, session))
    ensures LinksOk(Announced(w, session, payload, order))
  {
    var w' := Announced(w, session, payload, order);
    assert w'.hub.subscribers == w.hub.subscribers && w'.subscriptions == w.subscriptions;
    forall o | o in w'.pending ensures o.ch in w.subscriptions {
      if o !in w.pending {
        OffersGoTo(order, Frame(w.hub.nextSeq + 1, payload), o);
      }
    }
  }

  lemma SubscribeKeepsLinks(w: World, session: Session, afterSeq: int)
    requires LinksOk(w)
    ensures LinksOk(Next(w, DoSubscribe(session, afterSeq)))
  {
    var r, w' := Subscribe(w.hub, session, afterSeq), Next(w, DoSubscribe(session, afterSeq));
    assert w'.hub.subscribers == w.hub.subscribers[session := SubscribersOf(w.hub, session) + {r.ch}];
    forall t, c | t in w'.hub.subscribers && c in w'.hub.subscribers[t]
      ensures c in w'.subscriptions && w'.subscriptions[c].session == t
    {
      assert t != session || c != r.ch ==> t in w.hub.subscribers && c in w.hub.subscribers[t];
      assert t != session || c != r.ch ==> c in w.subscriptions;
      assert t != session || c != r.ch ==> c < w.hub.nextChan;
      assert c in w'.subscriptions;
    }
  }

  lemma UnsubscribeKeepsLinks(w: World, ch: ChanId)
    requires LinksOk(w) && Enabled(w, DoUnsubscribe(ch))
    ensures LinksOk(Next(w, DoUnsubscribe(ch)))
  {
    var s, w' := w.subscriptions[ch].session, Next(w, DoUnsubscribe(ch));
    forall t, c | t in w'.hub.subscribers && c in w'.hub.subscribers[t]
      ensures c in w'.subscriptions && w'.subscriptions[c].session == t
    {
      assert t in w.hub.subscribers && c in w.hub.subscribers[t];
      assert t == s ==> c in w.hub.subscribers[s] - {ch};
      assert c != ch;
    }
    forall o | o in w'.pending ensures o.ch in w'.subscriptions {
      assert o in w.pending && o.ch != ch;
    }
    assert w'.hub.nextSeq == w.hub.nextSeq && w'.hub.nextChan == w.hub.nextChan;
  }

  lemma StepKeepsLinks(w: World, s: Step)
    requires LinksOk(w) && Enabled(w, s)
    ensures LinksOk(Next(w, s))
  {
    hide Subscribe, Unsubscribe, Announced, Lists;
    if s.DoPublish? {
      PublishKeepsLinks(w, s.session, s.payload, s.order);
    } else if s.DoSubscribe? {
      SubscribeKeepsLinks(w, s.session, s.afterSeq);
    } else if s.DoUnsubscribe? {
      UnsubscribeKeepsLinks(w, s.ch);
    } else if s.DoOffer? {
      assert forall o :: o in Next(w, s).pending ==> o in w.pending;
    }
  }

  lemma SubscribersSession(w: World, s: Session, ch: ChanId)
    requires LinksOk(w) && SubscriberOk(w, ch)
    ensures ch in SubscribersOf(w.hub, s) <==> w.subscriptions[ch].session == s
  {
  }

  lemma StepKeepsSubscriber(w: World, s: Step, ch: ChanId)
    requires LinksOk(w) && Enabled(w, s) && ch in Next(w, s).subscriptions
    requires ch in w.subscriptions ==> SubscriberOk(w, ch)
    requires s.DoSubscribe? ==> LogOk(w, s.session)
    ensures SubscriberOk(Next(w, s), ch)
  {
    hide SubscriberOk, LogOk, Lists;
    if s.DoPublish? {
      SubscribersSession(w, s.session, ch);
      PublishKeepsSubscriber(w, s.session, s.payload, s.order, ch);
    } else if s.DoOffer? {
      OfferKeepsSubscriber(w, s.i, ch);
    } else if s.DoSubscribe? {
      SubscribeKeepsSubscriber(w, s, ch);
    } else if s.DoUnsubscribe? {
      UnsubscribeKeepsSubscriber(w, s.ch, ch);
    } else if s.Receive? {
      ReceiveKeepsSubscriber(w, s.ch, ch);
    } else {
      FailureKeepsSubscriber(w, ch);
    }
  }

  lemma StepKeepsInv(w: World, s: Step)
    requires Inv(w) && Enabled(w, s)
    ensures Inv(Next(w, s))
  {
    hide LogOk, SubscriberOk, Next, Enabled;
    var w' := Next(w, s);
    forall session: Session ensures LogOk(w', session) {
      StepKeepsLog(w, s, session);
    }
    StepKeepsLinks(w, s);
    forall ch | ch in w'.subscriptions ensures SubscriberOk(w', ch) {
      StepKeepsSubscriber(w, s, ch);
    }
  }

  // ----- runs -----

  ghost predicate IsRun(w: World, steps: seq<Step>)
    decreases |steps|
  {
    steps == [] || (Enabled(w, steps[0]) && IsRun(Next(w, steps[0]), steps[1..]))
  }

  ghost function After(w: World, steps: seq<Step>): World
    requires IsRun(w, steps)
    decreases |steps|
  {
    if steps == [] then w else After(Next(w, steps[0]), steps[1..])
  }

  lemma {:induction false} RunKeepsInv(w: World, steps: seq<Step>)
    requires Inv(w) && IsRun(w, steps)
    ensures Inv(After(w, steps))
    decreases |steps|
  {
    if steps != [] {
      StepKeepsInv(w, steps[0]);
      RunKeepsInv(Next(w, steps[0]), steps[1..]);
    }
  }

  lemma ReachedStatesAreSound(steps: seq<Step>)
    requires IsRun(START, steps)
    ensures Inv(After(START, steps)) && 0 <= START.hub.nextSeq
  {
    hide IsRun, After;
    RunKeepsInv(START, steps);
  }

  // ----- what the steps of a run tell -----

  predicate IsAttempt(s: Step) { s.DoPublish? || s.FailToEncode? }

  /** Calls of Publish, each of which uses up a sequence number. */
  function Attempts(steps: seq<Step>): nat {
    if steps == [] then 0 else (if IsAttempt(steps[0]) then 1 else 0) + Attempts(steps[1..])
  }

  /** The frames of a session that the steps publish, after n earlier calls of Publish. */
  function FramesIn(n: nat, steps: seq<Step>, s: Session): seq<Frame>
    decreases |steps|
  {
    if steps == [] then [] else
      var rest := FramesIn(if IsAttempt(steps[0]) then n + 1 else n, steps[1..], s);
      if steps[0].DoPublish? && steps[0].session == s then [Frame(n + 1, steps[0].payload)] + rest else rest
  }

  function Subscribes(steps: seq<Step>): nat {
    if steps == [] then 0 else (if steps[0].DoSubscribe? then 1 else 0) + Subscribes(steps[1..])
  }

  lemma StepTells(w: World, x: Step, s: Session)
    requires Enabled(w, x) && 0 <= w.hub.nextSeq
    ensures var w' := Next(w, x);
            && w'.hub.nextSeq == w.hub.nextSeq + (if IsAttempt(x) then 1 else 0)
            && w'.hub.nextChan == w.hub.nextChan + (if x.DoSubscribe? then 1 else 0)
            && HistoryOf(w'.published, s) ==
                 HistoryOf(w.published, s) +
                 (if x.DoPublish? && x.session == s then [Frame(w.hub.nextSeq + 1, x.payload)] else [])
  {
    hide Offered, Retained, OffersTo, Announce, Lists;
    if x.DoOffer? {
      OfferTells(w, x.i);
    }
  }

  lemma OfferTells(w: World, i: nat)
    requires Enabled(w, DoOffer(i))
    ensures var w' := Offered(w, i);
            w'.hub == w.hub && w'.published == w.published && w'.subscriptions == w.subscriptions
  {
  }

  /** The numbers and the published frames are told by the steps alone. */
  lemma {:induction false} RunTells(w: World, steps: seq<Step>, s: Session)
    requires IsRun(w, steps) && 0 <= w.hub.nextSeq
    ensures var w' := After(w, steps);
            && w'.hub.nextSeq == w.hub.nextSeq + Attempts(steps)
            && w'.hub.nextChan == w.hub.nextChan + Subscribes(steps)
            && HistoryOf(w'.published, s) == HistoryOf(w.published, s) + FramesIn(w.hub.nextSeq, steps, s)
    decreases |steps|
  {
    hide Next, Enabled;
    if steps != [] {
      StepTells(w, steps[0], s);
      RunTells(Next(w, steps[0]), steps[1..], s);
    }
  }

  lemma {:induction false} RunSplits(w: World, a: seq<Step>, b: seq<Step>)
    requires IsRun(w, a + b)
    ensures IsRun(w, a) && IsRun(After(w, a), b) && After(w, a + b) == After(After(w, a), b)
    decreases |a|
  {
    hide Next, Enabled;
    if a == [] {
      assert a + b == b;
    } else {
      assert (a + b)[1..] == a[1..] + b;
      RunSplits(Next(w, a[0]), a[1..], b);
    }
  }

  /** Step k subscribes and is given channel ch, which is not unsubscribed later on. */
  predicate SubscribesAt(steps: seq<Step>, k: nat, ch: ChanId) {
    k < |steps| && steps[k].DoSubscribe? && ch == Subscribes(steps[..k]) && DoUnsubscribe(ch) !in steps[k + 1..]
  }

  lemma StepKeepsSubscription(w: World, x: Step, ch: ChanId)
    requires Enabled(w, x) && ch in w.subscriptions && ch < w.hub.nextChan && x != DoUnsubscribe(ch)
    ensures ch in Next(w, x).subscriptions && Next(w, x).subscriptions[ch] == w.subscriptions[ch]
    ensures ch < Next(w, x).hub.nextChan
  {
    hide Offered, Retained, OffersTo, Announce, Lists;
    if x.DoOffer? {
      OfferTells(w, x.i);
    }
  }

  lemma {:induction false} SubscriptionStays(w: World, steps: seq<Step>, ch: ChanId)
    requires IsRun(w, steps) && ch in w.subscriptions && ch < w.hub.nextChan && DoUnsubscribe(ch) !in steps
    ensures ch in After(w, steps).subscriptions && After(w, steps).subscriptions[ch] == w.subscriptions[ch]
    decreases |steps|
  {
    hide Next, Enabled;
    if steps != [] {
      assert steps[0] in steps;
      StepKeepsSubscription(w, steps[0], ch);
      SubscriptionStays(Next(w, steps[0]), steps[1..], ch);
    }
  }

  lemma SubscribedNow(w: World, x: Step)
    requires x.DoSubscribe? && Enabled(w, x)
    ensures var ch := w.hub.nextChan;
            && ch in Next(w, x).subscriptions && ch < Next(w, x).hub.nextChan
            && var sub := Next(w, x).subscriptions[ch];
               sub.session == x.session && sub.afterSeq == x.afterSeq && sub.before == |HistoryOf(w.published, x.session)|
  {
  }

  lemma SubscriptionIsTold(steps: seq<Step>, k: nat, ch: ChanId)
    requires IsRun(START, steps) && SubscribesAt(steps, k, ch)
    ensures ch in After(START, steps).subscriptions
    ensures var sub := After(START, steps).subscriptions[ch];
            && sub.session == steps[k].session && sub.afterSeq == steps[k].afterSeq
            && sub.before == |FramesIn(0, steps[..k], steps[k].session)|
  {
    hide Next, Enabled;
    assert steps == steps[..k] + ([steps[k]] + steps[k + 1..]);
    RunSplits(START, steps[..k], [steps[k]] + steps[k + 1..]);
    var w := After(START, steps[..k]);
    assert ([steps[k]] + steps[k + 1..])[1..] == steps[k + 1..];
    RunTells(START, steps[..k], steps[k].session);
    SubscribedNow(w, steps[k]);
    SubscriptionStays(Next(w, steps[k]), steps[k + 1..], ch);
  }

  lemma {:induction false} FramesSplit(n: nat, a: seq<Step>, b: seq<Step>, s: Session)
    ensures FramesIn(n, a, s) <= FramesIn(n, a + b, s)
    decreases |a|
  {
    if a != [] {
      assert (a + b)[1..] == a[1..] + b;
      FramesSplit(if IsAttempt(a[0]) then n + 1 else n, a[1..], b, s);
    }
  }

  /** The replay log of every session is the last min(n, 512) frames published for it, in increasing sequence. */
  lemma HistoryIsTheTail(steps: seq<Step>, s: Session)
    requires IsRun(START, steps)
    ensures var log, p := HistoryOf(After(START, steps).hub.history, s), FramesIn(0, steps, s);
            && |log| == (if |p| < 512 then |p| else 512)
            && log == p[|p| - |log|..] && Increasing(p)
            && forall f :: f in p ==> 0 < f.sequence <= Attempts(steps)
  {
    var w := After(START, steps);
    ReachedStatesAreSound(steps);
    RunTells(START, steps, s);
    assert LogOk(w, s);
    hide IsRun, After, Inv, FramesIn;
    assert HistoryOf(w.published, s) == FramesIn(0, steps, s);
  }

  // ----- full channels -----

  /** An offer is dropped if and only if the channel holds 128 frames; otherwise the channel takes it, and gives it last. */
  lemma DroppedOnlyIfFull(w: World, i: nat)
    requires Enabled(w, DoOffer(i)) && SubscriberOk(w, w.pending[i].ch)
    ensures var w', ch, f := Next(w, DoOffer(i)), w.pending[i].ch, w.pending[i].frame;
            && |w.channels[ch]| <= 128
            && w'.channels[ch] == (if |w.channels[ch]| == 128 then w.channels[ch] else w.channels[ch] + [f])
            && w'.dropped[ch] == (if |w.channels[ch]| == 128 then w.dropped[ch] + multiset{f} else w.dropped[ch])
  {
  }

  /** Whenever the steps offer something to the channel it has room. */
  ghost predicate AlwaysRoom(w: World, steps: seq<Step>, ch: ChanId)
    requires IsRun(w, steps)
    decreases |steps|
  {
    steps == [] ||
    ((steps[0].DoOffer? && w.pending[steps[0].i].ch == ch ==> |w.channels[ch]| < 128) &&
     AlwaysRoom(Next(w, steps[0]), steps[1..], ch))
  }

  predicate NoneDropped(w: World, ch: ChanId) { ch in w.dropped ==> w.dropped[ch] == multiset{} }

  lemma StepDropsNone(w: World, x: Step, ch: ChanId)
    requires Enabled(w, x) && NoneDropped(w, ch)
    requires x.DoOffer? && w.pending[x.i].ch == ch ==> |w.channels[ch]| < 128
    ensures NoneDropped(Next(w, x), ch)
  {
    hide Retained, OffersTo, Announce, Lists, Subscribe, Unsubscribe, Publish;
  }

  lemma {:induction false} RunDropsNone(w: World, steps: seq<Step>, ch: ChanId)
    requires IsRun(w, steps) && NoneDropped(w, ch) && AlwaysRoom(w, steps, ch)
    ensures NoneDropped(After(w, steps), ch)
    decreases |steps|
  {
    hide Next, Enabled, NoneDropped;
    if steps != [] {
      StepDropsNone(w, steps[0], ch);
      RunDropsNone(Next(w, steps[0]), steps[1..], ch);
    }
  }

  // ----- no gap and no duplicate -----

  /** Above an increasing list is a suffix of it. */
  lemma {:induction false} AboveIsASuffix(fs: seq<Frame>, after: int)
    requires Increasing(fs)
    ensures var a := Above(fs, after);
            && |a| <= |fs| && a == fs[|fs| - |a|..]
            && (forall k :: 0 <= k < |fs| ==> (fs[k].sequence > after <==> |fs| - |a| <= k))
  {
    if fs != [] {
      var init, last := fs[..|fs| - 1], fs[|fs| - 1];
      AboveIsASuffix(init, after);
      assert fs == init + [last];
      if last.sequence <= after {
        assert forall k :: 0 <= k < |init| ==> init[k] == fs[k] && init[k].sequence <= after;
        assert Above(init, after) == [];
      }
    }
  }

  lemma {:induction false} AboveOfConcat(a: seq<Frame>, b: seq<Frame>, after: int)
    ensures Above(a + b, after) == Above(a, after) + Above(b, after)
  {
    if b == [] {
      assert a + b == a;
    } else {
      assert (a + b)[..|a + b| - 1] == a + b[..|b| - 1];
      AboveOfConcat(a, b[..|b| - 1], after);
    }
  }

  lemma {:induction false} AboveOfHigh(fs: seq<Frame>, after: int)
    requires forall k :: 0 <= k < |fs| ==> fs[k].sequence > after
    ensures Above(fs, after) == fs
  {
    if fs != [] {
      AboveOfHigh(fs[..|fs| - 1], after);
    }
  }

  lemma AboveOfTail(early: seq<Frame>, tail: seq<Frame>, after: int)
    requires Increasing(early) && Increasing(tail) && |tail| == MAX_HISTORY
    requires early != [] ==> early[|early| - 1].sequence < tail[0].sequence
    ensures Above(tail, after) == Retained(Above(early, after) + Above(tail, after))
  {
    AboveIsASuffix(tail, after);
    AboveIsASuffix(early, after);
    if tail[0].sequence > after {
      AboveOfHigh(tail, after);
    } else {
      assert Above(early, after) == [];
    }
  }

  /** What is above afterSeq in the log is the last 512 of all that is above it. */
  lemma AboveOfRetained(p: seq<Frame>, after: int)
    requires Increasing(p)
    ensures Above(Retained(p), after) == Retained(Above(p, after))
  {
    if |p| > MAX_HISTORY {
      var cut := |p| - MAX_HISTORY;
      hide Above;
      assert p == p[..cut] + p[cut..];
      AboveOfConcat(p[..cut], p[cut..], after);
      AboveOfTail(p[..cut], p[cut..], after);
    } else {
      AboveIsASuffix(p, after);
    }
  }

  /** What a subscriber with a positive afterSeq should see: every frame published for the session above it. */
  function Wanted(p: seq<Frame>, before: nat, afterSeq: int): seq<Frame>
    requires before <= |p|
  {
    Above(p[..before], afterSeq) + p[before..]
  }

  lemma ServedInOrder(p: seq<Frame>, before: nat, backlog: seq<Frame>, offered: seq<Frame>)
    requires Increasing(p) && |backlog| <= before <= |p|
    requires backlog == p[before - |backlog|..before] && offered == p[before..]
    ensures Increasing(backlog + offered)
  {
    assert backlog + offered == p[before - |backlog|..];
  }

  /** What reaches back into the early frames, as far as the log does. */
  lemma RetainedIsATail(early: seq<Frame>, all: seq<Frame>)
    requires |all| <= |early| && all == early[|early| - |all|..]
    ensures var kept := Retained(all); |kept| <= |early| && kept == early[|early| - |kept|..]
    ensures Retained(all) == all <==> |all| <= MAX_HISTORY
  {
  }

  lemma SameFront(a: seq<Frame>, b: seq<Frame>, c: seq<Frame>)
    ensures a + c == b + c <==> a == b
  {
    if a + c == b + c {
      assert (a + c)[..|a|] == a && (b + c)[..|b|] == b;
    }
  }

  lemma ServedInFull(sub: Subscription, p: seq<Frame>, offered: seq<Frame>)
    requires Served(sub, p, offered) && Increasing(p) && sub.afterSeq > 0
    ensures sub.backlog == Retained(Above(p[..sub.before], sub.afterSeq))
    ensures Increasing(sub.backlog + offered)
    ensures sub.backlog + offered == Wanted(p, sub.before, sub.afterSeq) <==>
            |Above(p[..sub.before], sub.afterSeq)| <= MAX_HISTORY
  {
    hide Above, Retained;
    var early := p[..sub.before];
    AboveOfRetained(early, sub.afterSeq);
    AboveIsASuffix(early, sub.afterSeq);
    var all := Above(early, sub.afterSeq);
    RetainedIsATail(early, all);
    ServedInOrder(p, sub.before, sub.backlog, offered);
    SameFront(sub.backlog, all, offered);
  }

  lemma ServedTo(sub: Subscription, p: seq<Frame>, early: seq<Frame>, offered: seq<Frame>)
    requires Served(sub, p, offered) && Increasing(p) && early <= p && sub.before == |early|
    ensures offered == p[|early|..] && (sub.afterSeq <= 0 ==> sub.backlog == [])
    ensures sub.afterSeq > 0 ==>
              && sub.backlog == Retained(Above(early, sub.afterSeq)) && Increasing(sub.backlog + offered)
              && (sub.backlog + offered == Wanted(p, |early|, sub.afterSeq) <==> |Above(early, sub.afterSeq)| <= MAX_HISTORY)
  {
    hide Above, Retained;
    assert p[..sub.before] == early;
    if sub.afterSeq > 0 {
      ServedInFull(sub, p, offered);
    }
  }

  /** A channel that step k subscribes and the run keeps is served from the frames that the steps publish. */
  lemma LiveSubscriber(steps: seq<Step>, k: nat, ch: ChanId)
    requires IsRun(START, steps) && SubscribesAt(steps, k, ch)
    ensures var w, session := After(START, steps), steps[k].session;
            var p, early := FramesIn(0, steps, session), FramesIn(0, steps[..k], session);
            && ch in w.subscriptions && SubscriberOk(w, ch) && Increasing(p) && early <= p
            && w.subscriptions[ch].afterSeq == steps[k].afterSeq && w.subscriptions[ch].before == |early|
            && Served(w.subscriptions[ch], p, w.offered[ch])
  {
    var w, session := After(START, steps), steps[k].session;
    hide IsRun, After, FramesIn, Next, Retained, Above, SubscribesAt, Served, Conserved, Buffers;
    SubscriptionIsTold(steps, k, ch);
    ReachedStatesAreSound(steps);
    RunTells(START, steps, session);
    assert HistoryOf(w.published, session) == [] + FramesIn(0, steps, session);
    assert steps == steps[..k] + steps[k..];
    FramesSplit(0, steps[..k], steps[k..], session);
    assert LogOk(w, session) && SubscriberOk(w, ch);
    assert w.subscriptions[ch].session == session && HistoryOf(w.published, session) == FramesIn(0, steps, session);
  }

  /**
    For a live subscriber, in terms of the steps of the run: its backlog is what the last 512 frames published before it
    have above a positive afterSeq, it is offered exactly the later ones, in order, and with a positive afterSeq nothing
    it wanted is missing if and only if at most 512 frames above afterSeq had been published by then.
   */
  lemma SubscribersMissNothing(steps: seq<Step>, k: nat, ch: ChanId)
    requires IsRun(START, steps) && SubscribesAt(steps, k, ch)
    ensures ch in After(START, steps).subscriptions
    ensures var w, session, after := After(START, steps), steps[k].session, steps[k].afterSeq;
            var p, early, backlog := FramesIn(0, steps, session), FramesIn(0, steps[..k], session), w.subscriptions[ch].backlog;
            && ch in w.offered && early <= p && w.offered[ch] == p[|early|..]
            && (after <= 0 ==> backlog == [])
            && (after > 0 ==> backlog == Retained(Above(early, after)) && Increasing(backlog + w.offered[ch]))
            && (after > 0 ==> (backlog + w.offered[ch] == Wanted(p, |early|, after) <==> |Above(early, after)| <= 512))
  {
    var w, session := After(START, steps), steps[k].session;
    hide IsRun, After, FramesIn, Next, Retained, Above, SubscribesAt, Served, Conserved, Buffers, Wanted;
    LiveSubscriber(steps, k, ch);
    ServedTo(w.subscriptions[ch], FramesIn(0, steps, session), FramesIn(0, steps[..k], session), w.offered[ch]);
  }

  /** The frames published for a session from step k on. */
  function FramesSince(steps: seq<Step>, k: nat, s: Session): seq<Frame>
    requires k <= |steps|
  {
    FramesIn(Attempts(steps[..k]), steps[k..], s)
  }

  lemma {:induction false} FramesOfConcat(n: nat, a: seq<Step>, b: seq<Step>, s: Session)
    ensures FramesIn(n, a + b, s) == FramesIn(n, a, s) + FramesIn(n + Attempts(a), b, s)
    decreases |a|
  {
    if a == [] {
      assert a + b == b;
    } else {
      assert (a + b)[1..] == a[1..] + b;
      FramesOfConcat(if IsAttempt(a[0]) then n + 1 else n, a[1..], b, s);
    }
  }

  lemma SinceIsTheRest(steps: seq<Step>, k: nat, s: Session)
    requires k <= |steps|
    ensures FramesIn(0, steps, s) == FramesIn(0, steps[..k], s) + FramesSince(steps, k, s)
  {
    assert steps == steps[..k] + steps[k..];
    FramesOfConcat(0, steps[..k], steps[k..], s);
  }

  lemma OffersSettle(w: World, ch: ChanId, p: seq<Frame>, early: seq<Frame>)
    requires SubscriberOk(w, ch) && early <= p && w.subscriptions[ch].before == |early|
    requires Served(w.subscriptions[ch], p, w.offered[ch])
    ensures w.received[ch] + w.channels[ch] == w.taken[ch] && |w.channels[ch]| <= 128
    ensures NoOfferTo(w.pending, ch) ==> multiset(w.taken[ch]) + w.dropped[ch] == multiset(p[|early|..])
  {
    hide Above, Retained;
    if NoOfferTo(w.pending, ch) {
      PendingOfOthers(w.pending, ch);
    }
  }

  /**
    What a subscriber receives and what its channel still holds are the offers the channel took, in the order they were
    made; every offer was taken or dropped; and if the channel always had room, the subscriber has, once no offer is under
    way, received or ready exactly the frames published since it subscribed.
   */
  lemma SubscribersReceive(steps: seq<Step>, k: nat, ch: ChanId)
    requires IsRun(START, steps) && SubscribesAt(steps, k, ch)
    ensures var w, live := After(START, steps), FramesSince(steps, k, steps[k].session);
            && ch in w.channels && ch in w.taken && ch in w.received && ch in w.dropped && |w.channels[ch]| <= 128
            && w.received[ch] + w.channels[ch] == w.taken[ch]
            && (NoOfferTo(w.pending, ch) ==> multiset(w.taken[ch]) + w.dropped[ch] == multiset(live))
            && (AlwaysRoom(START, steps, ch) ==> w.dropped[ch] == multiset{})
            && (AlwaysRoom(START, steps, ch) && NoOfferTo(w.pending, ch) ==>
                  multiset(w.received[ch] + w.channels[ch]) == multiset(live))
  {
    var w, session := After(START, steps), steps[k].session;
    assert NoneDropped(START, ch);
    hide *;
    LiveSubscriber(steps, k, ch);
    SinceIsTheRest(steps, k, session);
    OffersSettle(w, ch, FramesIn(0, steps, session), FramesIn(0, steps[..k], session));
    if AlwaysRoom(START, steps, ch) {
      RunDropsNone(START, steps, ch);
    }
  }

  lemma NoneIsStuckIn(w: World, ch: ChanId)
    requires Inv(w)
    ensures forall i: nat :: Enabled(w, DoOffer(i)) <==> i < |w.pending|
    ensures ch in w.subscriptions ==> ch in w.channels && (Enabled(w, Receive(ch)) <==> |w.channels[ch]| > 0)
  {
    hide LogOk, Served, Conserved, Buffers, Lists, NoOfferTo;
    assert ch in w.subscriptions ==> SubscriberOk(w, ch);
    forall i: nat | i < |w.pending| ensures Enabled(w, DoOffer(i)) {
      assert w.pending[i] in w.pending && SubscriberOk(w, w.pending[i].ch);
    }
  }

  /** A publisher never waits, and a subscriber waits only for a frame: an offer can always be made, a buffered frame received. */
  lemma NoneIsStuck(steps: seq<Step>, ch: ChanId)
    requires IsRun(START, steps)
    ensures var w := After(START, steps);
            && (forall i: nat :: Enabled(w, DoOffer(i)) <==> i < |w.pending|)
            && (ch in w.subscriptions ==> ch in w.channels && (Enabled(w, Receive(ch)) <==> |w.channels[ch]| > 0))
  {
    hide IsRun, After, Inv, Enabled;
    ReachedStatesAreSound(steps);
    NoneIsStuckIn(After(START, steps), ch);
  }

  function Receives(steps: seq<Step>, ch: ChanId): nat {
    if steps == [] then 0 else (if steps[0] == Receive(ch) then 1 else 0) + Receives(steps[1..], ch)
  }

  lemma StepReceives(w: World, x: Step, ch: ChanId)
    requires Enabled(w, x) && ch in w.received && ch < w.hub.nextChan && x != DoUnsubscribe(ch)
    ensures var w' := Next(w, x);
            && ch in w'.received && ch < w'.hub.nextChan
            && |w'.received[ch]| == |w.received[ch]| + (if x == Receive(ch) then 1 else 0)
  {
    hide Retained, OffersTo, Announce, Lists;
  }

  lemma {:induction false} RunReceives(w: World, steps: seq<Step>, ch: ChanId)
    requires IsRun(w, steps) && ch in w.received && ch < w.hub.nextChan && DoUnsubscribe(ch) !in steps
    ensures ch in After(w, steps).received
    ensures |After(w, steps).received[ch]| == |w.received[ch]| + Receives(steps, ch)
    decreases |steps|
  {
    hide Next, Enabled;
    if steps != [] {
      assert steps[0] in steps;
      StepReceives(w, steps[0], ch);
      RunReceives(Next(w, steps[0]), steps[1..], ch);
    }
  }

  // ----- subscriptions that have ended, and publications -----

  /** The channel is in nobody's hands: no subscription, no buffer, no offer under way and no set of subscribers has it. */
  ghost predicate IsGone(w: World, ch: ChanId) {
    && ch !in w.subscriptions && ch !in w.channels && NoOfferTo(w.pending, ch)
    && (forall s :: s in w.hub.subscribers ==> ch !in w.hub.subscribers[s])
    && ch < w.hub.nextChan
  }

  lemma UnsubscribedIsGone(w: World, ch: ChanId)
    requires LinksOk(w) && Enabled(w, DoUnsubscribe(ch))
    ensures IsGone(Next(w, DoUnsubscribe(ch)), ch)
  {
    UnsubscribeKeepsLinks(w, ch);
  }

  lemma GoneStays(w: World, x: Step, ch: ChanId)
    requires LinksOk(w) && Enabled(w, x) && IsGone(w, ch)
    ensures IsGone(Next(w, x), ch)
  {
    if x.DoPublish? {
      GoneAfterPublish(w, x.session, x.payload, x.order, ch);
    } else if x.DoOffer? {
      GoneAfterOffer(w, x.i, ch);
    } else {
      hide Offered, Retained, OffersTo, Announce, Lists;
    }
  }

  lemma GoneAfterOffer(w: World, i: nat, ch: ChanId)
    requires Enabled(w, DoOffer(i)) && IsGone(w, ch)
    ensures IsGone(Next(w, DoOffer(i)), ch)
  {
    assert forall o :: o in Next(w, DoOffer(i)).pending ==> o in w.pending;
  }

  lemma GoneAfterPublish(w: World, s: Session, payload: Payload, order: seq<ChanId>, ch: ChanId)
    requires Enabled(w, DoPublish(s, payload, order)) && IsGone(w, ch)
    ensures IsGone(Next(w, DoPublish(s, payload, order)), ch)
  {
    var f := Frame(w.hub.nextSeq + 1, payload);
    assert ch !in order;
    forall o | o in w.pending + OffersTo(order, f) ensures o.ch != ch {
      if o !in w.pending {
        OffersGoTo(order, f, o);
      }
    }
    hide OffersTo, Retained, Announce;
  }

  lemma {:induction false} StaysGone(w: World, steps: seq<Step>, ch: ChanId)
    requires Inv(w) && IsRun(w, steps) && IsGone(w, ch)
    ensures IsGone(After(w, steps), ch)
    decreases |steps|
  {
    if steps != [] {
      StepKeepsInv(w, steps[0]);
      GoneStays(w, steps[0], ch);
      hide Next, Enabled, IsGone;
      StaysGone(Next(w, steps[0]), steps[1..], ch);
    }
  }

  /** Once a channel is unsubscribed, and closed, nothing is offered to it any more. */
  lemma ClosedIsGone(steps: seq<Step>, k: nat, ch: ChanId)
    requires IsRun(START, steps) && k < |steps| && steps[k] == DoUnsubscribe(ch)
    ensures IsGone(After(START, steps), ch)
  {
    hide Next, Enabled, IsGone;
    assert steps == steps[..k] + ([steps[k]] + steps[k + 1..]);
    RunSplits(START, steps[..k], [steps[k]] + steps[k + 1..]);
    assert ([steps[k]] + steps[k + 1..])[1..] == steps[k + 1..];
    var w := After(START, steps[..k]);
    ReachedStatesAreSound(steps[..k]);
    UnsubscribedIsGone(w, ch);
    StepKeepsInv(w, steps[k]);
    StaysGone(Next(w, steps[k]), steps[k + 1..], ch);
  }

  lemma {:induction false} SomeOrder(chs: set<ChanId>) returns (order: seq<ChanId>)
    ensures Lists(order, chs)
  {
    if chs == {} {
      order := [];
    } else {
      var ch :| ch in chs;
      var rest := SomeOrder(chs - {ch});
      order := rest + [ch];
      forall c | c in chs ensures c in order {
        assert c == ch || c in rest;
      }
    }
  }

  /** A publication is possible at any time, in any order of the channels subscribed to its session. */
  lemma AnyoneCanPublish(steps: seq<Step>, s: Session, payload: Payload) returns (order: seq<ChanId>)
    requires IsRun(START, steps)
    ensures var w := After(START, steps);
            && Enabled(w, DoPublish(s, payload, order))
            && forall ch :: ch in order <==> ch in w.subscriptions && w.subscriptions[ch].session == s
  {
    var w := After(START, steps);
    ReachedStatesAreSound(steps);
    order := SomeOrder(SubscribersOf(w.hub, s));
    hide IsRun, After, LogOk;
    forall ch ensures ch in SubscribersOf(w.hub, s) <==> ch in w.subscriptions && w.subscriptions[ch].session == s {
      if ch in w.subscriptions {
        assert SubscriberOk(w, ch);
      }
    }
  }

  /** No session without subscribers has an entry. */
  predicate NoneEmpty(h: Hub) { forall s :: s in h.subscribers ==> h.subscribers[s] != {} }

  lemma StepLeavesNoneEmpty(w: World, x: Step)
    requires Enabled(w, x) && NoneEmpty(w.hub)
    ensures NoneEmpty(Next(w, x).hub)
  {
    hide Retained, OffersTo, Announce, Lists, HistoryOf;
  }

  lemma {:induction false} RunLeavesNoneEmpty(w: World, steps: seq<Step>)
    requires IsRun(w, steps) && NoneEmpty(w.hub)
    ensures NoneEmpty(After(w, steps).hub)
    decreases |steps|
  {
    hide Next, Enabled, NoneEmpty;
    if steps != [] {
      StepLeavesNoneEmpty(w, steps[0]);
      RunLeavesNoneEmpty(Next(w, steps[0]), steps[1..]);
    }
  }
}
