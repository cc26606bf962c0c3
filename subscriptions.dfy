/** The subscription controller: the subscribe/unsubscribe toggle and the two lists a
    subscription edge feeds, the subscribers of a channel and the channels a user follows. */
module SubscriptionController {
  import opened Common
  import opened Query
  import opened Records
  import opened Db

  /** The filter `{ subscriber: subscriber, channel: channel }`. */
  predicate Joins(s: Subscription, subscriber: Id, channel: Id) {
    s.subscriber == subscriber && s.channel == channel
  }

  function Edge(subscriber: Id, channel: Id): Subscription -> bool {
    (s: Subscription) => Joins(s, subscriber, channel)
  }

  function NotEdge(subscriber: Id, channel: Id): Subscription -> bool {
    (s: Subscription) => !Joins(s, subscriber, channel)
  }

  /** `{ channel: channel }`: the subscriptions to a channel, by anyone. */
  function ToChannel(channel: Id): Subscription -> bool {
    (s: Subscription) => s.channel == channel
  }

  /** `{ subscriber: subscriber }`: the subscriptions of one user. */
  function OfSubscriber(subscriber: Id): Subscription -> bool {
    (s: Subscription) => s.subscriber == subscriber
  }

  /** The first subscription `findOneAndDelete` would delete. */
  function FindSubscription(subs: seq<Subscription>, subscriber: Id, channel: Id): Option<nat> {
    FirstIndex(subs, Edge(subscriber, channel))
  }

  /** The subscriptions after a toggle: `findOneAndDelete` removed the first edge from
      `subscriber` to `channel`, or, when there was none, `create` appended a new one. */
  function ToggledSubscriptions(subs: seq<Subscription>, subscriber: Id, channel: Id, newId: Id, now: Instant): (r: seq<Subscription>)
    ensures FindSubscription(subs, subscriber, channel).Some? ==>
      multiset(r) == multiset(subs) - multiset{subs[FindSubscription(subs, subscriber, channel).value]}
    ensures FindSubscription(subs, subscriber, channel).None? ==>
      multiset(r) == multiset(subs) + multiset{Subscription(newId, subscriber, channel, now)}
  {
    match FindSubscription(subs, subscriber, channel)
    case Some(i) => RemoveAt(subs, i)
    case None => subs + [Subscription(newId, subscriber, channel, now)]
  }

  /** The number of edges from `subscriber` to `channel` drops by one, or becomes one. */
  lemma SubscriptionToggleCount(subs: seq<Subscription>, subscriber: Id, channel: Id, newId: Id, now: Instant)
    ensures Count(ToggledSubscriptions(subs, subscriber, channel, newId, now), Edge(subscriber, channel)) ==
      if Count(subs, Edge(subscriber, channel)) == 0 then 1 else Count(subs, Edge(subscriber, channel)) - 1
  {
    var n := Subscription(newId, subscriber, channel, now);
    match FindSubscription(subs, subscriber, channel)
    case Some(i) =>
      CountRemoveAccepted(subs, Edge(subscriber, channel), i);
    case None =>
      CountAppend(subs, [n], Edge(subscriber, channel));
      assert Filter([n], Edge(subscriber, channel)) == [n];
  }

  /** The channel's subscriber count moves by exactly one. */
  lemma SubscriptionToggleShiftsChannelCount(subs: seq<Subscription>, subscriber: Id, channel: Id, newId: Id, now: Instant)
    ensures Count(ToggledSubscriptions(subs, subscriber, channel, newId, now), ToChannel(channel)) ==
      if Count(subs, Edge(subscriber, channel)) == 0 then Count(subs, ToChannel(channel)) + 1
      else Count(subs, ToChannel(channel)) - 1
  {
    var n := Subscription(newId, subscriber, channel, now);
    match FindSubscription(subs, subscriber, channel)
    case Some(i) =>
      CountRemoveAccepted(subs, ToChannel(channel), i);
    case None =>
      CountAppend(subs, [n], ToChannel(channel));
      assert Filter([n], ToChannel(channel)) == [n];
  }

  /** No other edge changes, and the others keep their order. */
  lemma SubscriptionToggleLeavesOthers(subs: seq<Subscription>, subscriber: Id, channel: Id, newId: Id, now: Instant)
    ensures Filter(ToggledSubscriptions(subs, subscriber, channel, newId, now), NotEdge(subscriber, channel)) ==
      Filter(subs, NotEdge(subscriber, channel))
  {
    var n := Subscription(newId, subscriber, channel, now);
    match FindSubscription(subs, subscriber, channel)
    case Some(i) =>
      FilterRemoveRejected(subs, NotEdge(subscriber, channel), i);
    case None =>
      FilterAppend(subs, [n], NotEdge(subscriber, channel));
      assert Filter([n], NotEdge(subscriber, channel)) == [];
  }

  /** Subscribing and then unsubscribing restores the collection exactly. */
  lemma SubscribeThenUnsubscribe(subs: seq<Subscription>, subscriber: Id, channel: Id, newId1: Id, newId2: Id, now1: Instant, now2: Instant)
    requires Count(subs, Edge(subscriber, channel)) == 0
    ensures ToggledSubscriptions(ToggledSubscriptions(subs, subscriber, channel, newId1, now1), subscriber, channel, newId2, now2) == subs
  {
    var n := Subscription(newId1, subscriber, channel, now1);
    var once := subs + [n];
    assert FindSubscription(subs, subscriber, channel).None?;
    assert forall j :: 0 <= j < |subs| ==> once[j] == subs[j];
    assert Edge(subscriber, channel)(once[|subs|]);
    assert FindSubscription(once, subscriber, channel) == Some(|subs|);
    assert RemoveAt(once, |subs|) == subs;
  }

  /** The collections and the id counter after a toggle by `subscriber` on `channel`. */
  ghost predicate SubscriptionToggled(before: Collections, after: Collections, subscriber: Id, channel: Id, now: Instant) {
    after == before.(
      subscriptions := ToggledSubscriptions(before.subscriptions, subscriber, channel, before.nextId, now),
      nextId := if FindSubscription(before.subscriptions, subscriber, channel).None? then before.nextId + 1 else before.nextId)
  }

  lemma RemoveSubscriptionKeepsConsistent(c: Collections, i: nat)
    requires Consistent(c) && i < |c.subscriptions|
    ensures Consistent(c.(subscriptions := RemoveAt(c.subscriptions, i)))
  {
    IdsFreshRemove(c.subscriptions, SubscriptionId, c.nextId, i);
    var r := RemoveAt(c.subscriptions, i);
    forall a, b | 0 <= a < b < |r|
      ensures r[a] == c.subscriptions[if a < i then a else a + 1] && r[b] == c.subscriptions[if b < i then b else b + 1]
    {
    }
  }

  lemma AddSubscriptionKeepsConsistent(c: Collections, subscriber: Id, channel: Id, now: Instant)
    requires Consistent(c) && FindSubscription(c.subscriptions, subscriber, channel).None?
    ensures Consistent(c.(subscriptions := c.subscriptions + [Subscription(c.nextId, subscriber, channel, now)], nextId := c.nextId + 1))
  {
    var n := Subscription(c.nextId, subscriber, channel, now);
    ConsistentRaise(c, c.nextId + 1);
    IdsFreshAppend(c.subscriptions, SubscriptionId, c.nextId, n);
    var r := c.subscriptions + [n];
    assert forall j :: 0 <= j < |c.subscriptions| ==> r[j] == c.subscriptions[j] && !Edge(subscriber, channel)(c.subscriptions[j]);
  }

  /** `toggleSubscription`: 401 without a user, then 400 for an invalid channel id. The
      channel is not looked up. An existing edge is deleted (201, empty data); otherwise a
      new one is created and returned (201). */
  method ToggleSubscription(store: Store, channelId: RawId, viewer: Option<Id>, now: Instant) returns (r: Reply<Option<Subscription>>)
    requires store.Valid()
    modifies store
    ensures store.Valid()
    ensures viewer.None? ==> r == Fail(401, "Unauthorized request") && store.State() == old(store.State())
    ensures viewer.Some? && channelId.Malformed? ==> r == Fail(400, "Invalid channel id") && store.State() == old(store.State())
    ensures viewer.Some? && channelId.WellFormed? ==>
      && SubscriptionToggled(old(store.State()), store.State(), viewer.value, channelId.id, now)
      && (if FindSubscription(old(store.subscriptions), viewer.value, channelId.id).Some?
          then r == Ok(201, None, "Unsubscribed successfully")
          else r == Ok(201, Some(Subscription(old(store.nextId), viewer.value, channelId.id, now)), "Subscribed successfully"))
  {
    if viewer.None? {
      return Fail(401, "Unauthorized request");
    }
    if channelId.Malformed? {
      return Fail(400, "Invalid channel id");
    }
    ghost var before := store.State();
    var subscriber, channel := viewer.value, channelId.id;
    var found := FindSubscription(store.subscriptions, subscriber, channel);
    if found.Some? {
      RemoveSubscriptionKeepsConsistent(before, found.value);
      store.subscriptions := RemoveAt(store.subscriptions, found.value);
      assert store.State() == before.(subscriptions := RemoveAt(before.subscriptions, found.value));
      r := Ok(201, None, "Unsubscribed successfully");
    } else {
      AddSubscriptionKeepsConsistent(before, subscriber, channel, now);
      var id := store.FreshId();
      var doc := Subscription(id, subscriber, channel, now);
      store.subscriptions := store.subscriptions + [doc];
      assert store.State() == before.(subscriptions := before.subscriptions + [doc], nextId := before.nextId + 1);
      r := Ok(201, Some(doc), "Subscribed successfully");
    }
  }

  /** A user as both lists project it: `_id`, `email`, `fullName`, `avatar`, `coverImage`.
      The projected `name` does not exist on users and so is absent from every entry. */
  datatype ChannelEntry = ChannelEntry(id: Id, email: string, fullName: string, avatar: string, coverImage: string)

  function EntryOf(u: User): ChannelEntry {
    ChannelEntry(u.id, u.email, u.fullName, u.avatar, u.coverImage)
  }

  predicate SubscriberIs(s: Subscription, u: User) {
    s.subscriber == u.id
  }

  predicate ChannelIs(s: Subscription, u: User) {
    s.channel == u.id
  }

  function EntryOfJoined(row: (Subscription, User)): ChannelEntry {
    EntryOf(row.1)
  }

  /** The subscribers pipeline: `$match` on the channel, `$lookup` of the subscriber,
      `$unwind`, `$project`. */
  function SubscriberEntries(subs: seq<Subscription>, users: seq<User>, channel: Id): seq<ChannelEntry> {
    Project(Unwind(Filter(subs, ToChannel(channel)), users, SubscriberIs), EntryOfJoined)
  }

  /** The subscribed-channels pipeline: `$match` on the subscriber, `$lookup` of the
      channel, `$unwind`, `$project`. */
  function ChannelEntries(subs: seq<Subscription>, users: seq<User>, subscriber: Id): seq<ChannelEntry> {
    Project(Unwind(Filter(subs, OfSubscriber(subscriber)), users, ChannelIs), EntryOfJoined)
  }

  /** Every entry of the subscriber list is a user who has a subscription to `channel`. */
  lemma SubscriberEntriesSound(subs: seq<Subscription>, users: seq<User>, channel: Id, e: ChannelEntry)
    requires e in SubscriberEntries(subs, users, channel)
    ensures exists i, j :: (0 <= i < |subs| && 0 <= j < |users| && subs[i].channel == channel
        && subs[i].subscriber == users[j].id && e == EntryOf(users[j]))
  {
    var mine := Filter(subs, ToChannel(channel));
    var rows := Unwind(mine, users, SubscriberIs);
    var r := SubscriberEntries(subs, users, channel);
    var k :| 0 <= k < |r| && r[k] == e;
    var a :| 0 <= a < |mine| && mine[a] == rows[k].0;
    assert ToChannel(channel)(mine[a]);
    var i :| 0 <= i < |subs| && subs[i] == rows[k].0;
    var j :| 0 <= j < |users| && users[j] == rows[k].1;
    assert subs[i].channel == channel && subs[i].subscriber == users[j].id && e == EntryOf(users[j]);
  }

  /** Every user with a subscription to `channel` is listed. */
  lemma SubscriberEntriesComplete(subs: seq<Subscription>, users: seq<User>, channel: Id, i: nat, j: nat)
    requires i < |subs| && j < |users|
    requires subs[i].channel == channel && subs[i].subscriber == users[j].id
    ensures EntryOf(users[j]) in SubscriberEntries(subs, users, channel)
  {
    var mine := Filter(subs, ToChannel(channel));
    var rows := Unwind(mine, users, SubscriberIs);
    assert ToChannel(channel)(subs[i]);
    var a :| 0 <= a < |mine| && mine[a] == subs[i];
    UnwindComplete(mine, users, SubscriberIs, a, j);
    var k :| 0 <= k < |rows| && rows[k] == (subs[i], users[j]);
    assert SubscriberEntries(subs, users, channel)[k] == EntryOf(users[j]);
  }


  /** Every entry of the channel list is a user that `subscriber` subscribes to. */
  lemma ChannelEntriesSound(subs: seq<Subscription>, users: seq<User>, subscriber: Id, e: ChannelEntry)
    requires e in ChannelEntries(subs, users, subscriber)
    ensures exists i, j :: (0 <= i < |subs| && 0 <= j < |users| && subs[i].subscriber == subscriber
        && subs[i].channel == users[j].id && e == EntryOf(users[j]))
  {
    var mine := Filter(subs, OfSubscriber(subscriber));
    var rows := Unwind(mine, users, ChannelIs);
    var r := ChannelEntries(subs, users, subscriber);
    var k :| 0 <= k < |r| && r[k] == e;
    var a :| 0 <= a < |mine| && mine[a] == rows[k].0;
    assert OfSubscriber(subscriber)(mine[a]);
    var i :| 0 <= i < |subs| && subs[i] == rows[k].0;
    var j :| 0 <= j < |users| && users[j] == rows[k].1;
    assert subs[i].subscriber == subscriber && subs[i].channel == users[j].id && e == EntryOf(users[j]);
  }

  /** Every user that `subscriber` subscribes to is listed. */
  lemma ChannelEntriesComplete(subs: seq<Subscription>, users: seq<User>, subscriber: Id, i: nat, j: nat)
    requires i < |subs| && j < |users|
    requires subs[i].subscriber == subscriber && subs[i].channel == users[j].id
    ensures EntryOf(users[j]) in ChannelEntries(subs, users, subscriber)
  {
    var mine := Filter(subs, OfSubscriber(subscriber));
    var rows := Unwind(mine, users, ChannelIs);
    assert OfSubscriber(subscriber)(subs[i]);
    var a :| 0 <= a < |mine| && mine[a] == subs[i];
    UnwindComplete(mine, users, ChannelIs, a, j);
    var k :| 0 <= k < |rows| && rows[k] == (subs[i], users[j]);
    assert ChannelEntries(subs, users, subscriber)[k] == EntryOf(users[j]);
  }

  /** With unique user ids and every subscriber of `channel` a stored user, the list has
      exactly one entry per subscription to `channel`. */
  lemma SubscriberEntriesCount(subs: seq<Subscription>, users: seq<User>, channel: Id)
    requires forall i, j :: 0 <= i < j < |users| ==> users[i].id != users[j].id
    requires forall i :: 0 <= i < |subs| && subs[i].channel == channel ==> UserExists(users, subs[i].subscriber)
    ensures |SubscriberEntries(subs, users, channel)| == Count(subs, ToChannel(channel))
  {
    var mine := Filter(subs, ToChannel(channel));
    forall a | 0 <= a < |mine| ensures Count(users, PartnersOf(SubscriberIs, mine[a])) == 1 {
      assert mine[a] in subs && ToChannel(channel)(mine[a]);
      var i :| 0 <= i < |subs| && subs[i] == mine[a];
      var k :| 0 <= k < |users| && users[k].id == mine[a].subscriber;
      var partner := PartnersOf(SubscriberIs, mine[a]);
      assert partner(users[k]) == SubscriberIs(mine[a], users[k]);
      forall j | 0 <= j < |users| && j != k ensures !partner(users[j]) {
        assert partner(users[j]) == SubscriberIs(mine[a], users[j]);
        assert users[j].id != users[k].id;
      }
      CountExactlyOne(users, partner, k);
    }
    UnwindLength(mine, users, SubscriberIs);
  }

  /** With unique user ids and every channel `subscriber` follows a stored user, the list
      has exactly one entry per subscription of `subscriber`. */
  lemma ChannelEntriesCount(subs: seq<Subscription>, users: seq<User>, subscriber: Id)
    requires forall i, j :: 0 <= i < j < |users| ==> users[i].id != users[j].id
    requires forall i :: 0 <= i < |subs| && subs[i].subscriber == subscriber ==> UserExists(users, subs[i].channel)
    ensures |ChannelEntries(subs, users, subscriber)| == Count(subs, OfSubscriber(subscriber))
  {
    var mine := Filter(subs, OfSubscriber(subscriber));
    forall a | 0 <= a < |mine| ensures Count(users, PartnersOf(ChannelIs, mine[a])) == 1 {
      assert mine[a] in subs && OfSubscriber(subscriber)(mine[a]);
      var i :| 0 <= i < |subs| && subs[i] == mine[a];
      var k :| 0 <= k < |users| && users[k].id == mine[a].channel;
      var partner := PartnersOf(ChannelIs, mine[a]);
      assert partner(users[k]) == ChannelIs(mine[a], users[k]);
      forall j | 0 <= j < |users| && j != k ensures !partner(users[j]) {
        assert partner(users[j]) == ChannelIs(mine[a], users[j]);
        assert users[j].id != users[k].id;
      }
      CountExactlyOne(users, partner, k);
    }
    UnwindLength(mine, users, ChannelIs);
  }


  /** With at most one edge per pair, a toggle by an existing user adds them to the
      channel's subscriber list when they were not on it, and removes them when they were. */
  lemma ToggleFlipsSubscriberListing(subs: seq<Subscription>, users: seq<User>, j: nat, channel: Id, newId: Id, now: Instant)
    requires j < |users|
    requires Count(subs, Edge(users[j].id, channel)) <= 1
    ensures var after := ToggledSubscriptions(subs, users[j].id, channel, newId, now);
      EntryOf(users[j]) in SubscriberEntries(after, users, channel) <==> Count(subs, Edge(users[j].id, channel)) == 0
  {
    var u := users[j];
    var after := ToggledSubscriptions(subs, u.id, channel, newId, now);
    SubscriptionToggleCount(subs, u.id, channel, newId, now);
    if EntryOf(u) in SubscriberEntries(after, users, channel) {
      SubscriberEntriesSound(after, users, channel, EntryOf(u));
      var i, j' :| 0 <= i < |after| && 0 <= j' < |users| && after[i].channel == channel
        && after[i].subscriber == users[j'].id && EntryOf(u) == EntryOf(users[j']);
      assert Edge(u.id, channel)(after[i]);
    } else if Count(subs, Edge(u.id, channel)) == 0 {
      var i :| 0 <= i < |after| && Edge(u.id, channel)(after[i]);
      SubscriberEntriesComplete(after, users, channel, i, j);
    }
  }

  /** `getUserChannelSubscribers`: 400 for an invalid channel id, 401 without a user,
      404 when no user has the channel's id; otherwise 200 and the subscriber entries. */
  function GetUserChannelSubscribers(c: Collections, channelId: RawId, viewer: Option<Id>): (r: Reply<seq<ChannelEntry>>)
    ensures channelId.Malformed? <==> r == Fail(400, "Invalid channel id")
    ensures channelId.WellFormed? && viewer.None? <==> r == Fail(401, "Unauthorized request")
    ensures r == Fail(404, "Channel not found") <==>
      channelId.WellFormed? && viewer.Some? && !UserExists(c.users, channelId.id)
    ensures r.Ok? ==> r.status == 200 && r.data == SubscriberEntries(c.subscriptions, c.users, channelId.id)
  {
    if channelId.Malformed? then Fail(400, "Invalid channel id")
    else if viewer.None? then Fail(401, "Unauthorized request")
    else if UserById(c.users, channelId.id).None? then Fail(404, "Channel not found")
    else Ok(200, SubscriberEntries(c.subscriptions, c.users, channelId.id), "Subscriber list retrieved successfully")
  }

  /** `getSubscribedChannels`: 400 for an invalid subscriber id, 401 without a user,
      404 when no user has that id; otherwise 200 and the channel entries. */
  function GetSubscribedChannels(c: Collections, subscriberId: RawId, viewer: Option<Id>): (r: Reply<seq<ChannelEntry>>)
    ensures subscriberId.Malformed? <==> r == Fail(400, "Invalid subscriber id")
    ensures subscriberId.WellFormed? && viewer.None? <==> r == Fail(401, "Unauthorized request")
    ensures r == Fail(404, "Subscriber not found") <==>
      subscriberId.WellFormed? && viewer.Some? && !UserExists(c.users, subscriberId.id)
    ensures r.Ok? ==> r.status == 200 && r.data == ChannelEntries(c.subscriptions, c.users, subscriberId.id)
  {
    if subscriberId.Malformed? then Fail(400, "Invalid subscriber id")
    else if viewer.None? then Fail(401, "Unauthorized request")
    else if UserById(c.users, subscriberId.id).None? then Fail(404, "Subscriber not found")
    else Ok(200, ChannelEntries(c.subscriptions, c.users, subscriberId.id), "Subscribed channels retrieved successfully")
  }
}
