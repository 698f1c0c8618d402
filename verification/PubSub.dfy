/** The subscription registry and the coalescing dispatcher
    (crates/calce-datastructs/src/pubsub.rs:60-177 and 313-397), one call at a time; how the registry's
    calls interleave is `RegistrySteps`, and how everything interleaves is `NoLostSignal`. */
module PubSub {
  import opened Prelude
  import opened Cache
  import opened R = RegistrySteps

  /** A subscriber's bounded channel. */
  datatype Channel = Channel(queue: seq<Signal>, capacity: nat, closed: bool)

  predicate Accepts(c: Channel) { !c.closed && |c.queue| < c.capacity }

  /** `try_send`. */
  function Offered(c: Channel, e: Signal): Channel {
    if Accepts(c) then c.(queue := c.queue + [e]) else c
  }

  function OfferedTo(channels: map<Id, Channel>, ids: set<Id>, e: Signal): map<Id, Channel> {
    map id | id in channels :: if id in ids then Offered(channels[id], e) else channels[id]
  }

  function Accepting(channels: map<Id, Channel>, ids: set<Id>): set<Id> {
    set id | id in ids && id in channels && Accepts(channels[id])
  }

  function Dead(channels: map<Id, Channel>, ids: set<Id>): set<Id> {
    set id | id in ids && id in channels && channels[id].closed
  }

  /** What a channel holds after an event was offered to the subscribers `ids`: one more event exactly if it
      is one of theirs, its receiver is there, and there is room; and who took it, and who is gone. */
  lemma QueuesAfterOffer(channels: map<Id, Channel>, ids: set<Id>, e: Signal)
    ensures OfferedTo(channels, ids, e).Keys == channels.Keys
    ensures forall id :: id in channels ==>
              && OfferedTo(channels, ids, e)[id].queue
                 == channels[id].queue
                    + (if id in ids && !channels[id].closed && |channels[id].queue| < channels[id].capacity
                       then [e] else [])
              && OfferedTo(channels, ids, e)[id].capacity == channels[id].capacity
              && OfferedTo(channels, ids, e)[id].closed == channels[id].closed
    ensures forall id :: id in Accepting(channels, ids) <==>
              id in ids && id in channels && !channels[id].closed && |channels[id].queue| < channels[id].capacity
    ensures forall id :: id in Dead(channels, ids) <==> id in ids && id in channels && channels[id].closed
  {
  }

  function Members(ids: seq<Id>): set<Id> { set id | id in ids }

  function WithoutAll(ids: seq<Id>, dead: set<Id>): (r: seq<Id>)
    ensures forall x :: multiset(r)[x] == if x in dead then 0 else multiset(ids)[x]
  {
    if ids == [] then [] else
    assert ids == ids[..|ids| - 1] + [ids[|ids| - 1]];
    var rest := WithoutAll(ids[..|ids| - 1], dead);
    if ids[|ids| - 1] in dead then rest else rest + [ids[|ids| - 1]]
  }

  lemma WithoutSnoc(ids: seq<Id>, last: Id, id: Id)
    ensures Without(ids + [last], id) == Without(ids, id) + (if last == id then [] else [last])
  {
    assert (ids + [last])[..|ids|] == ids;
  }

  lemma {:induction false} WithoutOneMore(ids: seq<Id>, dead: set<Id>, id: Id)
    ensures Without(WithoutAll(ids, dead), id) == WithoutAll(ids, dead + {id})
  {
    if ids != [] {
      WithoutOneMore(ids[..|ids| - 1], dead, id);
      WithoutSnoc(WithoutAll(ids[..|ids| - 1], dead), ids[|ids| - 1], id);
    }
  }

  lemma {:induction false} WithoutNone(ids: seq<Id>, dead: set<Id>)
    requires forall x :: x in ids ==> x !in dead
    ensures WithoutAll(ids, dead) == ids
  {
    if ids != [] {
      assert ids == ids[..|ids| - 1] + [ids[|ids| - 1]];
      WithoutNone(ids[..|ids| - 1], dead);
    }
  }

  /** Every list is what it was, in the same order, but for the dead. */
  ghost predicate Thinned(lists: map<Key, seq<Id>>, before: map<Key, seq<Id>>, dead: set<Id>) {
    forall k :: IdsIn(lists, k) == WithoutAll(IdsIn(before, k), dead)
  }

  lemma ThinnedByNone(lists: map<Key, seq<Id>>)
    ensures Thinned(lists, lists, {})
  {
    forall k
      ensures IdsIn(lists, k) == WithoutAll(IdsIn(lists, k), {})
    {
      WithoutNone(IdsIn(lists, k), {});
    }
  }

  lemma ThinnedByOneMore(lists: map<Key, seq<Id>>, between: map<Key, seq<Id>>, before: map<Key, seq<Id>>,
                         dead: set<Id>, id: Id)
    requires Thinned(between, before, dead)
    requires forall k :: IdsIn(lists, k) == Without(IdsIn(between, k), id)
    ensures Thinned(lists, before, dead + {id})
  {
    forall k
      ensures IdsIn(lists, k) == WithoutAll(IdsIn(before, k), dead + {id})
    {
      WithoutOneMore(IdsIn(before, k), dead, id);
    }
  }

  lemma {:induction false} WithoutAbsent(ids: seq<Id>, id: Id)
    requires id !in ids
    ensures Without(ids, id) == ids
  {
    if ids != [] {
      assert ids == ids[..|ids| - 1] + [ids[|ids| - 1]];
      WithoutAbsent(ids[..|ids| - 1], id);
    }
  }

  /** The event has been offered to the subscribers `ids` so far. */
  ghost predicate Offering(before: map<Id, Channel>, after: map<Id, Channel>, ids: set<Id>, e: Signal,
                           sent: nat, dropped: nat, dead: seq<Id>) {
    && after == OfferedTo(before, ids, e) && sent == |Accepting(before, ids)| && sent + dropped == |ids|
    && Members(dead) == Dead(before, ids)
  }

  lemma OneMore(before: map<Id, Channel>, after: map<Id, Channel>, ids: set<Id>, e: Signal,
                sent: nat, dropped: nat, dead: seq<Id>, id: Id)
    requires Offering(before, after, ids, e, sent, dropped, dead) && id in before && id !in ids
    ensures after.Keys == before.Keys && after[id] == before[id]
    ensures var taken := Accepts(before[id]);
            Offering(before, OfferedTo(after, {id}, e), ids + {id}, e,
                     sent + (if taken then 1 else 0), dropped + (if taken then 0 else 1),
                     if before[id].closed then dead + [id] else dead)
  {
    assert OfferedTo(after, {id}, e) == OfferedTo(before, ids + {id}, e);
    OneMoreAccepting(before, ids, id);
    if before[id].closed {
      assert Members(dead + [id]) == Members(dead) + {id};
      assert Dead(before, ids + {id}) == Dead(before, ids) + {id};
    } else {
      assert Dead(before, ids + {id}) == Dead(before, ids);
    }
  }

  lemma OneMoreAccepting(channels: map<Id, Channel>, ids: set<Id>, id: Id)
    requires id in channels && id !in ids
    ensures |Accepting(channels, ids + {id})| == |Accepting(channels, ids)| + if Accepts(channels[id]) then 1 else 0
  {
    assert Accepting(channels, ids + {id}) == Accepting(channels, ids) + if Accepts(channels[id]) then {id} else {};
  }

  lemma OfferTwoGroups(before: map<Id, Channel>, first: set<Id>, second: set<Id>, e: Signal)
    requires first !! second
    ensures OfferedTo(OfferedTo(before, first, e), second, e) == OfferedTo(before, first + second, e)
    ensures Dead(OfferedTo(before, first, e), second) == Dead(before, second)
  {
  }

  lemma AcceptTwoGroups(before: map<Id, Channel>, first: set<Id>, second: set<Id>, e: Signal)
    requires first !! second
    ensures |Accepting(OfferedTo(before, first, e), second)| + |Accepting(before, first)|
            == |Accepting(before, first + second)|
    ensures |first| + |second| == |first + second|
  {
    assert Accepting(OfferedTo(before, first, e), second) == Accepting(before, second);
    assert Accepting(before, first + second) == Accepting(before, first) + Accepting(before, second);
    assert Accepting(before, first) !! Accepting(before, second);
  }

  lemma OnceEach(ids: seq<Id>)
    requires forall x :: multiset(ids)[x] <= 1
    ensures Distinct(ids)
  {
    forall i, j | 0 <= i < j < |ids|
      ensures ids[i] != ids[j]
    {
      assert ids == ids[..i] + [ids[i]] + ids[i + 1..];
      assert ids[j] == ids[i + 1..][j - i - 1];
      assert multiset(ids) == multiset(ids[..i]) + multiset([ids[i]]) + multiset(ids[i + 1..]);
      assert multiset(ids)[ids[j]]
          == multiset(ids[..i])[ids[j]] + multiset([ids[i]])[ids[j]] + multiset(ids[i + 1..])[ids[j]];
    }
  }

  /** A set's elements in an order of the implementation's choice. */
  method InSomeOrder(ids: set<Id>) returns (r: seq<Id>)
    ensures Members(r) == ids
    ensures Distinct(r)
  {
    r := [];
    var rest := ids;
    while rest != {}
      invariant Members(r) == ids - rest && rest <= ids
      invariant Distinct(r)
    {
      var id :| id in rest;
      assert Members(r + [id]) == Members(r) + {id};
      assert forall i :: 0 <= i < |r| ==> r[i] in Members(r);
      r, rest := r + [id], rest - {id};
    }
  }

  /** One fan-out: the subscribers present, and those whose queue took the event. */
  datatype FanOutRecord = FanOutRecord(event: Signal, present: set<Id>, accepted: set<Id>)

  predicate KeyedOk(lists: map<Key, seq<Id>>, keyed: map<Id, seq<Key>>, k: Key, id: Id) {
    multiset(IdsIn(lists, k))[id] == if id in keyed && k in keyed[id] then 1 else 0
  }

  /** The two indexes agree exactly, and empty lists are gone. */
  ghost predicate Indexed(lists: map<Key, seq<Id>>, keyed: map<Id, seq<Key>>, broadcast: set<Id>, nextId: Id) {
    && (forall id :: id in keyed || id in broadcast ==> 1 <= id < nextId)
    && keyed.Keys !! broadcast
    && (forall id :: id in keyed ==> Distinct(keyed[id]))
    && (forall k :: k in lists ==> lists[k] != [])
    && (forall k, id :: KeyedOk(lists, keyed, k, id))
  }

  /** Every id given out has a channel, and no queue is over its capacity. */
  ghost predicate Roomy(channels: map<Id, Channel>, nextId: Id) {
    && nextId >= 1
    && (forall id :: id in channels <==> 1 <= id < nextId)
    && (forall id :: id in channels ==> |channels[id].queue| <= channels[id].capacity && channels[id].capacity >= 1)
  }

  lemma StillRoomy(channels: map<Id, Channel>, nextId: Id, ids: set<Id>, e: Signal)
    requires Roomy(channels, nextId)
    ensures Roomy(OfferedTo(channels, ids, e), nextId)
  {
  }

  lemma StillIndexed(lists: map<Key, seq<Id>>, keyed: map<Id, seq<Key>>, broadcast: set<Id>, nextId: Id, dead: set<Id>)
    requires Indexed(lists, keyed, broadcast, nextId)
    ensures Indexed(lists, keyed, broadcast - dead, nextId)
  {
  }

  lemma IndexedWithNew(before: map<Key, seq<Id>>, lists: map<Key, seq<Id>>, keyed: map<Id, seq<Key>>,
                       broadcast: set<Id>, id: Id, keys: seq<Key>)
    requires Indexed(before, keyed, broadcast, id) && id >= 1 && Distinct(keys)
    requires forall k :: k in lists ==> lists[k] != []
    requires forall k :: IdsIn(lists, k) == IdsIn(before, k) + (if k in keys then [id] else [])
    ensures Indexed(lists, keyed[id := keys], broadcast, id + 1)
  {
    var now := keyed[id := keys];
    forall k, x
      ensures KeyedOk(lists, now, k, x)
    {
      assert KeyedOk(before, keyed, k, x);
    }
  }

  /** A key's subscribers are listed once each, and none of them is a broadcast subscriber. */
  lemma KeyedSubscribers(lists: map<Key, seq<Id>>, keyed: map<Id, seq<Key>>, broadcast: set<Id>, nextId: Id, k: Key)
    requires Indexed(lists, keyed, broadcast, nextId)
    ensures Distinct(IdsIn(lists, k))
    ensures Members(IdsIn(lists, k)) <= keyed.Keys
  {
    var ids := IdsIn(lists, k);
    forall x
      ensures multiset(ids)[x] <= 1 && (x in ids ==> x in keyed)
    {
      assert KeyedOk(lists, keyed, k, x);
    }
    OnceEach(ids);
  }

  // ---- What a whole call does ----

  /** Everything in the registry but the channels. */
  datatype Indexes = Indexes(perKey: map<Key, seq<Id>>, perSubscriber: map<Id, seq<Key>>,
                             broadcast: set<Id>, nextId: Id)

  ghost predicate NoEmptyLists(lists: map<Key, seq<Id>>) { forall k :: k in lists ==> lists[k] != [] }

  /** A fresh id, recorded with its distinct keys, at the end of the list of each of them and of no other. */
  ghost predicate Subscribed(before: Indexes, after: Indexes, keys: seq<Key>) {
    && after.nextId == before.nextId + 1 && after.broadcast == before.broadcast
    && after.perSubscriber == before.perSubscriber[before.nextId := Deduped(keys)]
    && (forall k :: IdsIn(after.perKey, k) == IdsIn(before.perKey, k) + (if k in keys then [before.nextId] else []))
    && (NoEmptyLists(before.perKey) ==> NoEmptyLists(after.perKey))
  }

  /** A fresh id in the broadcast set. */
  predicate SubscribedToAll(before: Indexes, after: Indexes) {
    after == before.(nextId := before.nextId + 1, broadcast := before.broadcast + {before.nextId})
  }

  /** The id out of the broadcast set and of every list, whose other entries stay in order. */
  ghost predicate Unsubscribed(before: Indexes, after: Indexes, id: Id) {
    && after.nextId == before.nextId && after.broadcast == before.broadcast - {id}
    && after.perSubscriber == before.perSubscriber - {id}
    && (forall k :: IdsIn(after.perKey, k) == Without(IdsIn(before.perKey, k), id))
    && (NoEmptyLists(before.perKey) ==> NoEmptyLists(after.perKey))
  }

  class SubscriptionRegistry {
    var perKey: map<Key, seq<Id>>
    var perSubscriber: map<Id, seq<Key>>
    var broadcast: set<Id>
    var nextId: Id
    var channels: map<Id, Channel>
    /** Every fan-out so far. */
    ghost var log: seq<FanOutRecord>

    ghost predicate Valid()
      reads this
    {
      Indexed(perKey, perSubscriber, broadcast, nextId) && Roomy(channels, nextId)
    }

    ghost function State(): Indexes
      reads this
    {
      Indexes(perKey, perSubscriber, broadcast, nextId)
    }

    ghost function Present(k: Key): set<Id>
      reads this
    {
      Members(IdsIn(perKey, k)) + broadcast
    }

    constructor ()
      ensures Valid() && channels == map[] && log == []
    {
      perKey, perSubscriber, broadcast, nextId, channels := map[], map[], {}, 1, map[];
      log := [];
    }

    method Subscribe(keys: seq<Key>, bufferSize: nat) returns (id: Id)
      requires Valid()
      modifies this
      ensures Valid() && log == old(log) && id == old(nextId)
      ensures channels == old(channels)[id := Channel([], Max(bufferSize, 1), false)]
      ensures Subscribed(old(State()), State(), keys)
    {
      id := nextId;
      nextId := nextId + 1;
      channels := channels[id := Channel([], Max(bufferSize, 1), false)];
      var deduped := Deduped(keys);
      perSubscriber := perSubscriber[id := deduped];
      EnterAll(deduped, id);
      IndexedWithNew(old(perKey), perKey, old(perSubscriber), broadcast, id, deduped);
    }

    /** Enters the id at the end of the list of each of the distinct keys. */
    method EnterAll(keys: seq<Key>, id: Id)
      requires Distinct(keys) && forall k :: k in perKey ==> perKey[k] != []
      modifies `perKey
      ensures forall k :: k in perKey ==> perKey[k] != []
      ensures forall k :: IdsIn(perKey, k) == old(IdsIn(perKey, k)) + (if k in keys then [id] else [])
    {
      for i := 0 to |keys|
        invariant forall k :: IdsIn(perKey, k) == old(IdsIn(perKey, k)) + (if k in keys[..i] then [id] else [])
        invariant forall k :: k in perKey ==> perKey[k] != []
      {
        assert keys[..i + 1] == keys[..i] + [keys[i]];
        PrefixKeys(keys, i, keys[i]);
        Enter(keys[i], id);
      }
      assert keys[..|keys|] == keys;
    }

    method SubscribeAll(bufferSize: nat) returns (id: Id)
      requires Valid()
      modifies this
      ensures Valid() && log == old(log) && id == old(nextId)
      ensures channels == old(channels)[id := Channel([], Max(bufferSize, 1), false)]
      ensures SubscribedToAll(old(State()), State())
    {
      id := nextId;
      nextId := nextId + 1;
      channels := channels[id := Channel([], Max(bufferSize, 1), false)];
      broadcast := broadcast + {id};
    }

    /** Takes the id out of the broadcast set and out of the list of every key. */
    method Unsubscribe(id: Id)
      requires Valid()
      modifies `perKey, `perSubscriber, `broadcast
      ensures Valid() && Unsubscribed(old(State()), State(), id)
    {
      broadcast := broadcast - {id};
      var keys := if id in perSubscriber then perSubscriber[id] else [];
      perSubscriber := perSubscriber - {id};
      for i := 0 to |keys|
        modifies `perKey
        invariant forall k :: IdsIn(perKey, k) == if k in keys[..i] then Without(old(IdsIn(perKey, k)), id)
                                                  else old(IdsIn(perKey, k))
        invariant forall k :: k in perKey ==> perKey[k] != []
      {
        PrefixKeys(keys, i, keys[i]);
        assert keys[..i + 1] == keys[..i] + [keys[i]];
        RemoveFrom(keys[i], id);
      }
      assert keys[..|keys|] == keys;
      forall k
        ensures IdsIn(perKey, k) == Without(old(IdsIn(perKey, k)), id)
      {
        assert old(KeyedOk(perKey, perSubscriber, k, id));
        if k !in keys {
          WithoutAbsent(old(IdsIn(perKey, k)), id);
        }
      }
      forall k, x
        ensures KeyedOk(perKey, perSubscriber, k, x)
      {
        assert old(KeyedOk(perKey, perSubscriber, k, x));
      }
    }

    method Enter(k: Key, id: Id)
      requires forall x :: x in perKey ==> perKey[x] != []
      modifies `perKey
      ensures forall x :: x in perKey ==> perKey[x] != []
      ensures forall x :: IdsIn(perKey, x) == old(IdsIn(perKey, x)) + (if x == k then [id] else [])
    {
      perKey := perKey[k := IdsIn(perKey, k) + [id]];
    }

    /** The receiver's `recv`, when its queue is not empty. */
    method Take(id: Id) returns (e: Option<Signal>)
      requires Valid()
      modifies `channels
      ensures Valid()
      ensures if id in channels && old(channels[id].queue) != []
              then e == Some(old(channels[id].queue[0]))
                   && channels == old(channels)[id := old(channels)[id].(queue := old(channels[id].queue[1..]))]
              else e == None && channels == old(channels)
    {
      if id !in channels || channels[id].queue == [] {
        return None;
      }
      e := Some(channels[id].queue[0]);
      channels := channels[id := channels[id].(queue := channels[id].queue[1..])];
    }

    /** The receiver is dropped. */
    method Drop(id: Id)
      requires Valid()
      modifies `channels
      ensures Valid()
      ensures channels == if id in old(channels) then old(channels)[id := old(channels)[id].(closed := true)]
                          else old(channels)
    {
      if id in channels {
        channels := channels[id := channels[id].(closed := true)];
      }
    }

    /** `try_send` on one subscriber's channel. */
    method Offer(id: Id, e: Signal) returns (taken: bool, dead: bool)
      requires id in channels
      modifies `channels
      ensures channels == OfferedTo(old(channels), {id}, e)
      ensures taken <==> !old(channels)[id].closed && |old(channels)[id].queue| < old(channels)[id].capacity
      ensures channels[id].queue == old(channels)[id].queue + (if taken then [e] else [])
      ensures dead <==> old(channels)[id].closed
    {
      var c := channels[id];
      taken, dead := Accepts(c), c.closed;
      channels := channels[id := Offered(c, e)];
    }

    /** Offers the event to each of the distinct ids: the outcome does not depend on their order. */
    method OfferEach(ids: seq<Id>, e: Signal) returns (sent: nat, dropped: nat, dead: seq<Id>)
      requires Members(ids) <= channels.Keys
      requires Distinct(ids)
      modifies `channels
      ensures channels == OfferedTo(old(channels), Members(ids), e)
      ensures sent == |Accepting(old(channels), Members(ids))| && sent + dropped == |ids| == |Members(ids)|
      ensures Members(dead) == Dead(old(channels), Members(ids))
    {
      sent, dropped, dead := 0, 0, [];
      for i := 0 to |ids|
        invariant Offering(old(channels), channels, Members(ids[..i]), e, sent, dropped, dead)
        invariant |Members(ids[..i])| == i
      {
        assert ids[..i + 1] == ids[..i] + [ids[i]];
        assert Members(ids[..i + 1]) == Members(ids[..i]) + {ids[i]};
        OneMore(old(channels), channels, Members(ids[..i]), e, sent, dropped, dead, ids[i]);
        var taken, closed := Offer(ids[i], e);
        if taken {
          sent := sent + 1;
        } else {
          dropped := dropped + 1;
        }
        if closed {
          dead := dead + [ids[i]];
        }
      }
      assert ids[..|ids|] == ids;
    }

    method UnsubscribeAll(dead: seq<Id>)
      requires Valid()
      modifies `perKey, `perSubscriber, `broadcast
      ensures Valid()
      ensures broadcast == old(broadcast) - Members(dead) && perSubscriber == old(perSubscriber) - Members(dead)
      ensures Thinned(perKey, old(perKey), Members(dead))
    {
      ThinnedByNone(perKey);
      assert Members(dead[..0]) == {};
      for i := 0 to |dead|
        invariant Valid()
        invariant broadcast == old(broadcast) - Members(dead[..i])
        invariant perSubscriber == old(perSubscriber) - Members(dead[..i])
        invariant Thinned(perKey, old(perKey), Members(dead[..i]))
      {
        assert dead[..i + 1] == dead[..i] + [dead[i]];
        assert Members(dead[..i + 1]) == Members(dead[..i]) + {dead[i]};
        ghost var before := perKey;
        Unsubscribe(dead[i]);
        ThinnedByOneMore(perKey, before, old(perKey), Members(dead[..i]), dead[i]);
      }
      assert dead[..|dead|] == dead;
    }

    /** Offers the event to every subscriber of its key and to every broadcast subscriber, once each,
        and then forgets the ones among them whose receiver is gone. */
    method FanOut(event: Signal) returns (sent: nat, dropped: nat)
      requires Valid()
      modifies this
      ensures Valid() && nextId == old(nextId)
      ensures sent == |Accepting(old(channels), old(Present(event.key)))| && sent + dropped == |old(Present(event.key))|
      ensures channels == OfferedTo(old(channels), old(Present(event.key)), event)
      ensures log == old(log) + [FanOutRecord(event, old(Present(event.key)),
                                              Accepting(old(channels), old(Present(event.key))))]
      ensures broadcast == old(broadcast - Dead(channels, broadcast))
      ensures perSubscriber == old(perSubscriber - Dead(channels, Members(IdsIn(perKey, event.key))))
      ensures Thinned(perKey, old(perKey), old(Dead(channels, Members(IdsIn(perKey, event.key)))))
    {
      log := log + [FanOutRecord(event, Present(event.key), Accepting(channels, Present(event.key)))];
      var dead, deadBroadcast;
      sent, dropped, dead, deadBroadcast := OfferToAll(event);
      UnsubscribeAll(dead);
      KeyedSubscribers(old(perKey), old(perSubscriber), old(broadcast), nextId, event.key);
      assert broadcast == old(broadcast);
      StillIndexed(perKey, perSubscriber, broadcast, nextId, Members(deadBroadcast));
      broadcast := broadcast - Members(deadBroadcast);
    }

    method OfferToAll(event: Signal)
      returns (sent: nat, dropped: nat, dead: seq<Id>, deadBroadcast: seq<Id>)
      requires Valid()
      modifies `channels
      ensures Valid()
      ensures sent == |Accepting(old(channels), Present(event.key))| && sent + dropped == |Present(event.key)|
      ensures channels == OfferedTo(old(channels), Present(event.key), event)
      ensures Members(dead) == Dead(old(channels), Members(IdsIn(perKey, event.key)))
      ensures Members(deadBroadcast) == Dead(old(channels), broadcast)
    {
      var listed := IdsIn(perKey, event.key);
      KeyedSubscribers(perKey, perSubscriber, broadcast, nextId, event.key);
      OfferTwoGroups(channels, Members(listed), broadcast, event);
      AcceptTwoGroups(channels, Members(listed), broadcast, event);
      StillRoomy(channels, nextId, Present(event.key), event);
      sent, dropped, dead := OfferEach(listed, event);
      var all := InSomeOrder(broadcast);
      var more, lost;
      more, lost, deadBroadcast := OfferEach(all, event);
      sent, dropped := sent + more, dropped + lost;
    }

    /** `retain` and `remove_if` on the entry of one key. */
    method RemoveFrom(k: Key, id: Id)
      requires forall x :: x in perKey ==> perKey[x] != []
      modifies `perKey
      ensures forall x :: x in perKey ==> perKey[x] != []
      ensures forall x :: IdsIn(perKey, x) == if x == k then Without(old(IdsIn(perKey, k)), id)
                                              else old(IdsIn(perKey, x))
    {
      if k in perKey {
        perKey := perKey[k := Without(perKey[k], id)];
      }
      if k in perKey && perKey[k] == [] {
        perKey := perKey - {k};
      }
    }
  }
}
