/** Each call of the subscription registry (crates/calce-datastructs/src/pubsub.rs:79-119) is a run of the
    single-entry steps of `RegistrySteps`: run alone, they have exactly the effect that the methods of
    `PubSub.SubscriptionRegistry` have. */
module RegistryCalls {
  import opened Prelude
  import opened Cache
  import opened RegistrySteps
  import opened PubSub
  import N = NoLostSignal

  function IndexesOf(r: Registry): Indexes { Indexes(r.perKey, r.perSubscriber, r.broadcast, r.nextId) }

  // ---- Steps in a row ----

  /** The steps, each enabled when it comes, lead from the one registry to the other. */
  ghost predicate Leads(r: Registry, steps: seq<Action>, r': Registry) {
    exists states :: IsPath(states, steps) && states[0] == r && states[|steps|] == r'
  }

  lemma LeadsNowhere(r: Registry)
    ensures Leads(r, [], r)
  {
    assert IsPath([r], []);
  }

  lemma LeadsSnoc(r: Registry, steps: seq<Action>, s: Registry, a: Action)
    requires Leads(r, steps, s) && Enabled(s, a)
    ensures Leads(r, steps + [a], Step(s, a))
  {
    var states :| IsPath(states, steps) && states[0] == r && states[|steps|] == s;
    var longer, more := states + [Step(s, a)], steps + [a];
    forall i | 0 <= i < |more|
      ensures IsStepAt(longer, more, i)
    {
      assert i < |steps| ==> IsStepAt(states, steps, i);
    }
    assert IsPath(longer, more);
  }

  lemma LeadsConcat(r: Registry, steps: seq<Action>, s: Registry, more: seq<Action>, r': Registry)
    requires Leads(r, steps, s) && Leads(s, more, r')
    ensures Leads(r, steps + more, r')
  {
    var first :| IsPath(first, steps) && first[0] == r && first[|steps|] == s;
    var second :| IsPath(second, more) && second[0] == s && second[|more|] == r';
    var states, all := first + second[1..], steps + more;
    forall i | 0 <= i < |all|
      ensures IsStepAt(states, all, i)
    {
      if i < |steps| {
        assert IsStepAt(first, steps, i);
      } else {
        assert IsStepAt(second, more, i - |steps|);
      }
    }
    assert IsPath(states, all);
  }

  lemma LeadsTwo(r: Registry, a: Action, s: Registry, b: Action)
    requires Enabled(r, a) && s == Step(r, a) && Enabled(s, b)
    ensures Leads(r, [a, b], Step(s, b))
  {
    LeadsNowhere(r);
    LeadsSnoc(r, [], r, a);
    assert [] + [a] == [a] && [a] + [b] == [a, b];
    LeadsSnoc(r, [a], s, b);
  }

  // ---- subscribe ----

  function Pushes(id: Id, n: nat): seq<Action> { if n == 0 then [] else Pushes(id, n - 1) + [Push(id)] }

  function SubscribeSteps(keys: seq<Key>, id: Id): seq<Action> {
    [Allocate(keys, false), Register(id)] + (Pushes(id, |Deduped(keys)|) + [Return(id)])
  }

  /** The id stands at the end of the list of each of the keys, and nothing else has changed. */
  ghost predicate EnteredIn(before: map<Key, seq<Id>>, after: map<Key, seq<Id>>, keys: seq<Key>, id: Id) {
    && (forall k :: IdsIn(after, k) == IdsIn(before, k) + (if k in keys then [id] else []))
    && (NoEmptyLists(before) ==> NoEmptyLists(after))
  }

  lemma EnterOneMore(before: map<Key, seq<Id>>, after: map<Key, seq<Id>>, keys: seq<Key>, n: nat, id: Id)
    requires n < |keys| && Distinct(keys) && EnteredIn(before, after, keys[..n], id)
    ensures EnteredIn(before, after[keys[n] := IdsIn(after, keys[n]) + [id]], keys[..n + 1], id)
  {
    var next := after[keys[n] := IdsIn(after, keys[n]) + [id]];
    forall k
      ensures IdsIn(next, k) == IdsIn(before, k) + (if k in keys[..n + 1] then [id] else [])
    {
      PrefixKeys(keys, n, k);
      assert IdsIn(next, k) == if k == keys[n] then IdsIn(after, k) + [id] else IdsIn(after, k);
    }
  }

  /** The registry after entering the first `n` keys of the call. */
  function Entering(r: Registry, id: Id, keys: seq<Key>, n: nat, lists: map<Key, seq<Id>>): Registry {
    r.(calls := r.calls[id := Call(keys, false, Pushing(n))], perKey := lists)
  }

  lemma PushIs(r: Registry, id: Id, keys: seq<Key>, n: nat, lists: map<Key, seq<Id>>)
    requires n < |keys|
    ensures var r' := Entering(r, id, keys, n, lists);
            && Enabled(r', Push(id))
            && Step(r', Push(id)) == Entering(r, id, keys, n + 1, lists[keys[n] := IdsIn(lists, keys[n]) + [id]])
  {
    var r' := Entering(r, id, keys, n, lists);
    assert r'.calls[id := Call(keys, false, Pushing(n + 1))] == r.calls[id := Call(keys, false, Pushing(n + 1))];
  }

  lemma {:induction false} PushesEnter(r: Registry, id: Id, keys: seq<Key>, n: nat) returns (lists: map<Key, seq<Id>>)
    requires n <= |keys| && Distinct(keys) && id in r.calls && r.calls[id] == Call(keys, false, Pushing(0))
    ensures Leads(r, Pushes(id, n), Entering(r, id, keys, n, lists))
    ensures EnteredIn(r.perKey, lists, keys[..n], id)
  {
    if n == 0 {
      lists := r.perKey;
      LeadsNowhere(r);
      assert r.calls[id := Call(keys, false, Pushing(0))] == r.calls;
    } else {
      var m := n - 1;
      var before := PushesEnter(r, id, keys, m);
      lists := PushOnce(r, Pushes(id, m), id, keys, m, before);
    }
  }

  lemma PushOnce(r: Registry, steps: seq<Action>, id: Id, keys: seq<Key>, n: nat, lists: map<Key, seq<Id>>)
    returns (next: map<Key, seq<Id>>)
    requires n < |keys| && Distinct(keys) && Leads(r, steps, Entering(r, id, keys, n, lists))
    requires EnteredIn(r.perKey, lists, keys[..n], id)
    ensures Leads(r, steps + [Push(id)], Entering(r, id, keys, n + 1, next))
    ensures EnteredIn(r.perKey, next, keys[..n + 1], id)
  {
    next := lists[keys[n] := IdsIn(lists, keys[n]) + [id]];
    PushIs(r, id, keys, n, lists);
    EnterOneMore(r.perKey, lists, keys, n, id);
    LeadsSnoc(r, steps, Entering(r, id, keys, n, lists), Push(id));
  }

  /** The registry when `subscribe` has drawn an id, and when it has stored its key list. */
  function Drawn(r: Registry, id: Id, deduped: seq<Key>): Registry {
    r.(nextId := id + 1, calls := r.calls[id := Call(deduped, false, Allocated)])
  }

  function Registered(r: Registry, id: Id, deduped: seq<Key>): Registry {
    r.(nextId := id + 1, perSubscriber := r.perSubscriber[id := deduped],
       calls := r.calls[id := Call(deduped, false, Pushing(0))])
  }

  lemma RegisteredIs(r: Registry, id: Id, keys: seq<Key>)
    requires id == r.nextId
    ensures Leads(r, [Allocate(keys, false), Register(id)], Registered(r, id, Deduped(keys)))
  {
    var drawn := Drawn(r, id, Deduped(keys));
    assert Step(r, Allocate(keys, false)) == drawn;
    RegisterIs(r, id, Deduped(keys));
    LeadsTwo(r, Allocate(keys, false), drawn, Register(id));
  }

  lemma RegisterIs(r: Registry, id: Id, deduped: seq<Key>)
    ensures var drawn := Drawn(r, id, deduped);
            Enabled(drawn, Register(id)) && Step(drawn, Register(id)) == Registered(r, id, deduped)
  {
    assert r.calls[id := Call(deduped, false, Allocated)][id := Call(deduped, false, Pushing(0))]
        == r.calls[id := Call(deduped, false, Pushing(0))];
  }

  /** The steps after that, up to the return. */
  lemma EnteredAndReturned(r: Registry, id: Id, keys: seq<Key>) returns (lists: map<Key, seq<Id>>)
    requires Distinct(keys) && id in r.calls && r.calls[id] == Call(keys, false, Pushing(0))
    ensures Leads(r, Pushes(id, |keys|) + [Return(id)],
                  r.(calls := r.calls[id := Call(keys, false, Returned)], perKey := lists))
    ensures EnteredIn(r.perKey, lists, keys, id)
  {
    lists := PushesEnter(r, id, keys, |keys|);
    assert keys[..|keys|] == keys;
    ReturnIs(r, id, keys, lists);
    LeadsSnoc(r, Pushes(id, |keys|), Entering(r, id, keys, |keys|, lists), Return(id));
  }

  lemma ReturnIs(r: Registry, id: Id, keys: seq<Key>, lists: map<Key, seq<Id>>)
    ensures var entered := Entering(r, id, keys, |keys|, lists);
            && Enabled(entered, Return(id))
            && Step(entered, Return(id)) == r.(calls := r.calls[id := Call(keys, false, Returned)], perKey := lists)
  {
    assert r.calls[id := Call(keys, false, Pushing(|keys|))][id := Call(keys, false, Returned)]
        == r.calls[id := Call(keys, false, Returned)];
  }

  function SubscribedWith(r: Registry, id: Id, deduped: seq<Key>, lists: map<Key, seq<Id>>): Registry {
    r.(nextId := id + 1, perSubscriber := r.perSubscriber[id := deduped],
       calls := r.calls[id := Call(deduped, false, Returned)], perKey := lists)
  }

  lemma WholeSubscribe(r: Registry, id: Id, keys: seq<Key>, deduped: seq<Key>) returns (lists: map<Key, seq<Id>>)
    requires id == r.nextId && deduped == Deduped(keys)
    ensures Leads(r, [Allocate(keys, false), Register(id)] + (Pushes(id, |deduped|) + [Return(id)]),
                  SubscribedWith(r, id, deduped, lists))
    ensures EnteredIn(r.perKey, lists, deduped, id)
  {
    var registered := Registered(r, id, deduped);
    RegisteredIs(r, id, keys);
    lists := EnteredAndReturned(registered, id, deduped);
    assert registered.calls[id := Call(deduped, false, Returned)] == r.calls[id := Call(deduped, false, Returned)];
    LeadsConcat(r, [Allocate(keys, false), Register(id)], registered,
                Pushes(id, |deduped|) + [Return(id)], SubscribedWith(r, id, deduped, lists));
  }

  lemma SubscribedEffect(r: Registry, id: Id, keys: seq<Key>, deduped: seq<Key>, lists: map<Key, seq<Id>>)
    requires id == r.nextId && deduped == Deduped(keys) && EnteredIn(r.perKey, lists, deduped, id)
    ensures Subscribed(IndexesOf(r), IndexesOf(SubscribedWith(r, id, deduped, lists)), keys)
  {
  }

  /** `subscribe`, step by step: the steps are enabled one after the other, they have the effect of the
      method, and at the end the call has returned. */
  lemma SubscribeIsARun(r: Registry, keys: seq<Key>) returns (r': Registry)
    ensures Leads(r, SubscribeSteps(keys, r.nextId), r')
    ensures Subscribed(IndexesOf(r), IndexesOf(r'), keys)
    ensures r'.calls == r.calls[r.nextId := Call(Deduped(keys), false, Returned)]
  {
    var lists := WholeSubscribe(r, r.nextId, keys, Deduped(keys));
    SubscribedEffect(r, r.nextId, keys, Deduped(keys), lists);
    r' := SubscribedWith(r, r.nextId, Deduped(keys), lists);
  }

  // ---- subscribe_all ----

  lemma SubscribeAllIsARun(r: Registry) returns (r': Registry)
    ensures Leads(r, [Allocate([], true), Register(r.nextId)], r')
    ensures SubscribedToAll(IndexesOf(r), IndexesOf(r'))
    ensures r'.calls == r.calls[r.nextId := Call([], true, Returned)]
  {
    var drawn := Step(r, Allocate([], true));
    LeadsTwo(r, Allocate([], true), drawn, Register(r.nextId));
    r' := Step(drawn, Register(r.nextId));
  }

  // ---- unsubscribe ----

  function Filters(id: Id, n: nat): seq<Action> {
    if n == 0 then [] else Filters(id, n - 1) + [Filter(id), RemoveIfEmpty(id)]
  }

  /** The keys of the id's list, if it has one, are filtered one after the other. */
  function UnsubscribeSteps(r: Registry, id: Id): seq<Action> {
    [BeginRemoval(id), TakeKeys(id)]
    + (if id in r.perSubscriber then Filters(id, |r.perSubscriber[id]|) + [FinishRemoval(id)] else [])
  }

  /** The id is out of the lists of the keys, whose other entries stay in order; nothing else has changed. */
  ghost predicate ThinnedIn(before: map<Key, seq<Id>>, after: map<Key, seq<Id>>, keys: seq<Key>, id: Id) {
    && (forall k :: IdsIn(after, k) == if k in keys then Without(IdsIn(before, k), id) else IdsIn(before, k))
    && (NoEmptyLists(before) ==> NoEmptyLists(after))
  }

  /** The list of one key filtered, and its entry removed if that emptied it. */
  function WithoutIn(lists: map<Key, seq<Id>>, k: Key, id: Id): map<Key, seq<Id>> {
    if k !in lists then lists
    else if Without(lists[k], id) == [] then lists[k := []] - {k}
    else lists[k := Without(lists[k], id)]
  }

  lemma WithoutInIs(lists: map<Key, seq<Id>>, k: Key, id: Id, x: Key)
    ensures IdsIn(WithoutIn(lists, k, id), x) == if x == k then Without(IdsIn(lists, k), id) else IdsIn(lists, x)
    ensures NoEmptyLists(lists) ==> NoEmptyLists(WithoutIn(lists, k, id))
  {
  }

  lemma ThinOneMore(before: map<Key, seq<Id>>, after: map<Key, seq<Id>>, keys: seq<Key>, n: nat, id: Id)
    requires n < |keys| && Distinct(keys) && ThinnedIn(before, after, keys[..n], id)
    ensures ThinnedIn(before, WithoutIn(after, keys[n], id), keys[..n + 1], id)
  {
    var next := WithoutIn(after, keys[n], id);
    forall k
      ensures IdsIn(next, k) == if k in keys[..n + 1] then Without(IdsIn(before, k), id) else IdsIn(before, k)
    {
      PrefixKeys(keys, n, k);
      WithoutInIs(after, keys[n], id, k);
    }
    WithoutInIs(after, keys[n], id, keys[n]);
  }

  /** The registry with these keys still to be filtered. */
  function Filtering(r: Registry, id: Id, keys: seq<Key>, lists: map<Key, seq<Id>>): Registry {
    r.(removing := r.removing[id := Removal(keys, false)], perKey := lists)
  }

  lemma FilterOneKey(r: Registry, id: Id, keys: seq<Key>, lists: map<Key, seq<Id>>)
    requires keys != []
    ensures Leads(Filtering(r, id, keys, lists), [Filter(id), RemoveIfEmpty(id)],
                  Filtering(r, id, keys[1..], WithoutIn(lists, keys[0], id)))
  {
    var start := Filtering(r, id, keys, lists);
    var filtered := Step(start, Filter(id));
    FilteredIs(r, id, keys, lists);
    RemovedIs(r, id, keys, filtered.perKey, lists);
    LeadsTwo(start, Filter(id), filtered, RemoveIfEmpty(id));
  }

  lemma FilteredIs(r: Registry, id: Id, keys: seq<Key>, lists: map<Key, seq<Id>>)
    requires keys != []
    ensures var start := Filtering(r, id, keys, lists);
            && Enabled(start, Filter(id))
            && Step(start, Filter(id))
            == r.(removing := r.removing[id := Removal(keys, true)],
                  perKey := if keys[0] in lists then lists[keys[0] := Without(lists[keys[0]], id)] else lists)
  {
    assert r.removing[id := Removal(keys, false)][id := Removal(keys, true)] == r.removing[id := Removal(keys, true)];
  }

  lemma RemovedIs(r: Registry, id: Id, keys: seq<Key>, thinned: map<Key, seq<Id>>, lists: map<Key, seq<Id>>)
    requires keys != []
    requires thinned == if keys[0] in lists then lists[keys[0] := Without(lists[keys[0]], id)] else lists
    ensures var filtered := r.(removing := r.removing[id := Removal(keys, true)], perKey := thinned);
            && Enabled(filtered, RemoveIfEmpty(id))
            && Step(filtered, RemoveIfEmpty(id)) == Filtering(r, id, keys[1..], WithoutIn(lists, keys[0], id))
  {
    assert r.removing[id := Removal(keys, true)][id := Removal(keys[1..], false)]
        == r.removing[id := Removal(keys[1..], false)];
  }

  lemma {:induction false} FiltersThin(r: Registry, id: Id, keys: seq<Key>, n: nat) returns (lists: map<Key, seq<Id>>)
    requires n <= |keys| && Distinct(keys) && id in r.removing && r.removing[id] == Removal(keys, false)
    ensures Leads(r, Filters(id, n), Filtering(r, id, keys[n..], lists))
    ensures ThinnedIn(r.perKey, lists, keys[..n], id)
  {
    if n == 0 {
      lists := r.perKey;
      LeadsNowhere(r);
      assert keys[0..] == keys && r.removing[id := Removal(keys, false)] == r.removing;
    } else {
      lists := FiltersThin(r, id, keys, n - 1);
      FilterOneKey(r, id, keys[n - 1..], lists);
      assert keys[n - 1..][1..] == keys[n..];
      LeadsConcat(r, Filters(id, n - 1), Filtering(r, id, keys[n - 1..], lists), [Filter(id), RemoveIfEmpty(id)],
                  Filtering(r, id, keys[n..], WithoutIn(lists, keys[n - 1], id)));
      ThinOneMore(r.perKey, lists, keys, n - 1, id);
      lists := WithoutIn(lists, keys[n - 1], id);
    }
  }

  /** The lists of keys that an id did not ask for never held it. */
  lemma OtherListsWithout(r: Registry, id: Id, k: Key)
    requires Inv(r) && id !in r.removing && (id in r.perSubscriber ==> k !in r.perSubscriber[id]) && id in r.calls
    requires r.calls[id].progress.Returned?
    ensures Without(Listed(r, k), id) == Listed(r, k)
  {
    assert CountOk(r, k, id) && CallOk(r, id);
    WithoutAbsent(Listed(r, k), id);
  }

  /** The registry when `unsubscribe` has taken the key list. */
  function Taken(r: Registry, id: Id): Registry {
    var begun := r.(broadcast := r.broadcast - {id}, begun := r.begun + {id});
    if id !in r.perSubscriber then begun
    else begun.(perSubscriber := r.perSubscriber - {id},
                removing := r.removing[id := Removal(r.perSubscriber[id], false)])
  }

  lemma TakenIs(r: Registry, id: Id)
    requires Enabled(r, BeginRemoval(id))
    ensures Leads(r, [BeginRemoval(id), TakeKeys(id)], Taken(r, id))
  {
    LeadsTwo(r, BeginRemoval(id), Step(r, BeginRemoval(id)), TakeKeys(id));
  }

  /** The steps after that, to the end. */
  lemma FilteredAndFinished(r: Registry, id: Id, keys: seq<Key>) returns (lists: map<Key, seq<Id>>)
    requires Distinct(keys) && id in r.removing && r.removing[id] == Removal(keys, false)
    ensures Leads(r, Filters(id, |keys|) + [FinishRemoval(id)],
                  r.(removing := r.removing - {id}, perKey := lists, finished := r.finished + {id}))
    ensures ThinnedIn(r.perKey, lists, keys, id)
  {
    lists := FiltersThin(r, id, keys, |keys|);
    assert keys[..|keys|] == keys && keys[|keys|..] == [];
    assert r.removing[id := Removal([], false)] - {id} == r.removing - {id};
    LeadsSnoc(r, Filters(id, |keys|), Filtering(r, id, [], lists), FinishRemoval(id));
  }

  /** `unsubscribe` of an id that its `subscribe` returned and that no other `unsubscribe` is removing, step
      by step: the steps are enabled one after the other and have the effect of the method. */
  lemma UnsubscribeIsARun(r: Registry, id: Id) returns (r': Registry)
    requires Inv(r) && Enabled(r, BeginRemoval(id)) && id !in r.removing
    ensures Leads(r, UnsubscribeSteps(r, id), r')
    ensures Unsubscribed(IndexesOf(r), IndexesOf(r'), id)
    ensures r'.calls == r.calls && id in r'.begun && id !in r'.removing
  {
    var taken := Taken(r, id);
    var lists, keys := r.perKey, if id in r.perSubscriber then r.perSubscriber[id] else [];
    TakenIs(r, id);
    r' := taken;
    if id in r.perSubscriber {
      assert CallOk(r, id);
      lists := FilteredAndFinished(taken, id, keys);
      r' := taken.(removing := taken.removing - {id}, perKey := lists, finished := taken.finished + {id});
      LeadsConcat(r, [BeginRemoval(id), TakeKeys(id)], taken, Filters(id, |keys|) + [FinishRemoval(id)], r');
    } else {
      assert UnsubscribeSteps(r, id) == [BeginRemoval(id), TakeKeys(id)];
    }
    ThinnedEverywhere(r, lists, id, keys);
  }

  lemma ThinnedEverywhere(r: Registry, lists: map<Key, seq<Id>>, id: Id, keys: seq<Key>)
    requires Inv(r) && Enabled(r, BeginRemoval(id)) && id !in r.removing
    requires keys == if id in r.perSubscriber then r.perSubscriber[id] else []
    requires ThinnedIn(r.perKey, lists, keys, id)
    ensures forall k :: IdsIn(lists, k) == Without(IdsIn(r.perKey, k), id)
  {
    forall k
      ensures IdsIn(lists, k) == Without(IdsIn(r.perKey, k), id)
    {
      if k !in keys {
        OtherListsWithout(r, id, k);
      }
    }
  }

  // ---- try_send ----

  /** A receiver of `NoLostSignal` as a channel of the registry. */
  function ChannelOf(rx: N.Receiver): Channel { Channel(rx.queue, rx.capacity, rx.closed) }

  /** One delivery among interleaved steps puts in the queue what an offer of the whole call does. */
  lemma DeliveryIsOffer(rx: N.Receiver, g: Signal)
    ensures ChannelOf(N.Delivered(rx, g)) == Offered(ChannelOf(rx), g)
    ensures N.Delivered(rx, g).held == rx.held && N.Delivered(rx, g).inHand == rx.inHand
  {
  }
}
