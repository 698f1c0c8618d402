/** The subscription registry under interleaving (crates/calce-datastructs/src/pubsub.rs:79-119).
    Its maps are concurrent: only the single-entry steps of `subscribe` and `unsubscribe` are atomic,
    so those are the steps here, and any number of calls interleave. */
module RegistrySteps {
  import opened Prelude
  import opened Cache

  type Id = nat

  /** How far `subscribe` or `subscribe_all` has got: id drawn, key list stored and `done` keys
      entered, or returned to the caller. */
  datatype Progress = Allocated | Pushing(done: nat) | Returned

  datatype Call = Call(keys: seq<Key>, all: bool, progress: Progress)

  /** An `unsubscribe` that took the id's key list: the keys still to do, and whether the entry of the
      first one has been filtered already. */
  datatype Removal = Removal(keys: seq<Key>, filtered: bool)

  /** `calls`, `begun` and `finished` record history; the other fields are the registry's. */
  datatype Registry = Registry(
    perKey: map<Key, seq<Id>>,
    perSubscriber: map<Id, seq<Key>>,
    broadcast: set<Id>,
    nextId: Id,
    calls: map<Id, Call>,
    begun: set<Id>,
    removing: map<Id, Removal>,
    finished: set<Id>)

  datatype Action =
    | Allocate(keys: seq<Key>, all: bool)
    | Register(id: Id)
    | Push(id: Id)
    | Return(id: Id)
    | BeginRemoval(id: Id)
    | TakeKeys(id: Id)
    | Filter(id: Id)
    | RemoveIfEmpty(id: Id)
    | FinishRemoval(id: Id)

  const EMPTY := Registry(map[], map[], {}, 1, map[], {}, map[], {})

  /** The keys in order of first occurrence, each once. */
  function Deduped(keys: seq<Key>): (r: seq<Key>)
    ensures Distinct(r)
    ensures forall k :: k in r <==> k in keys
  {
    if keys == [] then [] else
    var r := Deduped(keys[..|keys| - 1]);
    var k := keys[|keys| - 1];
    assert forall x :: x in keys <==> x in keys[..|keys| - 1] || x == k;
    if k in r then r else r + [k]
  }

  /** Keys named earlier come first. */
  lemma {:induction false} DedupedGrows(keys: seq<Key>, more: seq<Key>)
    ensures Deduped(keys) <= Deduped(keys + more)
    decreases |more|
  {
    if more == [] {
      assert keys + more == keys;
    } else {
      var front := more[..|more| - 1];
      assert (keys + more)[..|keys + more| - 1] == keys + front;
      DedupedGrows(keys, front);
    }
  }

  function IdsIn(lists: map<Key, seq<Id>>, k: Key): seq<Id> { if k in lists then lists[k] else [] }

  function Listed(r: Registry, k: Key): seq<Id> { IdsIn(r.perKey, k) }

  function Without(ids: seq<Id>, id: Id): (r: seq<Id>)
    ensures multiset(r) == multiset(ids)[id := 0]
  {
    if ids == [] then [] else
    assert ids == ids[..|ids| - 1] + [ids[|ids| - 1]];
    if ids[|ids| - 1] == id then Without(ids[..|ids| - 1], id)
    else Without(ids[..|ids| - 1], id) + [ids[|ids| - 1]]
  }

  /** A caller can name an id only after `subscribe` returned it; the dispatcher names only ids whose
      receiver was dropped, which is later still. */
  predicate Enabled(r: Registry, a: Action) {
    match a
    case Allocate(_, _) => true
    case Register(id) => id in r.calls && r.calls[id].progress.Allocated?
    case Push(id) =>
      id in r.calls && r.calls[id].progress.Pushing? && r.calls[id].progress.done < |r.calls[id].keys|
    case Return(id) => id in r.calls && r.calls[id].progress == Pushing(|r.calls[id].keys|)
    case BeginRemoval(id) => id in r.calls && r.calls[id].progress.Returned?
    case TakeKeys(id) => id in r.begun
    case Filter(id) => id in r.removing && r.removing[id].keys != [] && !r.removing[id].filtered
    case RemoveIfEmpty(id) => id in r.removing && r.removing[id].keys != [] && r.removing[id].filtered
    case FinishRemoval(id) => id in r.removing && r.removing[id].keys == []
  }

  /** The program itself does not check the id it is given: a removal may also name one that has been
      drawn and not returned yet. */
  predicate Possible(r: Registry, a: Action) { Enabled(r, a) || (a.BeginRemoval? && a.id in r.calls) }

  function Advance(r: Registry, id: Id, progress: Progress): Registry
    requires id in r.calls
  {
    r.(calls := r.calls[id := r.calls[id].(progress := progress)])
  }

  function Step(r: Registry, a: Action): Registry
    requires Possible(r, a)
  {
    match a
    case Allocate(keys, all) =>
      r.(nextId := r.nextId + 1, calls := r.calls[r.nextId := Call(if all then [] else Deduped(keys), all, Allocated)])
    case Register(id) =>
      if r.calls[id].all then Advance(r, id, Returned).(broadcast := r.broadcast + {id})
      else Advance(r, id, Pushing(0)).(perSubscriber := r.perSubscriber[id := r.calls[id].keys])
    case Push(id) =>
      var done := r.calls[id].progress.done;
      var k := r.calls[id].keys[done];
      Advance(r, id, Pushing(done + 1)).(perKey := r.perKey[k := Listed(r, k) + [id]])
    case Return(id) => Advance(r, id, Returned)
    case BeginRemoval(id) => r.(broadcast := r.broadcast - {id}, begun := r.begun + {id})
    case TakeKeys(id) =>
      if id !in r.perSubscriber then r
      else r.(perSubscriber := r.perSubscriber - {id},
              removing := r.removing[id := Removal(r.perSubscriber[id], false)])
    case Filter(id) =>
      var k := r.removing[id].keys[0];
      r.(perKey := if k in r.perKey then r.perKey[k := Without(r.perKey[k], id)] else r.perKey,
         removing := r.removing[id := r.removing[id].(filtered := true)])
    case RemoveIfEmpty(id) =>
      var k := r.removing[id].keys[0];
      r.(perKey := if k in r.perKey && r.perKey[k] == [] then r.perKey - {k} else r.perKey,
         removing := r.removing[id := Removal(r.removing[id].keys[1..], false)])
    case FinishRemoval(id) => r.(removing := r.removing - {id}, finished := r.finished + {id})
  }

  // ---- The invariant ----

  function Entered(c: Call): seq<Key> {
    match c.progress
    case Allocated => []
    case Pushing(done) => c.keys[..Min(done, |c.keys|)]
    case Returned => c.keys
  }

  /** The keys whose lists the removal of `id` has not filtered yet. */
  function ToFilter(m: Removal): seq<Key> {
    if m.filtered && m.keys != [] then m.keys[1..] else m.keys
  }

  /** The removal of `id` has already passed key `k`. */
  predicate Passed(r: Registry, id: Id, k: Key) {
    id in r.finished || (id in r.removing && k !in ToFilter(r.removing[id]))
  }

  /** The removal has the last keys of the call still to do. */
  predicate IsTail(c: Call, m: Removal) {
    && |m.keys| <= |c.keys| && m.keys == c.keys[|c.keys| - |m.keys|..]
    && (m.filtered ==> m.keys != [])
  }

  predicate CallOk(r: Registry, id: Id)
    requires id in r.calls
  {
    var c := r.calls[id];
    && (c.progress.Pushing? ==> !c.all && c.progress.done <= |c.keys|) && (c.all ==> c.keys == [])
    && (id in r.broadcast <==> c.all && c.progress.Returned? && id !in r.begun)
    && (id in r.perSubscriber <==> !c.all && !c.progress.Allocated? && id !in r.removing && id !in r.finished)
    && (id in r.perSubscriber ==> r.perSubscriber[id] == c.keys)
    && (id in r.begun ==> c.progress.Returned?)
    && (id in r.removing ==> id in r.begun && id !in r.finished && !c.all && IsTail(c, r.removing[id]))
    && (id in r.finished ==> id in r.begun && !c.all)
  }

  /** How often `id` must stand in the list of `k`. */
  function Expected(r: Registry, id: Id, k: Key): nat {
    if id in r.calls && k in Entered(r.calls[id]) && !Passed(r, id, k) then 1 else 0
  }

  predicate Known(r: Registry, id: Id) {
    id in r.perSubscriber || id in r.broadcast || id in r.begun || id in r.removing || id in r.finished
  }

  ghost predicate Structure(r: Registry) {
    && r.nextId >= 1 && (forall id :: id in r.calls <==> 1 <= id < r.nextId)
    && (forall id :: Known(r, id) ==> id in r.calls)
    && (forall id :: id in r.calls ==> CallOk(r, id) && Distinct(r.calls[id].keys))
  }

  predicate CountOk(r: Registry, k: Key, id: Id) { multiset(Listed(r, k))[id] == Expected(r, id, k) }

  ghost predicate Inv(r: Registry) { Structure(r) && forall k, id :: CountOk(r, k, id) }

  /** Returned, and no removal has begun. */
  predicate Live(r: Registry, id: Id) { id in r.calls && r.calls[id].progress.Returned? && id !in r.begun }

  /** The id a step is about. */
  function Subject(r: Registry, a: Action): Id { if a.Allocate? then r.nextId else a.id }

  /** A step changes nothing that is recorded under another id. */
  lemma OtherIdsUntouched(r: Registry, a: Action, x: Id)
    requires Enabled(r, a) && x != Subject(r, a)
    ensures var r' := Step(r, a);
            && (x in r'.calls <==> x in r.calls) && (x in r.calls ==> r'.calls[x] == r.calls[x])
            && (x in r'.broadcast <==> x in r.broadcast) && (x in r'.begun <==> x in r.begun)
            && (x in r'.finished <==> x in r.finished)
            && (x in r'.perSubscriber <==> x in r.perSubscriber)
            && (x in r.perSubscriber ==> r'.perSubscriber[x] == r.perSubscriber[x])
            && (x in r'.removing <==> x in r.removing)
            && (x in r.removing ==> r'.removing[x] == r.removing[x])
  {
  }

  lemma OwnCallOk(r: Registry, a: Action)
    requires Structure(r) && Enabled(r, a)
    ensures var id := Subject(r, a); id in Step(r, a).calls && CallOk(Step(r, a), id)
    ensures Distinct(Step(r, a).calls[Subject(r, a)].keys)
  {
    if a.Allocate? {
      assert !Known(r, r.nextId);
    } else {
      assert CallOk(r, a.id);
      if a.TakeKeys? && a.id in r.perSubscriber {
        assert IsTail(r.calls[a.id], Removal(r.perSubscriber[a.id], false));
      }
      if a.RemoveIfEmpty? {
        assert IsTail(r.calls[a.id], Removal(r.removing[a.id].keys[1..], false));
      }
    }
  }

  lemma StepKeepsStructure(r: Registry, a: Action)
    requires Structure(r) && Enabled(r, a)
    ensures Structure(Step(r, a))
  {
    var r' := Step(r, a);
    OwnCallOk(r, a);
    forall x | x != Subject(r, a)
      ensures x in r'.calls <==> x in r.calls
      ensures Known(r', x) ==> x in r'.calls
      ensures x in r'.calls ==> CallOk(r', x) && Distinct(r'.calls[x].keys)
    {
      OtherIdsUntouched(r, a, x);
    }
    assert r'.nextId == if a.Allocate? then r.nextId + 1 else r.nextId;
  }

  lemma PushCount(r: Registry, id: Id, k: Key, x: Id)
    requires Inv(r) && Enabled(r, Push(id))
    ensures CountOk(Step(r, Push(id)), k, x)
  {
    assert CountOk(r, k, x);
    if x == id {
      OwnPushCount(r, id, k);
    } else {
      OtherIdsUntouched(r, Push(id), x);
    }
  }

  lemma OwnPushCount(r: Registry, id: Id, k: Key)
    requires Structure(r) && Enabled(r, Push(id)) && CountOk(r, k, id)
    ensures CountOk(Step(r, Push(id)), k, id)
  {
    assert CallOk(r, id);
    PrefixKeys(r.calls[id].keys, r.calls[id].progress.done, k);
  }

  lemma PrefixKeys(keys: seq<Key>, done: nat, k: Key)
    requires done < |keys| && Distinct(keys)
    ensures k in keys[..done + 1] <==> k in keys[..done] || k == keys[done]
    ensures keys[done] !in keys[..done]
  {
    assert keys[..done + 1] == keys[..done] + [keys[done]];
  }

  lemma FilterCount(r: Registry, id: Id, k: Key, x: Id)
    requires Inv(r) && Enabled(r, Filter(id))
    ensures CountOk(Step(r, Filter(id)), k, x)
  {
    assert CountOk(r, k, x);
    if x != id {
      OtherIdsUntouched(r, Filter(id), x);
    } else {
      var keys := r.removing[id].keys;
      assert CallOk(r, id);
      TailKeys(r.calls[id], r.removing[id]);
      assert keys == [keys[0]] + keys[1..];
    }
  }

  /** The first key of a tail of distinct keys does not come again, and belongs to the call. */
  lemma TailKeys(c: Call, m: Removal)
    requires IsTail(c, m) && Distinct(c.keys) && m.keys != []
    ensures m.keys[0] !in m.keys[1..] && m.keys[0] in c.keys
  {
    var at := |c.keys| - |m.keys|;
    assert m.keys[0] == c.keys[at];
    assert forall j :: 0 <= j < |m.keys[1..]| ==> m.keys[1..][j] == c.keys[at + 1 + j];
  }

  lemma RemoveIfEmptyCount(r: Registry, id: Id, k: Key, x: Id)
    requires Inv(r) && Enabled(r, RemoveIfEmpty(id))
    ensures CountOk(Step(r, RemoveIfEmpty(id)), k, x)
    ensures Listed(Step(r, RemoveIfEmpty(id)), k) == Listed(r, k)
  {
    assert CountOk(r, k, x);
  }

  /** Steps that leave the lists alone leave what they must hold alone, too. */
  lemma OtherCount(r: Registry, a: Action, k: Key, x: Id)
    requires Inv(r) && Enabled(r, a) && !a.Push? && !a.Filter? && !a.RemoveIfEmpty?
    ensures CountOk(Step(r, a), k, x)
  {
    assert CountOk(r, k, x);
    if x != Subject(r, a) {
      OtherIdsUntouched(r, a, x);
    } else {
      OwnExpected(r, a, k);
    }
  }

  lemma OwnExpected(r: Registry, a: Action, k: Key)
    requires Structure(r) && Enabled(r, a) && !a.Push? && !a.Filter? && !a.RemoveIfEmpty?
    ensures Expected(Step(r, a), Subject(r, a), k) == Expected(r, Subject(r, a), k)
  {
    if !a.Allocate? {
      var c := r.calls[a.id];
      assert CallOk(r, a.id);
      assert c.keys[..|c.keys|] == c.keys && c.keys[..0] == [];
    }
  }

  lemma StepKeepsInv(r: Registry, a: Action)
    requires Inv(r) && Enabled(r, a)
    ensures Inv(Step(r, a))
  {
    StepKeepsStructure(r, a);
    forall k, x
      ensures CountOk(Step(r, a), k, x)
    {
      match a
      case Push(id) => PushCount(r, id, k, x);
      case Filter(id) => FilterCount(r, id, k, x);
      case RemoveIfEmpty(id) => RemoveIfEmptyCount(r, id, k, x);
      case _ => OtherCount(r, a, k, x);
    }
  }

  // ---- All runs ----

  ghost predicate IsRun(states: seq<Registry>, actions: seq<Action>) {
    IsPath(states, actions) && states[0] == EMPTY
  }

  ghost predicate IsPath(states: seq<Registry>, actions: seq<Action>) {
    |states| == |actions| + 1 && forall i :: 0 <= i < |actions| ==> IsStepAt(states, actions, i)
  }

  predicate IsStepAt(states: seq<Registry>, actions: seq<Action>, i: nat)
    requires i < |actions| < |states|
  {
    Enabled(states[i], actions[i]) && states[i + 1] == Step(states[i], actions[i])
  }

  lemma {:induction false} RunKeepsInv(states: seq<Registry>, actions: seq<Action>, n: nat)
    requires IsRun(states, actions) && n < |states|
    ensures Inv(states[n])
  {
    if n > 0 {
      RunKeepsInv(states, actions, n - 1);
      assert IsStepAt(states, actions, n - 1);
      StepKeepsInv(states[n - 1], actions[n - 1]);
    }
  }

  /** Whatever interleaves: a subscriber whose `subscribe` returned and for which no removal has begun
      stands exactly once in the list of each of its keys and in no other list; and once the removal
      that took an id's key list is finished, no list mentions that id. */
  lemma RegistryIsExact(states: seq<Registry>, actions: seq<Action>, n: nat, id: Id, k: Key)
    requires IsRun(states, actions) && n < |states| && id in states[n].calls
    ensures var r := states[n];
            && (Live(r, id) ==> multiset(Listed(r, k))[id] == if k in r.calls[id].keys then 1 else 0)
            && (id in r.finished ==> id !in Listed(r, k))
  {
    RunKeepsInv(states, actions, n);
    assert CountOk(states[n], k, id) && CallOk(states[n], id);
  }

  /** `remove_if` discards no entry: the list of every key stays what it was. */
  lemma RemoveIfDiscardsNothing(states: seq<Registry>, actions: seq<Action>, n: nat, k: Key)
    requires IsRun(states, actions) && n < |actions| && actions[n].RemoveIfEmpty?
    ensures Listed(states[n + 1], k) == Listed(states[n], k)
  {
    RunKeepsInv(states, actions, n);
    assert IsStepAt(states, actions, n);
    RemoveIfEmptyCount(states[n], actions[n].id, k, 0);
  }

  // ---- Why the steps are the way they are ----

  /** With the emptiness test and the removal as two steps, another subscriber can enter the list in
      between and be discarded: the race that the atomic `remove_if` avoids. */
  lemma SplitRemovalLosesSubscriber(r: Registry, id: Id, other: Id)
    requires Inv(r) && Enabled(r, RemoveIfEmpty(id)) && Enabled(r, Push(other)) && other != id
    requires var c := r.calls[other];
             c.keys[c.progress.done] == r.removing[id].keys[0] && c.progress.done + 1 == |c.keys|
    requires Listed(r, r.removing[id].keys[0]) == []
    ensures var k := r.removing[id].keys[0];
            var between := Step(Step(r, Push(other)), Return(other));
            var after := between.(perKey := between.perKey - {k});
            Live(between, other) && Listed(between, k) == [other] && Listed(after, k) == []
  {
    StepKeepsStructure(r, Push(other));
    assert CallOk(r, other);
  }

  /** Had a removal run to its end before `subscribe` entered its last keys (an id guessed before it
      was returned), the entry made afterwards would be permanent: with the key list gone, another
      `unsubscribe` of the same id finds nothing to filter. */
  lemma EarlyRemovalLeaks(r: Registry, id: Id)
    requires Enabled(r, Push(id)) && id in r.finished && id in r.begun && id !in r.perSubscriber
    ensures var after := Step(r, Push(id));
            && id in Listed(after, r.calls[id].keys[r.calls[id].progress.done])
            && Step(after, TakeKeys(id)) == after
    ensures !Inv(r)
  {
    assert id in r.calls && !CallOk(r, id);
  }

  ghost predicate IsPossibleRun(states: seq<Registry>, actions: seq<Action>) {
    && |states| == |actions| + 1 && states[0] == EMPTY
    && forall i :: 0 <= i < |actions| ==>
         Possible(states[i], actions[i]) && states[i + 1] == Step(states[i], actions[i])
  }

  lemma OneStepOn(states: seq<Registry>, actions: seq<Action>, a: Action)
    returns (longer: seq<Registry>, more: seq<Action>)
    requires IsPossibleRun(states, actions) && Possible(states[|actions|], a)
    ensures IsPossibleRun(longer, more) && more == actions + [a]
    ensures longer[|more|] == Step(states[|actions|], a)
  {
    longer, more := states + [Step(states[|actions|], a)], actions + [a];
  }

  /** The id is drawn, its key list stored, and its removal begun. */
  lemma GuessedEarly(k: Key) returns (states: seq<Registry>, actions: seq<Action>)
    ensures IsPossibleRun(states, actions) && BeginRemoval(1) in actions
    ensures states[|actions|]
         == Registry(map[], map[1 := [k]], {}, 2, map[1 := Call([k], false, Pushing(0))], {1}, map[], {})
  {
    assert [k][..0] == [] && Deduped([]) == [];
    assert Deduped([k]) == [k];
    states, actions := OneStepOn([EMPTY], [], Allocate([k], false));
    assert states[1] == Registry(map[], map[], {}, 2, map[1 := Call([k], false, Allocated)], {}, map[], {});
    states, actions := OneStepOn(states, actions, Register(1));
    states, actions := OneStepOn(states, actions, BeginRemoval(1));
  }

  /** That removal runs to its end. */
  lemma RemovedEarly(k: Key) returns (states: seq<Registry>, actions: seq<Action>)
    ensures IsPossibleRun(states, actions) && BeginRemoval(1) in actions
    ensures states[|actions|]
         == Registry(map[], map[], {}, 2, map[1 := Call([k], false, Pushing(0))], {1}, map[], {1})
  {
    states, actions := GuessedEarly(k);
    states, actions := OneStepOn(states, actions, TakeKeys(1));
    states, actions := OneStepOn(states, actions, Filter(1));
    states, actions := OneStepOn(states, actions, RemoveIfEmpty(1));
    states, actions := OneStepOn(states, actions, FinishRemoval(1));
  }

  /** Such a run from the empty registry: the first id is removed after `subscribe` stored its one key and
      before it entered it. The entry stays, and removing the id again changes nothing. */
  lemma EarlyRemovalRun(k: Key) returns (states: seq<Registry>, actions: seq<Action>)
    ensures IsPossibleRun(states, actions) && BeginRemoval(1) in actions
    ensures var r := states[|actions|];
            && 1 in r.finished && Listed(r, k) == [1]
            && Possible(r, TakeKeys(1)) && Step(r, TakeKeys(1)) == r
  {
    states, actions := RemovedEarly(k);
    states, actions := OneStepOn(states, actions, Push(1));
  }
}
