/** The time-series cache (crates/calce-datastructs/src/cache.rs), one operation at a time. The
    interleaving of its copy-on-write updates is `CopyOnWrite`. */
module Cache {
  import opened Prelude

  /** The key type that the registry and the dispatcher are proved for: any one. */
  type Key(==, !new, 0)

  datatype CacheError = KeyNotFound | IndexOutOfBounds

  datatype Entry = Entry(current: Float, history: seq<Float>)

  datatype Snapshot<K> = Snapshot(key: K, current: Float, history: seq<Float>)

  datatype UpdateEvent<K> = CurrentChanged(key: K) | HistoryChanged(key: K)

  type Signal = UpdateEvent<Key>

  /** A history update: overwrite one place, or add one at the end. */
  datatype HistoryOp = Overwrite(index: nat, value: Float) | Append(value: Float)

  predicate InBounds(op: HistoryOp, history: seq<Float>) { op.Overwrite? ==> op.index < |history| }

  /** The new vector that the `rcu` closure builds from the old one. */
  function Rebuilt(op: HistoryOp, history: seq<Float>): seq<Float>
    requires InBounds(op, history)
  {
    match op
    case Overwrite(index, value) => history[index := value]
    case Append(value) => history + [value]
  }

  /** The entries after `update_current`: those of other keys, and every history, stay. */
  function WithCurrent<K>(data: map<K, Entry>, key: K, value: Float): (r: map<K, Entry>)
    ensures r.Keys == data.Keys
    ensures forall k :: k in data ==> r[k] == if k == key then Entry(value, data[k].history) else data[k]
  {
    if key in data then data[key := data[key].(current := value)] else data
  }

  /** The half-open range `[from, to)` of a history, whatever the two bounds are. */
  function Clamped(history: seq<Float>, from: nat, to: nat): (r: seq<Float>)
    ensures from <= to <= |history| ==> r == history[from..to]
    ensures to <= from || |history| <= from ==> r == []
    ensures from < |history| < to ==> r == history[from..]
  {
    var start := Min(from, |history|);
    history[start..Max(Min(to, |history|), start)]
  }

  /** The snapshots of the keys that exist, in the order asked. */
  function Snapshots<K>(data: map<K, Entry>, keys: seq<K>): (r: seq<Snapshot<K>>)
    ensures |r| <= |keys|
    ensures forall s :: s in r ==> s.key in keys && s.key in data
                                   && s.current == data[s.key].current && s.history == data[s.key].history
    ensures forall k :: k in keys && k in data ==> Snapshot(k, data[k].current, data[k].history) in r
  {
    if keys == [] then [] else
    var front, last := keys[..|keys| - 1], keys[|keys| - 1];
    assert keys == front + [last];
    Snapshots(data, front) + (if last in data then [Snapshot(last, data[last].current, data[last].history)] else [])
  }

  /** In the order asked: the snapshots of two lists of keys are those of the one and then the other's. */
  lemma {:induction false} SnapshotsConcat<K>(data: map<K, Entry>, keys: seq<K>, more: seq<K>)
    ensures Snapshots(data, keys + more) == Snapshots(data, keys) + Snapshots(data, more)
    decreases |more|
  {
    if more == [] {
      assert keys + more == keys;
    } else {
      var front, last := more[..|more| - 1], more[|more| - 1];
      assert (keys + more)[..|keys + more| - 1] == keys + front;
      SnapshotsConcat(data, keys, front);
    }
  }

  /** A bounded channel to the dispatcher; `try_send` neither waits nor reports failure here. */
  class Notifier<K> {
    var queue: seq<UpdateEvent<K>>
    var closed: bool
    const capacity: nat

    constructor (capacity: nat)
      requires capacity > 0
      ensures this.capacity == capacity && queue == [] && !closed
    {
      this.capacity := capacity;
      queue, closed := [], false;
    }

    method TrySend(e: UpdateEvent<K>) returns (sent: bool)
      modifies this`queue
      ensures sent <==> !closed && |old(queue)| < capacity
      ensures queue == if sent then old(queue) + [e] else old(queue)
    {
      sent := !closed && |queue| < capacity;
      if sent {
        queue := queue + [e];
      }
    }
  }

  class TimeSeriesCache<K(==)> {
    var data: map<K, Entry>
    var notifier: Notifier?<K>

    constructor ()
      ensures data == map[] && notifier == null
    {
      data, notifier := map[], null;
    }

    method SetNotifier(tx: Notifier<K>) returns (r: Result<(), Notifier<K>>)
      modifies this`notifier
      ensures if old(notifier) == null then r.Ok? && notifier == tx else r == Err(tx) && notifier == old(notifier)
    {
      if notifier == null {
        notifier := tx;
        r := Ok(());
      } else {
        r := Err(tx);
      }
    }

    method Insert(key: K, current: Float, history: seq<Float>)
      modifies this`data
      ensures data == old(data)[key := Entry(current, history)]
    {
      data := data[key := Entry(current, history)];
    }

    /** What the event channel holds; without a notifier there is none. */
    ghost function Signalled(): seq<UpdateEvent<K>>
      reads this, notifier
    {
      if notifier == null then [] else notifier.queue
    }

    ghost predicate CanSignal()
      reads this, notifier
    {
      notifier != null && !notifier.closed && |notifier.queue| < notifier.capacity
    }

    method Notify(e: UpdateEvent<K>)
      modifies if notifier == null then {} else {notifier}
      ensures Signalled() == old(Signalled()) + (if old(CanSignal()) then [e] else [])
    {
      if notifier != null {
        var _ := notifier.TrySend(e);
      }
    }

    /** The value is stored before the notification is sent, and stays stored if sending fails. */
    method UpdateCurrent(key: K, value: Float) returns (r: Result<(), CacheError>)
      modifies this`data, notifier
      ensures r == if key in old(data) then Ok(()) else Err(KeyNotFound)
      ensures Signalled() == old(Signalled()) + (if r.Ok? && old(CanSignal()) then [CurrentChanged(key)] else [])
      ensures data == WithCurrent(old(data), key, value)
    {
      if key !in data {
        return Err(KeyNotFound);
      }
      data := data[key := data[key].(current := value)];
      Notify(CurrentChanged(key));
      return Ok(());
    }

    method UpdateHistory(key: K, index: nat, value: Float) returns (r: Result<(), CacheError>)
      modifies this`data, notifier
      ensures r == if key !in old(data) then Err(KeyNotFound)
                   else if index >= |old(data)[key].history| then Err(IndexOutOfBounds) else Ok(())
      ensures Signalled() == old(Signalled()) + (if r.Ok? && old(CanSignal()) then [HistoryChanged(key)] else [])
      ensures data == if r.Err? then old(data)
                      else old(data)[key := Entry(old(data)[key].current, old(data)[key].history[index := value])]
    {
      if key !in data {
        return Err(KeyNotFound);
      }
      if index >= |data[key].history| {
        return Err(IndexOutOfBounds);
      }
      data := data[key := data[key].(history := Rebuilt(Overwrite(index, value), data[key].history))];
      Notify(HistoryChanged(key));
      return Ok(());
    }

    method AppendHistory(key: K, value: Float) returns (r: Result<(), CacheError>)
      modifies this`data, notifier
      ensures r == if key in old(data) then Ok(()) else Err(KeyNotFound)
      ensures Signalled() == old(Signalled()) + (if r.Ok? && old(CanSignal()) then [HistoryChanged(key)] else [])
      ensures data == if r.Err? then old(data)
                      else old(data)[key := Entry(old(data)[key].current, old(data)[key].history + [value])]
    {
      if key !in data {
        return Err(KeyNotFound);
      }
      data := data[key := data[key].(history := Rebuilt(Append(value), data[key].history))];
      Notify(HistoryChanged(key));
      return Ok(());
    }

    method GetHistoryRange(key: K, from: nat, to: nat) returns (r: Option<seq<Float>>)
      ensures r == if key in data then Some(Clamped(data[key].history, from, to)) else None
    {
      if key !in data {
        return None;
      }
      r := Some(Clamped(data[key].history, from, to));
    }

    method ReadBatch(keys: seq<K>) returns (out: seq<Snapshot<K>>)
      ensures out == Snapshots(data, keys)
    {
      out := [];
      for i := 0 to |keys|
        invariant out == Snapshots(data, keys[..i])
      {
        assert keys[..i + 1][..i] == keys[..i];
        if keys[i] in data {
          out := out + [Snapshot(keys[i], data[keys[i]].current, data[keys[i]].history)];
        }
      }
      assert keys[..|keys|] == keys;
    }
  }
}
