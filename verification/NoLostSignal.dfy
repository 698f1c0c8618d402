/** No update is missed (crates/calce-datastructs/src/pubsub.rs:125-177 and 313-397,
    crates/calce-datastructs/src/cache.rs:114-121). Writers store a value and then send a key-only
    signal; the dispatcher collects, coalesces and fans out; subscribers read the cache again on each
    signal. Every atomic step of every party, and of the registry, interleaves freely.

    The shard locks that keep some of these steps apart are not modelled: more interleavings are
    allowed here than in the program. */
module NoLostSignal {
  import opened Prelude
  import opened Cache
  import opened R = RegistrySteps

  type Value(==, !new, 0)

  /** A subscriber's queue, the signal it has taken and not acted on, and the values it has read.
      `missed` are the signals its full queue refused and has not accepted since. */
  datatype Receiver = Receiver(queue: seq<Signal>, capacity: nat, closed: bool, inHand: Option<Signal>,
                               held: map<Signal, Value>, missed: set<Signal>)

  datatype Dispatcher =
    | Waiting
    | Collecting
    | Stopping
    | Flushing(last: bool)
    | ToKey(event: Signal, todo: seq<Id>, lastBatch: bool)
    | ToAll(event: Signal, atStart: set<Id>, visited: set<Id>, lastBatch: bool)
    | Stopped

  /** `refused` are the signals whose last send found the event channel full. */
  datatype State = State(
    reg: Registry,
    cache: map<Signal, Value>,
    writers: map<nat, Signal>,
    channel: seq<Signal>,
    capacity: nat,
    refused: set<Signal>,
    pending: set<Signal>,
    disp: Dispatcher,
    receivers: map<Id, Receiver>)

  datatype Action =
    | Subscribe(keys: seq<Key>, all: bool, bufferSize: nat)
    | InRegistry(step: R.Action)
    | Store(writer: nat, signal: Signal, value: Value)
    | Send(writer: nat)
    | StopSignal
    | Recv
    | StartFlush
    | TakePending(signal: Signal)
    | SendToNext
    | KeyDone
    | SendToBroadcast(id: Id)
    | BroadcastDone
    | FlushDone
    | TakeFromQueue(id: Id)
    | Reread(id: Id)
    | ReadNow(id: Id, signal: Signal)
    | DropReceiver(id: Id)

  function Init(cache: map<Signal, Value>, capacity: nat): State {
    State(EMPTY, cache, map[], [], Max(capacity, 1), {}, {}, Waiting, map[])
  }

  predicate Returned(s: State, id: Id) {
    id in s.reg.calls && s.reg.calls[id].progress.Returned? && id in s.receivers
  }

  predicate Enabled(s: State, a: Action) {
    match a
    case Subscribe(_, _, _) => true
    case InRegistry(step) => !step.Allocate? && R.Enabled(s.reg, step)
    case Store(writer, signal, _) => writer !in s.writers && signal in s.cache
    case Send(writer) => writer in s.writers
    case StopSignal => s.disp.Waiting?
    case Recv => (s.disp.Waiting? || s.disp.Collecting? || s.disp.Stopping?) && s.channel != []
    case StartFlush => s.disp.Collecting? || (s.disp.Stopping? && s.channel == [])
    case TakePending(signal) => s.disp.Flushing? && signal in s.pending
    case SendToNext => s.disp.ToKey? && s.disp.todo != []
    case KeyDone => s.disp.ToKey? && s.disp.todo == []
    case SendToBroadcast(id) => s.disp.ToAll? && id in s.reg.broadcast && id !in s.disp.visited
    case BroadcastDone => s.disp.ToAll? && s.disp.atStart * s.reg.broadcast <= s.disp.visited
    case FlushDone => s.disp.Flushing? && s.pending == {}
    case TakeFromQueue(id) => Returned(s, id) && s.receivers[id].queue != [] && s.receivers[id].inHand.None?
    case Reread(id) => Returned(s, id) && s.receivers[id].inHand.Some?
    case ReadNow(id, signal) => Returned(s, id) && signal in s.cache
    case DropReceiver(id) => Returned(s, id)
  }

  /** `try_send` on one subscriber's queue. */
  function Delivered(rx: Receiver, signal: Signal): Receiver {
    if rx.closed then rx
    else if |rx.queue| < rx.capacity then rx.(queue := rx.queue + [signal], missed := rx.missed - {signal})
    else rx.(missed := rx.missed + {signal})
  }

  function DeliverTo(receivers: map<Id, Receiver>, id: Id, signal: Signal): map<Id, Receiver> {
    if id in receivers then receivers[id := Delivered(receivers[id], signal)] else receivers
  }

  function ReadInto(rx: Receiver, cache: map<Signal, Value>, signal: Signal): Receiver {
    if signal in cache then rx.(held := rx.held[signal := cache[signal]]) else rx
  }

  /** `try_send` on the event channel. */
  function Sent(s: State, writer: nat): State
    requires writer in s.writers
  {
    var signal, rest := s.writers[writer], s.writers - {writer};
    if s.disp.Stopped? then s.(writers := rest)
    else if |s.channel| < s.capacity
    then s.(writers := rest, channel := s.channel + [signal], refused := s.refused - {signal})
    else s.(writers := rest, refused := s.refused + {signal})
  }

  function Step(s: State, a: Action): State
    requires Enabled(s, a)
  {
    match a
    case Subscribe(keys, all, bufferSize) =>
      s.(reg := R.Step(s.reg, Allocate(keys, all)),
         receivers := s.receivers[s.reg.nextId := Receiver([], Max(bufferSize, 1), false, None, map[], {})])
    case InRegistry(step) => s.(reg := R.Step(s.reg, step))
    case Store(writer, signal, value) =>
      s.(cache := s.cache[signal := value], writers := s.writers[writer := signal])
    case Send(writer) => Sent(s, writer)
    case StopSignal => s.(disp := Stopping)
    case Recv =>
      s.(channel := s.channel[1..], pending := s.pending + {s.channel[0]},
         disp := if s.disp.Stopping? then Stopping else Collecting)
    case StartFlush => s.(disp := Flushing(s.disp.Stopping?))
    case TakePending(signal) =>
      s.(pending := s.pending - {signal}, disp := ToKey(signal, Listed(s.reg, signal.key), s.disp.last))
    case SendToNext =>
      s.(receivers := DeliverTo(s.receivers, s.disp.todo[0], s.disp.event), disp := s.disp.(todo := s.disp.todo[1..]))
    case KeyDone => s.(disp := ToAll(s.disp.event, s.reg.broadcast, {}, s.disp.lastBatch))
    case SendToBroadcast(id) =>
      s.(receivers := DeliverTo(s.receivers, id, s.disp.event), disp := s.disp.(visited := s.disp.visited + {id}))
    case BroadcastDone => s.(disp := Flushing(s.disp.lastBatch))
    case FlushDone => s.(disp := if s.disp.last then Stopped else Waiting)
    case TakeFromQueue(id) =>
      var rx := s.receivers[id];
      s.(receivers := s.receivers[id := rx.(queue := rx.queue[1..], inHand := Some(rx.queue[0]))])
    case Reread(id) =>
      var rx := s.receivers[id];
      s.(receivers := s.receivers[id := ReadInto(rx.(inHand := None), s.cache, rx.inHand.value)])
    case ReadNow(id, signal) =>
      s.(receivers := s.receivers[id := ReadInto(s.receivers[id], s.cache, signal)])
    case DropReceiver(id) => s.(receivers := s.receivers[id := s.receivers[id].(closed := true)])
  }

  /** Both kinds of queue are first in, first out, and a full one takes nothing. */
  lemma FirstInFirstOut(s: State, writer: nat, id: Id)
    ensures writer in s.writers && !s.disp.Stopped? ==>
              Step(s, Send(writer)).channel
              == s.channel + if |s.channel| < s.capacity then [s.writers[writer]] else []
    ensures Enabled(s, Recv) ==>
              && s.channel == [s.channel[0]] + Step(s, Recv).channel
              && Step(s, Recv).pending == s.pending + {s.channel[0]}
    ensures Enabled(s, TakeFromQueue(id)) ==>
              var rx, rx' := s.receivers[id], Step(s, TakeFromQueue(id)).receivers[id];
              rx'.inHand.Some? && rx.queue == [rx'.inHand.value] + rx'.queue
    ensures Enabled(s, SendToNext) && s.disp.todo[0] in s.receivers ==>
              var to := s.disp.todo[0];
              var rx, rx' := s.receivers[to], Step(s, SendToNext).receivers[to];
              rx'.queue == rx.queue + if !rx.closed && |rx.queue| < rx.capacity then [s.disp.event] else []
  {
  }

  // ---- What must not be lost ----

  /** The subscriber asked for this signal's key, its `subscribe` returned, no removal has begun, its
      receiver is open, and it has read the value at least once since. */
  predicate Follows(s: State, id: Id, g: Signal) {
    && Live(s.reg, id) && id in s.receivers && !s.receivers[id].closed
    && (s.reg.calls[id].all || g.key in s.reg.calls[id].keys)
    && g in s.receivers[id].held && g in s.cache
  }

  /** The dispatcher is fanning out `g` and has not come to `id` yet. */
  predicate Coming(s: State, id: Id, g: Signal) {
    match s.disp
    case ToKey(event, todo, _) => event == g && (id in todo || id in s.reg.broadcast)
    case ToAll(event, atStart, visited, _) => event == g && id in atStart && id in s.reg.broadcast && id !in visited
    case _ => false
  }

  /** A signal for `g` is still on its way to `id`. */
  predicate OnItsWay(s: State, id: Id, g: Signal)
    requires id in s.receivers
  {
    || g in s.writers.Values
    || g in s.channel
    || g in s.pending
    || Coming(s, id, g)
    || g in s.receivers[id].queue
    || s.receivers[id].inHand == Some(g)
  }

  /** A send of `g` was refused because a queue was full, and none has been accepted since. */
  predicate TurnedAway(s: State, id: Id, g: Signal)
    requires id in s.receivers
  {
    g in s.refused || g in s.receivers[id].missed
  }

  predicate NothingLost(s: State, id: Id, g: Signal) {
    Follows(s, id, g) ==>
      s.receivers[id].held[g] == s.cache[g] || OnItsWay(s, id, g) || TurnedAway(s, id, g) || s.disp.Stopped?
  }

  /** Nothing is read before `subscribe` returned. */
  predicate ReadsAfterReturn(s: State, id: Id) {
    id in s.receivers && s.receivers[id].held != map[] ==> Returned(s, id)
  }

  predicate WithinCapacity(s: State, id: Id) {
    id in s.receivers ==> |s.receivers[id].queue| <= s.receivers[id].capacity
  }

  ghost predicate Inv(s: State) {
    && R.Inv(s.reg) && |s.channel| <= s.capacity
    && (forall id :: id in s.receivers <==> id in s.reg.calls)
    && (forall id :: ReadsAfterReturn(s, id) && WithinCapacity(s, id))
    && (forall id, g :: NothingLost(s, id, g))
  }

  lemma InitInv(cache: map<Signal, Value>, capacity: nat)
    ensures Inv(Init(cache, capacity))
  {
  }

  // ---- Each step keeps it ----

  /** A live subscriber is in the list of each of its keys, or in the broadcast set. */
  lemma LiveIsListed(r: Registry, id: Id, k: Key)
    requires R.Inv(r) && Live(r, id)
    requires r.calls[id].all || k in r.calls[id].keys
    ensures id in r.broadcast || id in Listed(r, k)
  {
    assert CountOk(r, k, id) && CallOk(r, id);
  }

  lemma SubscribingKeepsIt(s: State, a: Action, id: Id, g: Signal)
    requires Inv(s) && Enabled(s, a) && (a.Subscribe? || a.InRegistry?)
    ensures NothingLost(Step(s, a), id, g)
  {
    var step := if a.Subscribe? then Allocate(a.keys, a.all) else a.step;
    assert NothingLost(s, id, g) && ReadsAfterReturn(s, id);
    if id != Subject(s.reg, step) {
      OtherIdsUntouched(s.reg, step, id);
    }
  }

  lemma StoringKeepsIt(s: State, a: Action, id: Id, g: Signal)
    requires Inv(s) && Enabled(s, a) && a.Store?
    ensures NothingLost(Step(s, a), id, g)
  {
    assert NothingLost(s, id, g);
    var s' := Step(s, a);
    assert s'.writers[a.writer] == a.signal;
    if g in s.writers.Values {
      var w :| w in s.writers && s.writers[w] == g;
      assert s'.writers[w] == g;
    }
  }

  /** The sent signal is in the channel, or was refused, or nobody listens any more. */
  lemma SendingKeepsIt(s: State, writer: nat, id: Id, g: Signal)
    requires NothingLost(s, id, g) && writer in s.writers
    ensures NothingLost(Sent(s, writer), id, g)
  {
    if g != s.writers[writer] {
      OtherWritersKept(s.writers, writer, g);
    }
  }

  lemma OtherWritersKept(writers: map<nat, Signal>, writer: nat, g: Signal)
    requires writer in writers && g != writers[writer]
    ensures g in (writers - {writer}).Values <==> g in writers.Values
  {
    var rest := writers - {writer};
    if g in writers.Values {
      var w :| w in writers && writers[w] == g;
      assert rest[w] == g;
    }
  }

  lemma CollectingKeepsIt(s: State, a: Action, id: Id, g: Signal)
    requires Inv(s) && Enabled(s, a) && (a.StopSignal? || a.Recv? || a.StartFlush? || a.FlushDone?)
    ensures NothingLost(Step(s, a), id, g)
  {
    assert NothingLost(s, id, g);
    if a.Recv? {
      assert s.channel == [s.channel[0]] + s.channel[1..];
    }
  }

  lemma FanOutKeepsIt(s: State, a: Action, id: Id, g: Signal)
    requires Inv(s) && Enabled(s, a) && (a.TakePending? || a.KeyDone? || a.BroadcastDone?)
    ensures NothingLost(Step(s, a), id, g)
  {
    assert NothingLost(s, id, g);
    if a.TakePending? && Follows(s, id, g) {
      LiveIsListed(s.reg, id, g.key);
    }
  }

  lemma NextDeliveryKeepsIt(s: State, id: Id, g: Signal)
    requires Inv(s) && Enabled(s, SendToNext)
    ensures NothingLost(Step(s, SendToNext), id, g)
  {
    assert NothingLost(s, id, g);
    assert s.disp.todo == [s.disp.todo[0]] + s.disp.todo[1..];
  }

  lemma BroadcastDeliveryKeepsIt(s: State, to: Id, id: Id, g: Signal)
    requires Inv(s) && Enabled(s, SendToBroadcast(to))
    ensures NothingLost(Step(s, SendToBroadcast(to)), id, g)
  {
    assert NothingLost(s, id, g);
  }

  lemma DequeueKeepsIt(s: State, a: Action, id: Id, g: Signal)
    requires Inv(s) && Enabled(s, a) && a.TakeFromQueue?
    ensures NothingLost(Step(s, a), id, g)
  {
    assert NothingLost(s, id, g);
    assert s.receivers[a.id].queue == [s.receivers[a.id].queue[0]] + s.receivers[a.id].queue[1..];
  }

  lemma ReadingKeepsIt(s: State, a: Action, id: Id, g: Signal)
    requires Inv(s) && Enabled(s, a) && (a.Reread? || a.ReadNow? || a.DropReceiver?)
    ensures NothingLost(Step(s, a), id, g)
  {
    assert NothingLost(s, id, g);
  }

  lemma StepKeepsIt(s: State, a: Action, id: Id, g: Signal)
    requires Inv(s) && Enabled(s, a)
    ensures NothingLost(Step(s, a), id, g)
  {
    match a
    case Subscribe(_, _, _) => SubscribingKeepsIt(s, a, id, g);
    case InRegistry(_) => SubscribingKeepsIt(s, a, id, g);
    case Store(_, _, _) => StoringKeepsIt(s, a, id, g);
    case Send(writer) => SendingKeepsIt(s, writer, id, g);
    case StopSignal => CollectingKeepsIt(s, a, id, g);
    case Recv => CollectingKeepsIt(s, a, id, g);
    case StartFlush => CollectingKeepsIt(s, a, id, g);
    case FlushDone => CollectingKeepsIt(s, a, id, g);
    case TakeFromQueue(_) => DequeueKeepsIt(s, a, id, g);
    case Reread(_) => ReadingKeepsIt(s, a, id, g);
    case ReadNow(_, _) => ReadingKeepsIt(s, a, id, g);
    case DropReceiver(_) => ReadingKeepsIt(s, a, id, g);
    case SendToNext => NextDeliveryKeepsIt(s, id, g);
    case SendToBroadcast(to) => BroadcastDeliveryKeepsIt(s, to, id, g);
    case _ => FanOutKeepsIt(s, a, id, g);
  }

  lemma SubscribingKeepsReceivers(s: State, a: Action, id: Id)
    requires Inv(s) && Enabled(s, a) && (a.Subscribe? || a.InRegistry?)
    ensures var s' := Step(s, a);
            (id in s'.receivers <==> id in s'.reg.calls) && ReadsAfterReturn(s', id) && WithinCapacity(s', id)
  {
    assert ReadsAfterReturn(s, id) && WithinCapacity(s, id);
    var step := if a.Subscribe? then Allocate(a.keys, a.all) else a.step;
    if id != Subject(s.reg, step) {
      OtherIdsUntouched(s.reg, step, id);
    }
  }

  lemma DeliveryKeepsReceivers(s: State, a: Action, id: Id)
    requires Inv(s) && Enabled(s, a) && (a.SendToNext? || a.SendToBroadcast?)
    ensures var s' := Step(s, a);
            (id in s'.receivers <==> id in s'.reg.calls) && ReadsAfterReturn(s', id) && WithinCapacity(s', id)
  {
    assert ReadsAfterReturn(s, id) && WithinCapacity(s, id);
  }

  lemma OthersKeepReceivers(s: State, a: Action, id: Id)
    requires Inv(s) && Enabled(s, a) && !a.Subscribe? && !a.InRegistry? && !a.SendToNext? && !a.SendToBroadcast?
    ensures var s' := Step(s, a);
            (id in s'.receivers <==> id in s'.reg.calls) && ReadsAfterReturn(s', id) && WithinCapacity(s', id)
  {
    assert ReadsAfterReturn(s, id) && WithinCapacity(s, id);
  }

  lemma StepKeepsInv(s: State, a: Action)
    requires Inv(s) && Enabled(s, a)
    ensures Inv(Step(s, a))
  {
    if a.Subscribe? {
      R.StepKeepsInv(s.reg, Allocate(a.keys, a.all));
    } else if a.InRegistry? {
      R.StepKeepsInv(s.reg, a.step);
    }
    forall id
      ensures (id in Step(s, a).receivers <==> id in Step(s, a).reg.calls)
      ensures ReadsAfterReturn(Step(s, a), id) && WithinCapacity(Step(s, a), id)
    {
      if a.Subscribe? || a.InRegistry? {
        SubscribingKeepsReceivers(s, a, id);
      } else if a.SendToNext? || a.SendToBroadcast? {
        DeliveryKeepsReceivers(s, a, id);
      } else {
        OthersKeepReceivers(s, a, id);
      }
    }
    forall id, g
      ensures NothingLost(Step(s, a), id, g)
    {
      StepKeepsIt(s, a, id, g);
    }
  }

  // ---- All runs ----

  ghost predicate IsRun(states: seq<State>, actions: seq<Action>) {
    && |states| == |actions| + 1
    && (exists cache, capacity :: states[0] == Init(cache, capacity))
    && forall i :: 0 <= i < |actions| ==> Enabled(states[i], actions[i]) && states[i + 1] == Step(states[i], actions[i])
  }

  lemma {:induction false} RunKeepsInv(states: seq<State>, actions: seq<Action>, n: nat)
    requires IsRun(states, actions) && n < |states|
    ensures Inv(states[n])
  {
    if n == 0 {
      var cache, capacity :| states[0] == Init(cache, capacity);
      InitInv(cache, capacity);
    } else {
      RunKeepsInv(states, actions, n - 1);
      StepKeepsInv(states[n - 1], actions[n - 1]);
    }
  }

  /** In every interleaving, while the dispatcher has not stopped: a subscriber that has read a value
      since its `subscribe` returned holds the current one, or a signal for it is still on its way, or
      the last send of that signal met a full queue. No queue exceeds its capacity. */
  lemma NoSignalLost(states: seq<State>, actions: seq<Action>, n: nat, id: Id, g: Signal)
    requires IsRun(states, actions) && n < |states| && Follows(states[n], id, g) && !states[n].disp.Stopped?
    ensures var s := states[n];
            s.receivers[id].held[g] == s.cache[g] || OnItsWay(s, id, g) || TurnedAway(s, id, g)
    ensures |states[n].channel| <= states[n].capacity
    ensures |states[n].receivers[id].queue| <= states[n].receivers[id].capacity
  {
    RunKeepsInv(states, actions, n);
    assert NothingLost(states[n], id, g) && WithinCapacity(states[n], id);
  }

  /** Every party has done its work. */
  predicate Quiet(s: State, id: Id)
    requires id in s.receivers
  {
    && s.writers == map[] && s.channel == [] && s.pending == {} && s.disp.Waiting?
    && s.receivers[id].queue == [] && s.receivers[id].inHand.None?
  }

  /** At rest, a subscriber none of whose signals was turned away agrees with the cache on everything
      it follows. */
  lemma AtRestAllAgree(states: seq<State>, actions: seq<Action>, n: nat, id: Id)
    requires IsRun(states, actions) && n < |states| && id in states[n].receivers && Quiet(states[n], id)
    requires states[n].refused == {} && states[n].receivers[id].missed == {}
    ensures forall g :: Follows(states[n], id, g) ==> states[n].receivers[id].held[g] == states[n].cache[g]
  {
    RunKeepsInv(states, actions, n);
    forall g | Follows(states[n], id, g)
      ensures states[n].receivers[id].held[g] == states[n].cache[g]
    {
      assert NothingLost(states[n], id, g);
    }
  }
}
