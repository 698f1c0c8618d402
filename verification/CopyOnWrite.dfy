/** Concurrent updates of one cache entry (crates/calce-datastructs/src/cache.rs:129-179): every step
    of `update_history`, `append_history`, `get_history` and `insert` is atomic by itself, and the
    steps of any number of threads interleave freely. */
module CopyOnWrite {
  import opened Prelude
  import opened Cache

  type ThreadId = nat

  /** Where a thread stands inside its call. `Loaded` holds the snapshot that the `rcu` closure is
      building on; a failed compare-and-swap hands the thread the snapshot it found instead. */
  datatype Phase = Checking | Looping | Loaded(snapshot: nat)

  datatype Thread = Thread(op: HistoryOp, phase: Phase, begun: nat)

  datatype Outcome = Stored(op: HistoryOp, begun: nat, ended: nat) | Rejected(op: HistoryOp, begun: nat, ended: nat)

  /** One entry of the linearization: a successful swap, or an `insert` that replaced the entry. */
  datatype Linear = Swapped(thread: ThreadId, op: HistoryOp) | Replaced(history: seq<Float>)

  /** `vectors` are all vectors ever published, `current` the published one. A vector that some thread
      or reader still holds is not freed, so its address is not reused: addresses are indices. */
  datatype State = State(
    vectors: seq<seq<Float>>,
    current: nat,
    running: map<ThreadId, Thread>,
    done: map<ThreadId, Outcome>,
    order: seq<Linear>,
    handedOut: map<nat, seq<Float>>)

  datatype Action =
    | Begin(id: ThreadId, op: HistoryOp)
    | CheckIndex(id: ThreadId)
    | Load(id: ThreadId)
    | CompareAndSwap(id: ThreadId)
    | GetHistory
    | Insert(history: seq<Float>)

  function Init(history: seq<Float>): State { State([history], 0, map[], map[], [], map[]) }

  predicate Enabled(s: State, a: Action) {
    match a
    case Begin(id, _) => id !in s.running && id !in s.done
    case CheckIndex(id) => id in s.running && s.running[id].phase.Checking?
    case Load(id) => id in s.running && s.running[id].phase.Looping?
    case CompareAndSwap(id) => id in s.running && s.running[id].phase.Loaded?
    case GetHistory => true
    case Insert(_) => s.running == map[] // `insert` waits for every guard on the entry
  }

  /** Every dereference and every index the step makes is valid. */
  predicate Safe(s: State, a: Action) {
    && s.current < |s.vectors|
    && (a.CompareAndSwap? && a.id in s.running && s.running[a.id].phase.Loaded? ==>
          && s.running[a.id].phase.snapshot < |s.vectors|
          && InBounds(s.running[a.id].op, s.vectors[s.running[a.id].phase.snapshot]))
  }

  function Publish(s: State, vector: seq<Float>, entry: Linear): State {
    s.(vectors := s.vectors + [vector], current := |s.vectors|, order := s.order + [entry])
  }

  function Step(s: State, a: Action): State
    requires Enabled(s, a) && Safe(s, a)
  {
    match a
    case Begin(id, op) =>
      s.(running := s.running[id := Thread(op, if op.Overwrite? then Checking else Looping, |s.order|)])
    case CheckIndex(id) =>
      var th := s.running[id];
      if InBounds(th.op, s.vectors[s.current]) then s.(running := s.running[id := th.(phase := Looping)])
      else s.(running := s.running - {id}, done := s.done[id := Rejected(th.op, th.begun, |s.order|)])
    case Load(id) => s.(running := s.running[id := s.running[id].(phase := Loaded(s.current))])
    case CompareAndSwap(id) =>
      var th := s.running[id];
      if th.phase.snapshot != s.current then s.(running := s.running[id := th.(phase := Loaded(s.current))])
      else
        Publish(s, Rebuilt(th.op, s.vectors[th.phase.snapshot]), Swapped(id, th.op))
        .(running := s.running - {id}, done := s.done[id := Stored(th.op, th.begun, |s.order| + 1)])
    case GetHistory => s.(handedOut := s.handedOut[s.current := s.vectors[s.current]])
    case Insert(history) => Publish(s, history, Replaced(history))
  }

  // ---- The sequential meaning of the linearization ----

  /** The history after performing `order` one entry at a time. An entry that would index out of
      bounds has no meaning; `Legal` says that there is none. */
  function Replay(initial: seq<Float>, order: seq<Linear>): seq<Float> {
    if order == [] then initial else After(order[|order| - 1], Replay(initial, order[..|order| - 1]))
  }

  function After(entry: Linear, before: seq<Float>): seq<Float> {
    if entry.Replaced? then entry.history else if InBounds(entry.op, before) then Rebuilt(entry.op, before) else before
  }

  /** What each entry of the order does to the history. */
  lemma EntriesMean(before: seq<Float>, id: ThreadId, index: nat, value: Float, history: seq<Float>)
    ensures After(Swapped(id, Append(value)), before) == before + [value]
    ensures index < |before| ==> After(Swapped(id, Overwrite(index, value)), before) == before[index := value]
    ensures After(Replaced(history), before) == history
  {
  }

  ghost predicate Legal(initial: seq<Float>, order: seq<Linear>) {
    forall i :: 0 <= i < |order| && order[i].Swapped? ==> InBounds(order[i].op, Replay(initial, order[..i]))
  }

  /** The call took effect once, at a place in the order between its start and its end. */
  ghost predicate TookEffect(order: seq<Linear>, id: ThreadId, o: Outcome) {
    && o.Stored? && o.begun < o.ended <= |order|
    && order[o.ended - 1] == Swapped(id, o.op)
    && forall i :: 0 <= i < |order| && order[i].Swapped? && order[i].thread == id ==> i == o.ended - 1
  }

  /** A rejected call's index was out of bounds at a moment between its start and its end. */
  ghost predicate RightlyRejected(initial: seq<Float>, order: seq<Linear>, o: Outcome) {
    o.Rejected? && o.begun <= o.ended <= |order| && !InBounds(o.op, Replay(initial, order[..o.ended]))
  }

  // ---- The invariant ----

  ghost predicate ThreadOk(s: State, th: Thread)
    requires s.current < |s.vectors|
  {
    && th.begun <= |s.order|
    && (!th.phase.Checking? ==> InBounds(th.op, s.vectors[s.current]))
    && (th.phase.Checking? ==> th.op.Overwrite?)
    && (th.phase.Loaded? ==> th.phase.snapshot < |s.vectors| && InBounds(th.op, s.vectors[th.phase.snapshot]))
  }

  ghost predicate Inv(initial: seq<Float>, s: State) {
    && s.current < |s.vectors|
    && s.vectors[s.current] == Replay(initial, s.order)
    && Legal(initial, s.order)
    && (forall id :: id in s.running ==> id !in s.done)
    && (forall id :: id in s.running ==> ThreadOk(s, s.running[id]))
    && (forall id :: id in s.done ==>
          TookEffect(s.order, id, s.done[id]) || RightlyRejected(initial, s.order, s.done[id]))
    && (forall i :: 0 <= i < |s.order| && s.order[i].Swapped? ==>
          s.order[i].thread in s.done && s.done[s.order[i].thread].Stored?)
    && (forall p :: p in s.handedOut ==> p < |s.vectors| && s.vectors[p] == s.handedOut[p])
  }

  lemma InitInv(initial: seq<Float>)
    ensures Inv(initial, Init(initial))
  {
  }

  lemma InvIsSafe(initial: seq<Float>, s: State, a: Action)
    requires Inv(initial, s) && Enabled(s, a)
    ensures Safe(s, a)
  {
  }

  lemma ReplayMore(initial: seq<Float>, order: seq<Linear>, entry: Linear)
    ensures Replay(initial, order + [entry]) == After(entry, Replay(initial, order))
    ensures forall i :: 0 <= i <= |order| ==> (order + [entry])[..i] == order[..i]
  {
    assert (order + [entry])[..|order|] == order;
  }

  lemma LegalMore(initial: seq<Float>, order: seq<Linear>, entry: Linear)
    requires Legal(initial, order) && (entry.Swapped? ==> InBounds(entry.op, Replay(initial, order)))
    ensures Legal(initial, order + [entry])
  {
    var longer := order + [entry];
    ReplayMore(initial, order, entry);
    assert order[..|order|] == order;
    forall i | 0 <= i < |longer| && longer[i].Swapped?
      ensures InBounds(longer[i].op, Replay(initial, longer[..i]))
    {
      assert longer[..i] == order[..i];
    }
  }

  /** Outcomes recorded before stay right when the order grows. */
  lemma OutcomeKept(initial: seq<Float>, order: seq<Linear>, entry: Linear, id: ThreadId, o: Outcome)
    requires TookEffect(order, id, o) || RightlyRejected(initial, order, o)
    requires entry.Swapped? ==> entry.thread != id
    ensures TookEffect(order + [entry], id, o) || RightlyRejected(initial, order + [entry], o)
  {
    if RightlyRejected(initial, order, o) {
      assert (order + [entry])[..o.ended] == order[..o.ended];
    }
  }

  lemma SwapKeepsOutcomes(initial: seq<Float>, s: State, id: ThreadId, op: HistoryOp, done: map<ThreadId, Outcome>)
    requires Inv(initial, s) && id in s.running && s.running[id].op == op
    requires done == s.done[id := Stored(op, s.running[id].begun, |s.order| + 1)]
    ensures forall other :: other in done ==>
              TookEffect(s.order + [Swapped(id, op)], other, done[other])
              || RightlyRejected(initial, s.order + [Swapped(id, op)], done[other])
  {
    var order := s.order + [Swapped(id, op)];
    forall other | other in done
      ensures TookEffect(order, other, done[other]) || RightlyRejected(initial, order, done[other])
    {
      if other == id {
        assert TookEffect(order, id, done[id]);
      } else {
        OutcomeKept(initial, s.order, Swapped(id, op), other, s.done[other]);
      }
    }
  }

  /** A new vector is never shorter, so what was in bounds stays so. */
  lemma SwapKeepsThread(s: State, th: Thread, vector: seq<Float>, entry: Linear)
    requires s.current < |s.vectors| && ThreadOk(s, th) && |s.vectors[s.current]| <= |vector|
    ensures ThreadOk(Publish(s, vector, entry), th)
  {
  }

  lemma ThreadsOnly(s: State, th: Thread, running: map<ThreadId, Thread>, done: map<ThreadId, Outcome>)
    requires s.current < |s.vectors| && ThreadOk(s, th)
    ensures ThreadOk(s.(running := running, done := done), th)
  {
  }

  lemma SwapKeepsInv(initial: seq<Float>, s: State, id: ThreadId)
    requires Inv(initial, s) && Enabled(s, CompareAndSwap(id)) && Safe(s, CompareAndSwap(id))
    requires s.running[id].phase.snapshot == s.current
    ensures Inv(initial, Step(s, CompareAndSwap(id)))
  {
    var s', th := Step(s, CompareAndSwap(id)), s.running[id];
    var entry, vector := Swapped(id, th.op), Rebuilt(th.op, s.vectors[s.current]);
    ReplayMore(initial, s.order, entry);
    LegalMore(initial, s.order, entry);
    SwapKeepsOutcomes(initial, s, id, th.op, s'.done);
    forall other | other in s'.running
      ensures ThreadOk(s', s'.running[other])
    {
      SwapKeepsThread(s, s.running[other], vector, entry);
      ThreadsOnly(Publish(s, vector, entry), s.running[other], s'.running, s'.done);
    }
  }

  lemma InsertKeepsInv(initial: seq<Float>, s: State, history: seq<Float>)
    requires Inv(initial, s) && Enabled(s, Insert(history)) && Safe(s, Insert(history))
    ensures Inv(initial, Step(s, Insert(history)))
  {
    var s' := Step(s, Insert(history));
    ReplayMore(initial, s.order, Replaced(history));
    LegalMore(initial, s.order, Replaced(history));
    forall other | other in s'.done
      ensures TookEffect(s'.order, other, s'.done[other]) || RightlyRejected(initial, s'.order, s'.done[other])
    {
      OutcomeKept(initial, s.order, Replaced(history), other, s.done[other]);
    }
  }

  lemma CheckKeepsInv(initial: seq<Float>, s: State, id: ThreadId)
    requires Inv(initial, s) && Enabled(s, CheckIndex(id)) && Safe(s, CheckIndex(id))
    ensures Inv(initial, Step(s, CheckIndex(id)))
  {
    assert s.order[..|s.order|] == s.order;
  }

  lemma StepKeepsInv(initial: seq<Float>, s: State, a: Action)
    requires Inv(initial, s) && Enabled(s, a) && Safe(s, a)
    ensures Inv(initial, Step(s, a))
  {
    match a
    case CheckIndex(id) => CheckKeepsInv(initial, s, id);
    case CompareAndSwap(id) =>
      if s.running[id].phase.snapshot == s.current {
        SwapKeepsInv(initial, s, id);
      }
    case Insert(history) => InsertKeepsInv(initial, s, history);
    case _ =>
  }

  // ---- All runs ----

  /** `states` is a run: each state follows from the previous one by the corresponding action. */
  ghost predicate IsRun(initial: seq<Float>, states: seq<State>, actions: seq<Action>) {
    && |states| == |actions| + 1 && states[0] == Init(initial)
    && forall i :: 0 <= i < |actions| ==>
         && Enabled(states[i], actions[i])
         && (Safe(states[i], actions[i]) ==> states[i + 1] == Step(states[i], actions[i]))
  }

  lemma {:induction false} RunKeepsInv(initial: seq<Float>, states: seq<State>, actions: seq<Action>, n: nat)
    requires IsRun(initial, states, actions) && n < |states|
    ensures Inv(initial, states[n])
  {
    if n == 0 {
      InitInv(initial);
    } else {
      RunKeepsInv(initial, states, actions, n - 1);
      InvIsSafe(initial, states[n - 1], actions[n - 1]);
      StepKeepsInv(initial, states[n - 1], actions[n - 1]);
    }
  }

  /** Linearizability: at every point of every run the published history is what the successful calls
      give one at a time in swap order; each successful call is in that order exactly once, between
      its start and its end; each rejected index was out of bounds; and no step, retries included,
      indexes past the end of a vector. */
  lemma Linearizable(initial: seq<Float>, states: seq<State>, actions: seq<Action>, n: nat)
    requires IsRun(initial, states, actions) && n < |states|
    ensures var s := states[n];
            && s.current < |s.vectors| && s.vectors[s.current] == Replay(initial, s.order) && Legal(initial, s.order)
            && (forall id :: id in s.done && s.done[id].Stored? ==> TookEffect(s.order, id, s.done[id]))
            && (forall id :: id in s.done && s.done[id].Rejected? ==> RightlyRejected(initial, s.order, s.done[id]))
    ensures n < |actions| ==> Safe(states[n], actions[n])
  {
    RunKeepsInv(initial, states, actions, n);
    if n < |actions| {
      InvIsSafe(initial, states[n], actions[n]);
    }
  }

  lemma {:induction false} VectorsOnlyGrow(initial: seq<Float>, states: seq<State>, actions: seq<Action>,
                                           m: nat, n: nat)
    requires IsRun(initial, states, actions) && m <= n < |states|
    ensures states[m].vectors <= states[n].vectors
  {
    if m < n {
      VectorsOnlyGrow(initial, states, actions, m, n - 1);
      RunKeepsInv(initial, states, actions, n - 1);
      InvIsSafe(initial, states[n - 1], actions[n - 1]);
    }
  }

  /** A snapshot handed out at one point of a run holds the same values at every later point. */
  lemma SnapshotsNeverChange(initial: seq<Float>, states: seq<State>, actions: seq<Action>, m: nat, n: nat)
    requires IsRun(initial, states, actions) && m <= n < |states|
    ensures forall p :: p in states[m].handedOut ==>
              p < |states[n].vectors| && states[n].vectors[p] == states[m].handedOut[p]
  {
    RunKeepsInv(initial, states, actions, m);
    VectorsOnlyGrow(initial, states, actions, m, n);
  }

  /** Of two calls that both took effect, the one that ended before the other began comes first. */
  lemma RealTimeOrder(initial: seq<Float>, states: seq<State>, actions: seq<Action>, n: nat,
                      first: ThreadId, second: ThreadId)
    requires IsRun(initial, states, actions) && n < |states|
    requires first in states[n].done && states[n].done[first].Stored?
    requires second in states[n].done && states[n].done[second].Stored?
    requires states[n].done[first].ended <= states[n].done[second].begun
    ensures var s := states[n];
            exists i, j :: 0 <= i < j < |s.order|
              && s.order[i] == Swapped(first, s.done[first].op) && s.order[j] == Swapped(second, s.done[second].op)
  {
    RunKeepsInv(initial, states, actions, n);
    var s := states[n];
    var i, j := s.done[first].ended - 1, s.done[second].ended - 1;
    assert s.order[i] == Swapped(first, s.done[first].op) && s.order[j] == Swapped(second, s.done[second].op);
  }
}
