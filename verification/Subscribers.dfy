/** From the server's log to the subscribers: the values that the consumer stores
    (crates/calce-data/src/cdc.rs:105-140) are the writes of `NoLostSignal`, whose subscribers read them. */
module Subscribers {
  import opened Prelude
  import opened Bytes
  import opened Protocol
  import opened Cache
  import opened Listener
  import opened Replication
  import opened CdcApply
  import opened Redelivery
  import opened Pipeline
  import N = NoLostSignal

  /** Prices and rates, the cells that a time-series cache holds. */
  predicate IsCached(c: Cell) { c.PriceCell? || c.FxCell? }

  function Number(s: Store, c: Cell): Float
    requires IsCached(c) && Read(s, c).Some?
  {
    Read(s, c).value.number
  }

  // ---- What the consumer stores ----

  /** The number that an event stores in cell `c`, if it does. */
  function StoredBy(t: Texts, s: Store, e: CdcEvent, c: Cell): seq<Float>
    requires IsCached(c)
  {
    var write := Write(t, e, s.instruments, c);
    if s.alive && !Panics(t, e) && Read(s, c).Some? && write.Some? then [write.value.number] else []
  }

  /** The numbers that the events store in cell `c`, in order. */
  function StoredIn(t: Texts, s: Store, events: seq<CdcEvent>, c: Cell): seq<Float>
    requires IsCached(c)
  {
    if events == [] then [] else
    var front := events[..|events| - 1];
    StoredIn(t, s, front, c) + StoredBy(t, ApplyAll(t, s, front), events[|events| - 1], c)
  }

  function LastOr<T>(xs: seq<T>, x: T): T { if xs == [] then x else xs[|xs| - 1] }

  /** A price row raises the notification of a ticker exactly when it stores that ticker's price. */
  lemma PriceSignalIffStored(t: Texts, s: Store, e: CdcEvent, ticker: ByteString)
    requires s.alive
    ensures CurrentChanged(ticker) in PriceSignals(t, s, e) <==> StoredBy(t, s, e, PriceCell(ticker)) != []
  {
    assert |PRICES| == 6 && |FX_RATES| == 8;
  }

  lemma FxSignalIffStored(t: Texts, s: Store, e: CdcEvent, pair: Pair)
    requires s.alive
    ensures CurrentChanged(pair) in FxSignals(t, s, e) <==> StoredBy(t, s, e, FxCell(pair)) != []
  {
  }

  lemma StoredStep(t: Texts, s: Store, e: CdcEvent, c: Cell)
    requires IsCached(c) && Read(s, c).Some?
    ensures Read(Applied(t, s, e), c) == Some(NumberValue(LastOr(StoredBy(t, s, e, c), Number(s, c))))
  {
    if s.alive && !Panics(t, e) {
      AppliedReads(t, s, e, c);
    }
  }

  /** A cell ends with the last number stored in it. */
  lemma {:induction false} LastStored(t: Texts, s: Store, events: seq<CdcEvent>, c: Cell)
    requires IsCached(c) && Read(s, c).Some?
    ensures Read(ApplyAll(t, s, events), c) == Some(NumberValue(LastOr(StoredIn(t, s, events, c), Number(s, c))))
  {
    if events != [] {
      var front := events[..|events| - 1];
      LastStored(t, s, front, c);
      StoredStep(t, ApplyAll(t, s, front), events[|events| - 1], c);
    }
  }

  // ---- What the writers of a run store ----

  /** The values that a run's writers store under `g`, in order. */
  function Stores(actions: seq<N.Action>, g: Signal): seq<N.Value> {
    if actions == [] then [] else
    var last := actions[|actions| - 1];
    Stores(actions[..|actions| - 1], g) + (if last.Store? && last.signal == g then [last.value] else [])
  }

  lemma CacheStep(s: N.State, a: N.Action, g: Signal)
    requires N.Enabled(s, a) && g in s.cache
    ensures g in N.Step(s, a).cache
    ensures N.Step(s, a).cache[g] == if a.Store? && a.signal == g then a.value else s.cache[g]
  {
  }

  /** The cache holds the last value stored. */
  lemma {:induction false} CacheHoldsLast(states: seq<N.State>, actions: seq<N.Action>, n: nat, g: Signal)
    requires N.IsRun(states, actions) && n < |states| && g in states[0].cache
    ensures g in states[n].cache
    ensures states[n].cache[g] == LastOr(Stores(actions[..n], g), states[0].cache[g])
  {
    if n > 0 {
      CacheHoldsLast(states, actions, n - 1, g);
      CacheStep(states[n - 1], actions[n - 1], g);
      assert actions[..n][..n - 1] == actions[..n - 1];
    }
  }

  // ---- What the subscribers hold ----

  function Mapped(valueOf: Float -> N.Value, xs: seq<Float>): (r: seq<N.Value>)
    ensures |r| == |xs| && forall i :: 0 <= i < |xs| ==> r[i] == valueOf(xs[i])
  {
    seq(|xs|, i requires 0 <= i < |xs| => valueOf(xs[i]))
  }

  /** In this run the consumer, and nobody else, writes under `g` what the events store in cell `c`, and
      the cache starts with the cell's value. */
  ghost predicate WritesCell(states: seq<N.State>, actions: seq<N.Action>, g: Signal, valueOf: Float -> N.Value,
                             t: Texts, s0: Store, events: seq<CdcEvent>, c: Cell)
    requires IsCached(c)
  {
    && N.IsRun(states, actions) && Read(s0, c).Some?
    && g in states[0].cache && states[0].cache[g] == valueOf(Number(s0, c))
    && Stores(actions, g) == Mapped(valueOf, StoredIn(t, s0, events, c))
  }

  /** Every party has done its work, and nothing was refused for want of room. */
  ghost predicate AtRest(s: N.State, id: N.R.Id) {
    && id in s.receivers && N.Quiet(s, id)
    && s.refused == {} && s.receivers[id].missed == {}
  }

  /** Once the consumer has gone through the events and everything is at rest, each follower of a price
      or rate holds the one that applying the events leaves. */
  lemma FollowersHoldApplied(states: seq<N.State>, actions: seq<N.Action>, g: Signal, valueOf: Float -> N.Value,
                             t: Texts, s0: Store, events: seq<CdcEvent>, c: Cell, id: N.R.Id)
    requires IsCached(c) && WritesCell(states, actions, g, valueOf, t, s0, events, c)
    requires var s := states[|actions|]; AtRest(s, id) && N.Follows(s, id, g)
    ensures Read(ApplyAll(t, s0, events), c).Some?
    ensures states[|actions|].receivers[id].held[g] == valueOf(Number(ApplyAll(t, s0, events), c))
  {
    N.AtRestAllAgree(states, actions, |actions|, id);
    CacheHoldsLast(states, actions, |actions|, g);
    assert actions[..|actions|] == actions;
    LastStored(t, s0, events, c);
  }

  /** Over any history of sessions that ends caught up, however they broke and whatever was sent twice,
      and for every interleaving of writers, dispatcher, subscribers and registry: at rest, each follower
      of a price or rate holds the one that a single pass over the server's log leaves. */
  lemma FollowersConverge(states: seq<N.State>, actions: seq<N.Action>, g: Signal, valueOf: Float -> N.Value,
                          t: Texts, s0: Store, log: Log, confirmed: seq<Lsn>, sessions: seq<Session>,
                          c: Cell, id: N.R.Id)
    requires IsCached(c) && Converges(t, s0, log, confirmed, sessions)
    requires WritesCell(states, actions, g, valueOf, t, s0, EventsOf(sessions), c)
    requires var s := states[|actions|]; AtRest(s, id) && N.Follows(s, id, g)
    ensures Read(ApplyAll(t, s0, LogEvents(log)), c).Some?
    ensures states[|actions|].receivers[id].held[g] == valueOf(Number(ApplyAll(t, s0, LogEvents(log)), c))
  {
    LiveUpdatesConverge(t, s0, log, confirmed, sessions);
    FollowersHoldApplied(states, actions, g, valueOf, t, s0, EventsOf(sessions), c, id);
  }
}
