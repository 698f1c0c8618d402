/** The coalescing dispatcher (crates/calce-datastructs/src/pubsub.rs:184-191 and 313-397) over every
    schedule of arriving events and client calls, those between two fan-outs included: what its statistics
    mean, and that every event it receives is followed by one fan-out of its batch. */
module Dispatcher {
  import opened Cache
  import opened R = RegistrySteps
  import opened PubSub

  datatype Stats = Stats(received: nat, coalesced: nat, sent: nat, dropped: nat, batches: nat)

  const NO_STATS := Stats(0, 0, 0, 0, 0)

  /** What clients do meanwhile; the last two are a receiver's. */
  datatype ClientCall =
    | Subscribe(keys: seq<Key>, bufferSize: nat)
    | SubscribeAll(bufferSize: nat)
    | Unsubscribe(id: Id)
    | Take(id: Id)
    | Drop(id: Id)

  /** What clients do before one fan-out of a flush. */
  datatype Calls = Calls(list: seq<ClientCall>)

  /** One turn of the loop: the event that wakes it, those already waiting, what clients do and which
      events arrive during the coalescing window, and what clients do between the fan-outs. */
  datatype Round = Round(first: Signal, waiting: seq<Signal>, clients: seq<ClientCall>, arriving: seq<Signal>,
                         between: seq<Calls>)

  /** How the loop ends: by the stop signal, with these events left in the channel, or because every
      sender is gone. */
  datatype Ending = Stop(left: seq<Signal>, between: seq<Calls>) | Closed

  datatype Batch = Batch(events: seq<Signal>)

  function BatchOf(round: Round): Batch { Batch([round.first] + round.waiting + round.arriving) }

  function Batches(rounds: seq<Round>): seq<Batch> {
    if rounds == [] then [] else Batches(rounds[..|rounds| - 1]) + [BatchOf(rounds[|rounds| - 1])]
  }

  lemma BatchesSoFar(rounds: seq<Round>, i: nat)
    requires i < |rounds|
    ensures Batches(rounds[..i + 1]) == Batches(rounds[..i]) + [BatchOf(rounds[i])]
  {
    assert rounds[..i + 1][..i] == rounds[..i];
  }

  function LeftOver(ending: Ending): seq<Signal> { if ending.Stop? then ending.left else [] }

  function LastBatch(ending: Ending): seq<Batch> {
    if LeftOver(ending) != [] then [Batch(LeftOver(ending))] else []
  }

  function Coalesced(events: seq<Signal>): set<Signal> { set e | e in events }

  function Received(batches: seq<Batch>): nat {
    if batches == [] then 0 else Received(batches[..|batches| - 1]) + |batches[|batches| - 1].events|
  }

  /** How many fan-outs the first `n` batches take: one for each distinct event of each batch. */
  function Offset(batches: seq<Batch>, n: nat): nat
    requires n <= |batches|
  {
    if n == 0 then 0 else Offset(batches, n - 1) + |Coalesced(batches[n - 1].events)|
  }

  function Events(log: seq<FanOutRecord>): (r: seq<Signal>)
    ensures |r| == |log|
  {
    seq(|log|, i requires 0 <= i < |log| => log[i].event)
  }

  function Accepted(log: seq<FanOutRecord>): nat {
    if log == [] then 0 else Accepted(log[..|log| - 1]) + |log[|log| - 1].accepted|
  }

  function Addressed(log: seq<FanOutRecord>): nat {
    if log == [] then 0 else Addressed(log[..|log| - 1]) + |log[|log| - 1].present|
  }

  /** The fan-outs of a batch: each of its distinct events once. */
  ghost predicate FansOut(log: seq<FanOutRecord>, events: set<Signal>) {
    multiset(Events(log)) == multiset(events)
  }

  /** The fan-outs come batch by batch. */
  ghost predicate InBatches(log: seq<FanOutRecord>, batches: seq<Batch>)
    decreases |batches|
  {
    if batches == [] then log == [] else
    var last := Coalesced(batches[|batches| - 1].events);
    && |last| <= |log|
    && FansOut(log[|log| - |last|..], last)
    && InBatches(log[..|log| - |last|], batches[..|batches| - 1])
  }

  lemma {:induction false} AcceptedConcat(a: seq<FanOutRecord>, b: seq<FanOutRecord>)
    ensures Accepted(a + b) == Accepted(a) + Accepted(b) && Addressed(a + b) == Addressed(a) + Addressed(b)
  {
    if b == [] {
      assert a + b == a;
    } else {
      AcceptedConcat(a, b[..|b| - 1]);
      assert (a + b)[..|a + b| - 1] == a + b[..|b| - 1];
    }
  }

  lemma FansOutCount(log: seq<FanOutRecord>, events: set<Signal>)
    requires FansOut(log, events)
    ensures |log| == |events|
  {
    assert |multiset(Events(log))| == |log|;
  }

  lemma FansOutOneMore(log: seq<FanOutRecord>, events: set<Signal>, r: FanOutRecord)
    requires FansOut(log, events) && r.event !in events
    ensures FansOut(log + [r], events + {r.event})
  {
    assert Events(log + [r]) == Events(log) + [r.event];
  }

  lemma AnotherBatch(log: seq<FanOutRecord>, batches: seq<Batch>, more: seq<FanOutRecord>, batch: Batch)
    requires InBatches(log, batches) && FansOut(more, Coalesced(batch.events))
    ensures InBatches(log + more, batches + [batch])
  {
    FansOutCount(more, Coalesced(batch.events));
    assert (batches + [batch])[..|batches|] == batches;
    assert (log + more)[..|log|] == log && (log + more)[|log|..] == more;
  }

  // ---- What the fan-outs of a run mean ----

  lemma {:induction false} OffsetPrefix(batches: seq<Batch>, n: nat, m: nat)
    requires n <= m <= |batches|
    ensures Offset(batches[..m], n) == Offset(batches, n)
  {
    if n > 0 {
      OffsetPrefix(batches, n - 1, m);
    }
  }

  lemma {:induction false} InBatchesCount(log: seq<FanOutRecord>, batches: seq<Batch>)
    requires InBatches(log, batches)
    ensures |log| == Offset(batches, |batches|)
    decreases |batches|
  {
    if batches != [] {
      var last := Coalesced(batches[|batches| - 1].events);
      InBatchesCount(log[..|log| - |last|], batches[..|batches| - 1]);
      OffsetPrefix(batches, |batches| - 1, |batches| - 1);
    }
  }

  lemma LastBatchAt(log: seq<FanOutRecord>, batches: seq<Batch>)
    requires InBatches(log, batches) && batches != []
    ensures var n := |batches| - 1;
            Offset(batches, n) == |log| - |Coalesced(batches[n].events)| && Offset(batches, n + 1) == |log|
  {
    InBatchesCount(log, batches);
  }

  /** The fan-outs of batch `i` stand together, after those of the batches before it. */
  lemma {:induction false} BatchAt(log: seq<FanOutRecord>, batches: seq<Batch>, i: nat)
    requires InBatches(log, batches) && i < |batches|
    ensures Offset(batches, i) <= Offset(batches, i + 1) <= |log|
    ensures FansOut(log[Offset(batches, i)..Offset(batches, i + 1)], Coalesced(batches[i].events))
    decreases |batches|
  {
    var n := |batches| - 1;
    LastBatchAt(log, batches);
    if i < n {
      var front := log[..Offset(batches, n)];
      BatchAt(front, batches[..n], i);
      OffsetPrefix(batches, i, n);
      OffsetPrefix(batches, i + 1, n);
      assert log[Offset(batches, i)..Offset(batches, i + 1)] == front[Offset(batches, i)..Offset(batches, i + 1)];
    } else {
      assert log[Offset(batches, n)..Offset(batches, n + 1)] == log[|log| - |Coalesced(batches[n].events)|..];
    }
  }

  /** Every event of batch `i` is fanned out exactly once with that batch, and nothing else is. */
  lemma EachEventOncePerBatch(log: seq<FanOutRecord>, batches: seq<Batch>, i: nat, e: Signal)
    requires InBatches(log, batches) && i < |batches|
    ensures Offset(batches, i) <= Offset(batches, i + 1) <= |log|
    ensures multiset(Events(log[Offset(batches, i)..Offset(batches, i + 1)]))[e]
            == if e in batches[i].events then 1 else 0
  {
    BatchAt(log, batches, i);
  }

  // ---- The dispatcher ----

  /** What the fan-outs in `part` add to the statistics. */
  ghost predicate Tallied(before: Stats, after: Stats, part: seq<FanOutRecord>) {
    && after.sent == before.sent + Accepted(part)
    && after.sent + after.dropped == before.sent + before.dropped + Addressed(part)
  }

  lemma TalliedOneMore(before: Stats, between: Stats, part: seq<FanOutRecord>, r: FanOutRecord)
    requires Tallied(before, between, part) && |r.accepted| <= |r.present|
    ensures Tallied(before, between.(sent := between.sent + |r.accepted|,
                                     dropped := between.dropped + (|r.present| - |r.accepted|)), part + [r])
  {
    assert (part + [r])[..|part|] == part;
  }

  lemma FlushedOneMore(all: set<Signal>, left: set<Signal>, part: seq<FanOutRecord>, r: FanOutRecord)
    requires FansOut(part, all - left) && r.event in left && left <= all
    ensures FansOut(part + [r], all - (left - {r.event}))
  {
    FansOutOneMore(part, all - left, r);
    assert all - (left - {r.event}) == all - left + {r.event};
  }

  lemma TalliedTogether(a: Stats, b: Stats, c: Stats, first: seq<FanOutRecord>, second: seq<FanOutRecord>)
    requires Tallied(a, b, first) && Tallied(b, c, second)
    ensures Tallied(a, c, first + second)
  {
    AcceptedConcat(first, second);
  }

  class Dispatcher {
    const registry: SubscriptionRegistry
    var pending: set<Signal>
    var stats: Stats
    /** How many fan-outs the registry had done before this dispatcher. */
    ghost const since: nat

    /** Events received are the ones coalesced, the fan-outs done and the ones pending. */
    ghost predicate Balanced()
      reads this, registry
    {
      since <= |registry.log| && stats.received == stats.coalesced + (|registry.log| - since) + |pending|
    }

    constructor (registry: SubscriptionRegistry)
      ensures this.registry == registry && pending == {} && stats == NO_STATS && Balanced()
    {
      this.registry := registry;
      pending, stats := {}, NO_STATS;
      since := |registry.log|;
      new;
      assert |pending| == 0;
    }

    /** The key and kind of an event determine it, so the pending map is a set. */
    method Coalesce(event: Signal)
      requires Balanced()
      modifies this
      ensures Balanced() && pending == old(pending) + {event}
      ensures stats == old(stats).(received := old(stats).received + 1, coalesced := stats.coalesced)
      ensures stats.coalesced == old(stats).coalesced + if event in old(pending) then 1 else 0
    {
      stats := stats.(received := stats.received + 1);
      if event in pending {
        assert pending + {event} == pending;
        stats := stats.(coalesced := stats.coalesced + 1);
      }
      pending := pending + {event};
    }

    method CoalesceAll(events: seq<Signal>)
      requires Balanced()
      modifies this
      ensures Balanced() && pending == old(pending) + Coalesced(events)
      ensures stats == old(stats).(received := old(stats).received + |events|, coalesced := stats.coalesced)
    {
      for i := 0 to |events|
        invariant Balanced() && pending == old(pending) + Coalesced(events[..i])
        invariant stats == old(stats).(received := old(stats).received + i, coalesced := stats.coalesced)
      {
        assert events[..i + 1] == events[..i] + [events[i]];
        Coalesce(events[i]);
      }
      assert events[..|events|] == events;
    }

    /** One turn of the flush: an event leaves the pending map and is fanned out. */
    method FlushOne(event: Signal) returns (ghost r: FanOutRecord)
      requires Balanced() && registry.Valid() && event in pending
      modifies this, registry
      ensures Balanced() && registry.Valid() && pending == old(pending) - {event}
      ensures registry.log == old(registry.log) + [r] && r.event == event && |r.accepted| <= |r.present|
      ensures stats == old(stats).(sent := old(stats).sent + |r.accepted|,
                                   dropped := old(stats).dropped + (|r.present| - |r.accepted|))
    {
      pending := pending - {event};
      var sent, dropped := registry.FanOut(event);
      r := registry.log[|registry.log| - 1];
      stats := stats.(sent := stats.sent + sent, dropped := stats.dropped + dropped);
    }

    /** Fans out every pending event once, in the map's own order, whatever clients do in between. */
    method FlushPending(between: seq<Calls>) returns (ghost part: seq<FanOutRecord>)
      requires Balanced() && registry.Valid()
      modifies this, registry
      ensures Balanced() && registry.Valid() && pending == {}
      ensures registry.log == old(registry.log) + part && FansOut(part, old(pending))
      ensures Tallied(old(stats), stats, part)
      ensures stats.received == old(stats).received && stats.coalesced == old(stats).coalesced
      ensures stats.batches == old(stats).batches + if old(pending) == {} then 0 else 1
    {
      part := [];
      assert registry.log + part == registry.log && Events(part) == [];
      if pending == {} {
        return;
      }
      stats := stats.(batches := stats.batches + 1);
      var turn := 0;
      while pending != {}
        invariant Balanced() && registry.Valid() && pending <= old(pending)
        invariant registry.log == old(registry.log) + part && FansOut(part, old(pending) - pending)
        invariant Tallied(old(stats), stats, part)
        invariant stats.received == old(stats).received && stats.coalesced == old(stats).coalesced
        invariant stats.batches == old(stats).batches + 1
        decreases pending
      {
        if turn < |between| {
          Serve(between[turn].list);
        }
        turn := turn + 1;
        var event :| event in pending;
        ghost var left, counted := pending, stats;
        ghost var r := FlushOne(event);
        FlushedOneMore(old(pending), left, part, r);
        TalliedOneMore(old(stats), counted, part, r);
        assert old(registry.log) + part + [r] == old(registry.log) + (part + [r]);
        part := part + [r];
      }
      assert old(pending) - pending == old(pending);
    }

    /** What clients do; no event is fanned out meanwhile. */
    method Serve(calls: seq<ClientCall>)
      requires registry.Valid()
      modifies registry
      ensures registry.Valid() && registry.log == old(registry.log)
    {
      for i := 0 to |calls|
        invariant registry.Valid() && registry.log == old(registry.log)
      {
        match calls[i] {
          case Subscribe(keys, bufferSize) => var _ := registry.Subscribe(keys, bufferSize);
          case SubscribeAll(bufferSize) => var _ := registry.SubscribeAll(bufferSize);
          case Unsubscribe(id) => registry.Unsubscribe(id);
          case Take(id) => var _ := registry.Take(id);
          case Drop(id) => registry.Drop(id);
        }
      }
    }

    method RunRound(round: Round) returns (ghost part: seq<FanOutRecord>)
      requires Balanced() && registry.Valid() && pending == {}
      modifies this, registry
      ensures Balanced() && registry.Valid() && pending == {}
      ensures registry.log == old(registry.log) + part && FansOut(part, Coalesced(BatchOf(round).events))
      ensures Tallied(old(stats), stats, part)
      ensures stats.received == old(stats).received + |BatchOf(round).events|
      ensures stats.batches == old(stats).batches + 1
    {
      Coalesce(round.first);
      CoalesceAll(round.waiting);
      Serve(round.clients);
      CoalesceAll(round.arriving);
      assert pending == Coalesced(BatchOf(round).events) && round.first in pending;
      part := FlushPending(round.between);
    }

    /** Whatever events arrive and whatever clients do: every event received is fanned out once with its
        batch, those left when the dispatcher is stopped included, and the statistics it returns count
        exactly the events, the duplicates within a batch, and the sends. */
    method Run(rounds: seq<Round>, ending: Ending) returns (r: Stats, ghost part: seq<FanOutRecord>)
      requires Balanced() && registry.Valid() && pending == {} && stats == NO_STATS
      modifies this, registry
      ensures Balanced() && registry.Valid() && pending == {}
      ensures registry.log == old(registry.log) + part && InBatches(part, Batches(rounds) + LastBatch(ending))
      ensures var batches := Batches(rounds) + LastBatch(ending);
              r.received == Received(batches) && r.batches == |batches|
              && r.received == r.coalesced + Offset(batches, |batches|)
              && r.sent == Accepted(part) && r.sent + r.dropped == Addressed(part)
    {
      part := RunRounds(rounds);
      ghost var before, log := stats, registry.log;
      ghost var more := Finish(ending);
      LastRun(Batches(rounds), part, before, ending, more, stats);
      ExtendsFurther(log, old(registry.log), part, more);
      part := part + more;
      InBatchesCount(part, Batches(rounds) + LastBatch(ending));
      r := stats;
    }

    /** The last flush: after a stop signal what is left in the channel, otherwise nothing. */
    method Finish(ending: Ending) returns (ghost part: seq<FanOutRecord>)
      requires Balanced() && registry.Valid() && pending == {}
      modifies this, registry
      ensures Balanced() && registry.Valid() && pending == {}
      ensures registry.log == old(registry.log) + part && FansOut(part, Coalesced(LeftOver(ending)))
      ensures Tallied(old(stats), stats, part)
      ensures stats.received == old(stats).received + |LeftOver(ending)|
      ensures stats.batches == old(stats).batches + |LastBatch(ending)|
    {
      if ending.Stop? {
        CoalesceAll(ending.left);
      }
      assert pending == Coalesced(LeftOver(ending));
      assert LeftOver(ending) != [] ==> LeftOver(ending)[0] in pending;
      part := FlushPending(if ending.Stop? then ending.between else []);
    }

    method RunRounds(rounds: seq<Round>) returns (ghost part: seq<FanOutRecord>)
      requires Balanced() && registry.Valid() && pending == {} && stats == NO_STATS
      modifies this, registry
      ensures Balanced() && registry.Valid() && pending == {}
      ensures registry.log == old(registry.log) + part && RunSoFar(Batches(rounds), part, stats)
    {
      part := [];
      for i := 0 to |rounds|
        invariant Balanced() && registry.Valid() && pending == {}
        invariant Extends(registry.log, old(registry.log), part)
        invariant RunSoFar(Batches(rounds[..i]), part, stats)
      {
        BatchesSoFar(rounds, i);
        ghost var before, log := stats, registry.log;
        ghost var more := RunRound(rounds[i]);
        OneMoreBatch(Batches(rounds[..i]), part, before, BatchOf(rounds[i]), more, stats);
        ExtendsFurther(log, old(registry.log), part, more);
        part := part + more;
      }
      assert rounds[..|rounds|] == rounds;
    }
  }

  lemma LastRun(done: seq<Batch>, part: seq<FanOutRecord>, before: Stats, ending: Ending, more: seq<FanOutRecord>,
                after: Stats)
    requires RunSoFar(done, part, before)
    requires FansOut(more, Coalesced(LeftOver(ending))) && Tallied(before, after, more)
    requires after.received == before.received + |LeftOver(ending)|
    requires after.batches == before.batches + |LastBatch(ending)|
    ensures RunSoFar(done + LastBatch(ending), part + more, after)
  {
    if LeftOver(ending) == [] {
      FansOutCount(more, Coalesced(LeftOver(ending)));
      assert done + LastBatch(ending) == done && part + more == part;
    } else {
      OneMoreBatch(done, part, before, Batch(LeftOver(ending)), more, after);
    }
  }

  ghost predicate Extends(log: seq<FanOutRecord>, before: seq<FanOutRecord>, part: seq<FanOutRecord>) {
    log == before + part
  }

  lemma ExtendsFurther(log: seq<FanOutRecord>, before: seq<FanOutRecord>, part: seq<FanOutRecord>,
                       more: seq<FanOutRecord>)
    requires Extends(log, before, part)
    ensures Extends(log + more, before, part + more)
  {
  }

  ghost predicate RunSoFar(done: seq<Batch>, part: seq<FanOutRecord>, stats: Stats) {
    && InBatches(part, done) && Tallied(NO_STATS, stats, part)
    && stats.received == Received(done) && stats.batches == |done|
  }

  lemma OneMoreBatch(done: seq<Batch>, part: seq<FanOutRecord>, before: Stats, batch: Batch, more: seq<FanOutRecord>,
                     after: Stats)
    requires RunSoFar(done, part, before)
    requires FansOut(more, Coalesced(batch.events)) && Tallied(before, after, more)
    requires after.received == before.received + |batch.events| && after.batches == before.batches + 1
    ensures RunSoFar(done + [batch], part + more, after)
  {
    AnotherBatch(part, done, more, batch);
    TalliedTogether(NO_STATS, before, after, part, more);
    assert (done + [batch])[..|done|] == done;
  }
}
