/** The live-update pipeline from the server's bytes to the stores: `start_cdc` in
    crates/calce-data/src/cdc.rs connects the listener to the consumer through a FIFO channel. */
module Pipeline {
  import opened Prelude
  import opened Protocol
  import opened Listener
  import opened Replication
  import opened CdcApply
  import opened Redelivery

  /** The stretch of the log's events that each session delivers. */
  function StretchesOf(log: Log, confirmed: seq<Lsn>, sessions: seq<Session>): seq<Stretch>
    requires ValidLog(log) && |confirmed| == |sessions| + 1
  {
    seq(|sessions|, n requires 0 <= n < |sessions| => StretchOf(log, confirmed[n], sessions[n]))
  }

  function StretchOf(log: Log, confirmed: Lsn, s: Session): Stretch
    requires ValidLog(log)
  {
    Stretch(Owed(log, confirmed), Owed(log, confirmed) + |SessionEvents(s)|)
  }

  ghost predicate Delivers(all: seq<CdcEvent>, s: Session, stretch: Stretch) {
    stretch.from <= stretch.to <= |all| && SessionEvents(s) == all[stretch.from..stretch.to]
  }

  lemma StretchFacts(log: Log, confirmed: seq<Lsn>, sessions: seq<Session>, n: nat)
    requires ServedHistory(log, confirmed, sessions) && n < |sessions|
    ensures Delivers(LogEvents(log), sessions[n], StretchOf(log, confirmed[n], sessions[n]))
    ensures Owed(log, confirmed[n + 1]) <= StretchOf(log, confirmed[n], sessions[n]).to
  {
    SessionsOverlap(log, confirmed, sessions, n);
  }

  lemma StretchesOverlap(log: Log, confirmed: seq<Lsn>, sessions: seq<Session>)
    requires ServedHistory(log, confirmed, sessions)
    ensures var stretches := StretchesOf(log, confirmed, sessions);
            && Overlapping(stretches, |LogEvents(log)|)
            && forall n :: 0 <= n < |sessions| ==> Delivers(LogEvents(log), sessions[n], stretches[n])
  {
    forall n | 0 <= n < |sessions|
      ensures Delivers(LogEvents(log), sessions[n], StretchOf(log, confirmed[n], sessions[n]))
      ensures Owed(log, confirmed[n + 1]) <= StretchOf(log, confirmed[n], sessions[n]).to
    {
      StretchFacts(log, confirmed, sessions, n);
    }
  }

  lemma {:induction false} EventsAreReplay(all: seq<CdcEvent>, sessions: seq<Session>, stretches: seq<Stretch>)
    requires |stretches| == |sessions|
    requires forall i :: 0 <= i < |stretches| ==> stretches[i].from <= stretches[i].to <= |all|
    requires forall n :: 0 <= n < |sessions| ==> Delivers(all, sessions[n], stretches[n])
    ensures EventsOf(sessions) == Replayed(all, stretches)
    decreases |sessions|
  {
    if sessions != [] {
      var n := |sessions| - 1;
      EventsAreReplay(all, sessions[..n], stretches[..n]);
    }
  }

  /** The last session has received every event of the log. */
  ghost predicate CaughtUp(log: Log, confirmed: seq<Lsn>, sessions: seq<Session>)
    requires ValidLog(log) && |confirmed| == |sessions| + 1
  {
    && sessions != []
    && var n := |sessions| - 1;
       Owed(log, confirmed[n]) + |SessionEvents(sessions[n])| == |LogEvents(log)|
  }

  /** The sessions were served from this log, which starts at the confirmed position, and the last one
      caught up; from any price row on, its instrument is listed under the same ticker, or never. */
  ghost predicate Converges(t: Texts, s0: Store, log: Log, confirmed: seq<Lsn>, sessions: seq<Session>) {
    && ServedHistory(log, confirmed, sessions)
    && CommittedBy(log, confirmed[0]) == 0 && CaughtUp(log, confirmed, sessions)
    && s0.alive && Settled(t, s0, LogEvents(log))
  }

  /** Over any history of sessions that ends caught up, however they broke and whatever was sent
      twice, the stores end as if every row change of the log had been applied exactly once. */
  lemma LiveUpdatesConverge(t: Texts, s0: Store, log: Log, confirmed: seq<Lsn>, sessions: seq<Session>)
    requires Converges(t, s0, log, confirmed, sessions)
    ensures ApplyAll(t, s0, EventsOf(sessions)) == ApplyAll(t, s0, LogEvents(log))
  {
    StretchesOverlap(log, confirmed, sessions);
    EventsAreReplay(LogEvents(log), sessions, StretchesOf(log, confirmed, sessions));
    RedeliveryHarmless(t, s0, LogEvents(log), StretchesOf(log, confirmed, sessions));
  }

  // ---- The closed channel ----

  /** Session `n` finds the event channel closed, at its start or when it sends. */
  predicate FindsClosed(s: Session) { s.channelClosed || SessionRun(s).error == Some(ChannelClosed) }

  /** What the channel has carried by the time session `n` finds it closed. */
  function SentBy(sessions: seq<Session>, n: nat): seq<CdcEvent>
    requires n < |sessions|
  {
    if sessions[n].channelClosed then EventsOf(sessions[..n]) else EventsOf(sessions[..n + 1])
  }

  /** The consumer holds the only receiver, and drops it only when it stops: a session that finds the
      channel closed comes after an event that stopped the consumer. */
  ghost predicate ClosedByConsumer(t: Texts, s0: Store, sessions: seq<Session>) {
    forall n :: 0 <= n < |sessions| && FindsClosed(sessions[n]) ==> !ApplyAll(t, s0, SentBy(sessions, n)).alive
  }

  lemma {:induction false} CalmEventsKeepAlive(t: Texts, s: Store, events: seq<CdcEvent>)
    requires s.alive && Harmless(t, events)
    ensures ApplyAll(t, s, events).alive
  {
    if events != [] {
      var front := events[..|events| - 1];
      CalmEventsKeepAlive(t, s, front);
      AppliedAlive(t, ApplyAll(t, s, front), events[|events| - 1]);
    }
  }

  lemma {:induction false} SentAreOfTheLog(all: seq<CdcEvent>, sessions: seq<Session>, stretches: seq<Stretch>)
    requires |stretches| == |sessions|
    requires forall n :: 0 <= n < |sessions| ==> Delivers(all, sessions[n], stretches[n])
    ensures forall e :: e in EventsOf(sessions) ==> e in all
    decreases |sessions|
  {
    if sessions != [] {
      var n := |sessions| - 1;
      SentAreOfTheLog(all, sessions[..n], stretches[..n]);
      assert Delivers(all, sessions[n], stretches[n]);
    }
  }

  lemma SentAreHarmless(t: Texts, log: Log, confirmed: seq<Lsn>, sessions: seq<Session>, n: nat)
    requires ServedHistory(log, confirmed, sessions) && Harmless(t, LogEvents(log)) && n <= |sessions|
    ensures Harmless(t, EventsOf(sessions[..n]))
  {
    StretchesOverlap(log, confirmed, sessions);
    SentAreOfTheLog(LogEvents(log), sessions[..n], StretchesOf(log, confirmed, sessions)[..n]);
    var sent := EventsOf(sessions[..n]);
    forall i | 0 <= i < |sent|
      ensures !Panics(t, sent[i])
    {
      assert sent[i] in LogEvents(log);
    }
  }

  /** `run` never gives up on a log in which no rate names a text that is not a currency. */
  lemma NeverGivesUp(t: Texts, s0: Store, log: Log, confirmed: seq<Lsn>, sessions: seq<Session>)
    requires ServedHistory(log, confirmed, sessions) && s0.alive && Harmless(t, LogEvents(log))
    requires ClosedByConsumer(t, s0, sessions)
    ensures Performed(sessions) == |sessions|
  {
    forall n | 0 <= n < |sessions|
      ensures !FindsClosed(sessions[n])
    {
      if FindsClosed(sessions[n]) {
        SentAreHarmless(t, log, confirmed, sessions, n);
        SentAreHarmless(t, log, confirmed, sessions, n + 1);
        CalmEventsKeepAlive(t, s0, SentBy(sessions, n));
      }
    }
    AllPerformed(sessions);
  }

  lemma {:induction false} AllPerformed(sessions: seq<Session>)
    requires forall n :: 0 <= n < |sessions| ==> !FindsClosed(sessions[n])
    ensures Performed(sessions) == |sessions|
  {
    if sessions != [] {
      assert !FindsClosed(sessions[0]);
      forall n | 0 <= n < |sessions[1..]|
        ensures !FindsClosed(sessions[1..][n])
      {
        assert sessions[1..][n] == sessions[n + 1];
      }
      AllPerformed(sessions[1..]);
    }
  }

  /** `start_cdc`: the events of the performed sessions, in order, go through the consumer; whenever these
      sessions catch up with the server's log, the stores end as if each of its row changes had been
      applied exactly once; and no session is left out unless some event stops the consumer. */
  method StartCdc(consumer: EventConsumer, sessions: seq<Session>)
    modifies consumer, consumer.prices`data, consumer.prices.notifier
    modifies consumer.fxRates`data, consumer.fxRates.notifier
    ensures consumer.State()
         == ApplyAll(consumer.texts, old(consumer.State()), EventsOf(sessions[..Performed(sessions)]))
    ensures forall log, confirmed ::
              Converges(consumer.texts, old(consumer.State()), log, confirmed, sessions[..Performed(sessions)])
              ==> consumer.State() == ApplyAll(consumer.texts, old(consumer.State()), LogEvents(log))
    ensures forall log, confirmed ::
              Converges(consumer.texts, old(consumer.State()), log, confirmed, sessions)
              && Harmless(consumer.texts, LogEvents(log))
              && ClosedByConsumer(consumer.texts, old(consumer.State()), sessions)
              ==> consumer.State() == ApplyAll(consumer.texts, old(consumer.State()), LogEvents(log))
  {
    var listener := new CdcListener();
    listener.Run(sessions);
    ghost var sent := EventsOf(sessions[..Performed(sessions)]);
    assert [] + sent == sent;
    consumer.Consume(listener.events);
    ghost var t, s0, performed := consumer.texts, old(consumer.State()), sessions[..Performed(sessions)];
    forall log, confirmed | Converges(t, s0, log, confirmed, performed)
      ensures consumer.State() == ApplyAll(t, s0, LogEvents(log))
    {
      LiveUpdatesConverge(t, s0, log, confirmed, performed);
    }
    forall log, confirmed | Converges(t, s0, log, confirmed, sessions) && Harmless(t, LogEvents(log))
                            && ClosedByConsumer(t, s0, sessions)
      ensures consumer.State() == ApplyAll(t, s0, LogEvents(log))
    {
      NeverGivesUp(t, s0, log, confirmed, sessions);
      assert performed == sessions;
    }
  }
}
