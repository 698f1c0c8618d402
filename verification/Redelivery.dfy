/** When redelivery is harmless: applying overlapping stretches of the event log, as reconnects produce
    them, ends in the same store as applying each event once, if the instrument of a price row is not listed
    anew afterwards; and exactly what goes wrong otherwise. */
module Redelivery {
  import opened Prelude
  import opened Bytes
  import opened Listener
  import opened Cache
  import opened CdcApply

  // ---- Applying each event once ----

  /** The store after the first `k` events, each applied once. */
  function Once(t: Texts, s0: Store, log: seq<CdcEvent>, k: nat): Store
    requires k <= |log|
  {
    if k == 0 then s0 else Applied(t, Once(t, s0, log, k - 1), log[k - 1])
  }

  /** The instruments listed by the first `k` events on top of the seed. */
  function Listed(t: Texts, seed: map<int, ByteString>, log: seq<CdcEvent>, k: nat): map<int, ByteString>
    requires k <= |log|
  {
    if k == 0 then seed else ListInstrument(t, Listed(t, seed, log, k - 1), log[k - 1])
  }

  function Lookup(instruments: map<int, ByteString>, id: int): Option<ByteString> {
    if id in instruments then Some(instruments[id]) else None
  }

  /** From any price row on, its instrument is listed under the same ticker, or never. What comes after
      an event that stops the consumer does not matter. */
  ghost predicate Settled(t: Texts, s0: Store, log: seq<CdcEvent>) {
    forall k, m :: 0 <= k <= m <= |log| && k < |log| && Once(t, s0, log, m).alive ==>
      SettledBetween(t, s0.instruments, log, k, m)
  }

  predicate SettledBetween(t: Texts, seed: map<int, ByteString>, log: seq<CdcEvent>, k: nat, m: nat)
    requires k < |log| && m <= |log|
  {
    match Pricing(t, log[k])
    case Some((id, _)) => Lookup(Listed(t, seed, log, m), id) == Lookup(Listed(t, seed, log, k), id)
    case None => true
  }

  /** No row lists a known instrument under another ticker. */
  ghost predicate OneTicker(t: Texts, seed: map<int, ByteString>, log: seq<CdcEvent>) {
    forall k :: 0 <= k < |log| ==> KeepsTickers(t, Listed(t, seed, log, k), log[k])
  }

  predicate KeepsTickers(t: Texts, known: map<int, ByteString>, e: CdcEvent) {
    match Listing(t, e)
    case Some((id, ticker)) => id in known ==> known[id] == ticker
    case None => true
  }

  /** Every price row comes after its instrument is listed. */
  ghost predicate KnownFirst(t: Texts, seed: map<int, ByteString>, log: seq<CdcEvent>) {
    forall k :: 0 <= k < |log| ==> IsKnown(t, Listed(t, seed, log, k), log[k])
  }

  predicate IsKnown(t: Texts, known: map<int, ByteString>, e: CdcEvent) {
    PricedId(t, e).Some? ==> PricedId(t, e).value in known
  }

  // ---- Overlapping stretches ----

  datatype Stretch = Stretch(from: nat, to: nat)

  /** The stretches start at the beginning, each one starts at or before the end of the previous one,
      and the last one reaches the end of the log. */
  ghost predicate CatchesUp(stretches: seq<Stretch>, n: nat) {
    && stretches != [] && stretches[0].from == 0 && stretches[|stretches| - 1].to == n
    && Overlapping(stretches, n)
  }

  ghost predicate Overlapping(stretches: seq<Stretch>, n: nat) {
    && (forall i :: 0 <= i < |stretches| ==> stretches[i].from <= stretches[i].to <= n)
    && (forall i :: 0 <= i < |stretches| - 1 ==> stretches[i + 1].from <= stretches[i].to)
  }

  function Replayed(log: seq<CdcEvent>, stretches: seq<Stretch>): seq<CdcEvent>
    requires forall i :: 0 <= i < |stretches| ==> stretches[i].from <= stretches[i].to <= |log|
  {
    if stretches == [] then [] else
    var last := stretches[|stretches| - 1];
    Replayed(log, stretches[..|stretches| - 1]) + log[last.from..last.to]
  }

  // ---- One event, cell by cell ----

  /** The parts of the store that no event changes: histories and which keys exist. */
  ghost predicate SameFrame(s: Store, s': Store) {
    && s.prices.Keys == s'.prices.Keys && s.fxRates.Keys == s'.fxRates.Keys && s.users.Keys == s'.users.Keys
    && (forall k :: k in s.prices ==> s.prices[k].history == s'.prices[k].history)
    && (forall k :: k in s.fxRates ==> s.fxRates[k].history == s'.fxRates[k].history)
  }

  lemma AppliedFrame(t: Texts, s: Store, e: CdcEvent)
    ensures SameFrame(s, Applied(t, s, e))
  {
  }

  lemma AppliedReads(t: Texts, s: Store, e: CdcEvent, c: Cell)
    requires s.alive && !Panics(t, e)
    ensures Read(Applied(t, s, e), c) == Overwritten(Read(s, c), Write(t, e, s.instruments, c), c.TickerCell?)
  {
    if IsUpsert(e, PRICES) {
      PriceReads(t, s, e, c);
    } else if IsUpsert(e, FX_RATES) {
      QuoteReads(t, s, e, c);
    } else {
      OtherReads(t, s, e, c);
    }
  }

  /** A write takes effect where something is already stored, or anywhere if `adds`. */
  function Overwritten(now: Option<Value>, write: Option<Value>, adds: bool): Option<Value> {
    if write.Some? && (adds || now.Some?) then write else now
  }

  lemma PriceReads(t: Texts, s: Store, e: CdcEvent, c: Cell)
    requires s.alive && IsUpsert(e, PRICES)
    ensures Read(Applied(t, s, e), c) == Overwritten(Read(s, c), Write(t, e, s.instruments, c), c.TickerCell?)
  {
  }

  lemma QuoteReads(t: Texts, s: Store, e: CdcEvent, c: Cell)
    requires s.alive && IsUpsert(e, FX_RATES) && !Panics(t, e)
    ensures Read(Applied(t, s, e), c) == Overwritten(Read(s, c), Write(t, e, s.instruments, c), c.TickerCell?)
  {
  }

  lemma OtherReads(t: Texts, s: Store, e: CdcEvent, c: Cell)
    requires s.alive && !IsUpsert(e, PRICES) && !IsUpsert(e, FX_RATES)
    ensures Read(Applied(t, s, e), c) == Overwritten(Read(s, c), Write(t, e, s.instruments, c), c.TickerCell?)
  {
  }

  lemma AppliedAlive(t: Texts, s: Store, e: CdcEvent)
    ensures Applied(t, s, e).alive <==> s.alive && !Panics(t, e)
    ensures Applied(t, s, e).alive ==> Applied(t, s, e).instruments == ListInstrument(t, s.instruments, e)
  {
  }

  /** Stores that agree on every cell and on the frame are equal. */
  lemma SameStore(s: Store, s': Store)
    requires s.alive == s'.alive && SameFrame(s, s') && s.instruments == s'.instruments
    requires forall c: Cell :: !c.TickerCell? ==> Read(s, c) == Read(s', c)
    ensures s == s'
  {
    forall k | k in s.prices ensures s.prices[k] == s'.prices[k] {
      assert Read(s, PriceCell(k)) == Read(s', PriceCell(k));
    }
    forall k | k in s.fxRates ensures s.fxRates[k] == s'.fxRates[k] {
      assert Read(s, FxCell(k)) == Read(s', FxCell(k));
    }
    forall k | k in s.users ensures s.users[k] == s'.users[k] {
      assert Read(s, NameCell(k)) == Read(s', NameCell(k));
      assert Read(s, EmailCell(k)) == Read(s', EmailCell(k));
    }
  }

  // ---- The instruments known during a replay ----

  /** The id is known as it was at some point between events `b` and `hi`. */
  ghost predicate KnownBetween(t: Texts, seed: map<int, ByteString>, log: seq<CdcEvent>,
                               instruments: map<int, ByteString>, id: int, b: nat, hi: nat)
    requires b <= hi <= |log|
  {
    exists j :: b <= j <= hi && Lookup(instruments, id) == Lookup(Listed(t, seed, log, j), id)
  }

  ghost predicate Tracks(t: Texts, seed: map<int, ByteString>, log: seq<CdcEvent>,
                         instruments: map<int, ByteString>, b: nat, hi: nat)
    requires b <= hi <= |log|
  {
    forall id :: KnownBetween(t, seed, log, instruments, id, b, hi)
  }

  lemma TracksAtEnd(t: Texts, seed: map<int, ByteString>, log: seq<CdcEvent>, instruments: map<int, ByteString>, b: nat)
    requires b <= |log| && Tracks(t, seed, log, instruments, b, b)
    ensures instruments == Listed(t, seed, log, b)
  {
    forall id: int
      ensures Lookup(instruments, id) == Lookup(Listed(t, seed, log, b), id)
    {
      assert KnownBetween(t, seed, log, instruments, id, b, b);
    }
    SameMap(instruments, Listed(t, seed, log, b));
  }

  lemma SameMap(m: map<int, ByteString>, m': map<int, ByteString>)
    requires forall id: int :: Lookup(m, id) == Lookup(m', id)
    ensures m == m'
  {
    forall id: int
      ensures id in m <==> id in m'
      ensures id in m ==> m[id] == m'[id]
    {
      assert Lookup(m, id) == Lookup(m', id);
    }
    assert m.Keys == m'.Keys;
  }

  lemma TracksHere(t: Texts, seed: map<int, ByteString>, log: seq<CdcEvent>, b: nat)
    requires b <= |log|
    ensures Tracks(t, seed, log, Listed(t, seed, log, b), b, b)
  {
    var listed := Listed(t, seed, log, b);
    forall id: int
      ensures KnownBetween(t, seed, log, listed, id, b, b)
    {
      assert Lookup(listed, id) == Lookup(Listed(t, seed, log, b), id);
    }
  }

  lemma KnownStep(t: Texts, seed: map<int, ByteString>, log: seq<CdcEvent>, instruments: map<int, ByteString>,
                  id: int, b: nat, hi: nat)
    requires b < hi <= |log| && KnownBetween(t, seed, log, instruments, id, b, hi)
    ensures KnownBetween(t, seed, log, ListInstrument(t, instruments, log[b]), id, b + 1, hi)
  {
    var j :| b <= j <= hi && Lookup(instruments, id) == Lookup(Listed(t, seed, log, j), id);
    ListedLookup(t, instruments, Listed(t, seed, log, b), log[b], id);
    var again := Listing(t, log[b]).Some? && Listing(t, log[b]).value.0 == id;
    var at := if again || j == b then b + 1 else j;
    assert Lookup(ListInstrument(t, instruments, log[b]), id) == Lookup(Listed(t, seed, log, at), id);
  }

  lemma ListedLookup(t: Texts, m: map<int, ByteString>, m': map<int, ByteString>, e: CdcEvent, id: int)
    ensures if Listing(t, e).Some? && Listing(t, e).value.0 == id
            then Lookup(ListInstrument(t, m, e), id) == Lookup(ListInstrument(t, m', e), id)
            else Lookup(ListInstrument(t, m, e), id) == Lookup(m, id)
                 && Lookup(ListInstrument(t, m', e), id) == Lookup(m', id)
  {
  }

  lemma TracksStep(t: Texts, seed: map<int, ByteString>, log: seq<CdcEvent>, instruments: map<int, ByteString>,
                   b: nat, hi: nat)
    requires b < hi <= |log| && Tracks(t, seed, log, instruments, b, hi)
    ensures Tracks(t, seed, log, ListInstrument(t, instruments, log[b]), b + 1, hi)
  {
    var listed, from := ListInstrument(t, instruments, log[b]), b + 1;
    forall id: int
      ensures KnownBetween(t, seed, log, listed, id, from, hi)
    {
      KnownStep(t, seed, log, instruments, id, b, hi);
    }
  }

  lemma TracksBack(t: Texts, seed: map<int, ByteString>, log: seq<CdcEvent>, instruments: map<int, ByteString>,
                   a: nat, b: nat, hi: nat)
    requires a <= b <= hi <= |log| && Tracks(t, seed, log, instruments, b, hi)
    ensures Tracks(t, seed, log, instruments, a, hi)
  {
    forall id: int
      ensures KnownBetween(t, seed, log, instruments, id, a, hi)
    {
      assert KnownBetween(t, seed, log, instruments, id, b, hi);
    }
  }

  /** What an event writes does not depend on how much later it is replayed. */
  lemma WritesAreStable(t: Texts, s0: Store, log: seq<CdcEvent>, instruments: map<int, ByteString>,
                        b: nat, hi: nat, c: Cell)
    requires Settled(t, s0, log) && b < |log| && b <= hi <= |log| && Once(t, s0, log, hi).alive
    requires Tracks(t, s0.instruments, log, instruments, b, hi) && !c.TickerCell?
    ensures Write(t, log[b], instruments, c) == Write(t, log[b], Listed(t, s0.instruments, log, b), c)
  {
    if Pricing(t, log[b]).Some? {
      var id := Pricing(t, log[b]).value.0;
      assert KnownBetween(t, s0.instruments, log, instruments, id, b, hi);
      var j :| b <= j <= hi && Lookup(instruments, id) == Lookup(Listed(t, s0.instruments, log, j), id);
      AliveBefore(t, s0, log, j, hi);
      assert SettledBetween(t, s0.instruments, log, b, j);
      SameLookupSameWrite(t, log[b], instruments, Listed(t, s0.instruments, log, b), c);
    } else {
      OtherWrite(t, log[b], instruments, Listed(t, s0.instruments, log, b), c);
    }
  }

  lemma SameLookupSameWrite(t: Texts, e: CdcEvent, m: map<int, ByteString>, m': map<int, ByteString>, c: Cell)
    requires Pricing(t, e).Some? && Lookup(m, Pricing(t, e).value.0) == Lookup(m', Pricing(t, e).value.0)
    ensures Write(t, e, m, c) == Write(t, e, m', c)
  {
  }

  lemma OtherWrite(t: Texts, e: CdcEvent, m: map<int, ByteString>, m': map<int, ByteString>, c: Cell)
    requires Pricing(t, e).None?
    ensures Write(t, e, m, c) == Write(t, e, m', c)
  {
  }

  lemma {:induction false} OnceFacts(t: Texts, s0: Store, log: seq<CdcEvent>, k: nat)
    requires k <= |log|
    ensures SameFrame(s0, Once(t, s0, log, k))
    ensures Once(t, s0, log, k).alive ==> Once(t, s0, log, k).instruments == Listed(t, s0.instruments, log, k)
  {
    if k > 0 {
      OnceFacts(t, s0, log, k - 1);
      AppliedFrame(t, Once(t, s0, log, k - 1), log[k - 1]);
      AppliedAlive(t, Once(t, s0, log, k - 1), log[k - 1]);
    }
  }

  lemma {:induction false} AliveBefore(t: Texts, s0: Store, log: seq<CdcEvent>, k: nat, m: nat)
    requires k <= m <= |log| && Once(t, s0, log, m).alive
    ensures Once(t, s0, log, k).alive
    ensures k < m ==> !Panics(t, log[k])
  {
    if k < m {
      AppliedAlive(t, Once(t, s0, log, m - 1), log[m - 1]);
      AliveBefore(t, s0, log, k, m - 1);
    }
  }

  // ---- The invariant of a replay ----

  /** Some event from `b` up to `hi` writes cell `c`. */
  ghost predicate Rewritten(t: Texts, s0: Store, log: seq<CdcEvent>, b: nat, hi: nat, c: Cell)
    requires b <= hi <= |log|
  {
    exists k :: b <= k < hi && Write(t, log[k], Listed(t, s0.instruments, log, k), c).Some?
  }

  /** The replay has seen the first `hi` events and stands before event `b`. Every cell that the
      events from `b` to `hi` will not write again holds what applying `b` events once gives. */
  ghost predicate Converging(t: Texts, s0: Store, log: seq<CdcEvent>, s: Store, b: nat, hi: nat) {
    && b <= hi <= |log|
    && s.alive == Once(t, s0, log, hi).alive
    && if !s.alive then s == Once(t, s0, log, hi) else
       && SameFrame(s0, s)
       && Tracks(t, s0.instruments, log, s.instruments, b, hi)
       && forall c: Cell :: !c.TickerCell? && !Rewritten(t, s0, log, b, hi, c) ==>
            Read(s, c) == Read(Once(t, s0, log, b), c)
  }

  /** With nothing left to rewrite, the replay has converged. */
  lemma Converged(t: Texts, s0: Store, log: seq<CdcEvent>, s: Store, n: nat)
    requires Converging(t, s0, log, s, n, n)
    ensures s == Once(t, s0, log, n)
  {
    OnceFacts(t, s0, log, n);
    if s.alive {
      TracksAtEnd(t, s0.instruments, log, s.instruments, n);
      forall c: Cell | !c.TickerCell?
        ensures Read(s, c) == Read(Once(t, s0, log, n), c)
      {
        assert !Rewritten(t, s0, log, n, n, c);
      }
      SameStore(s, Once(t, s0, log, n));
    }
  }

  /** One more event of the stretch. */
  lemma ReplayStep(t: Texts, s0: Store, log: seq<CdcEvent>, s: Store, b: nat, hi: nat)
    requires Settled(t, s0, log) && Converging(t, s0, log, s, b, hi) && b < |log|
    ensures Converging(t, s0, log, Applied(t, s, log[b]), b + 1, if b < hi then hi else b + 1)
  {
    if b == hi {
      Converged(t, s0, log, s, b);
      FreshStep(t, s0, log, b);
    } else if s.alive {
      RepeatStep(t, s0, log, s, b, hi);
    }
  }

  lemma FreshStep(t: Texts, s0: Store, log: seq<CdcEvent>, b: nat)
    requires b < |log|
    ensures Converging(t, s0, log, Once(t, s0, log, b + 1), b + 1, b + 1)
  {
    OnceFacts(t, s0, log, b + 1);
    TracksHere(t, s0.instruments, log, b + 1);
  }

  lemma RepeatStep(t: Texts, s0: Store, log: seq<CdcEvent>, s: Store, b: nat, hi: nat)
    requires Settled(t, s0, log) && Converging(t, s0, log, s, b, hi) && b < hi && s.alive
    ensures Converging(t, s0, log, Applied(t, s, log[b]), b + 1, hi)
  {
    var s' := Applied(t, s, log[b]);
    AliveBefore(t, s0, log, b, hi);
    AppliedAlive(t, s, log[b]);
    AppliedFrame(t, s, log[b]);
    TracksStep(t, s0.instruments, log, s.instruments, b, hi);
    forall c: Cell | !c.TickerCell? && !Rewritten(t, s0, log, b + 1, hi, c)
      ensures Read(s', c) == Read(Once(t, s0, log, b + 1), c)
    {
      RepeatCell(t, s0, log, s, b, hi, c);
    }
  }

  lemma RepeatCell(t: Texts, s0: Store, log: seq<CdcEvent>, s: Store, b: nat, hi: nat, c: Cell)
    requires Settled(t, s0, log) && Converging(t, s0, log, s, b, hi) && b < hi && s.alive
    requires Once(t, s0, log, b).alive && !Panics(t, log[b])
    requires !c.TickerCell? && !Rewritten(t, s0, log, b + 1, hi, c)
    ensures Read(Applied(t, s, log[b]), c) == Read(Once(t, s0, log, b + 1), c)
  {
    var once := Once(t, s0, log, b);
    OnceFacts(t, s0, log, b);
    WritesAreStable(t, s0, log, s.instruments, b, hi, c);
    SamePresence(s0, s, once, c);
    RewrittenAt(t, s0, log, b, hi, c);
    SameStep(t, s, once, log[b], c);
  }

  lemma RewrittenAt(t: Texts, s0: Store, log: seq<CdcEvent>, b: nat, hi: nat, c: Cell)
    requires b < hi <= |log|
    ensures Rewritten(t, s0, log, b, hi, c)
       <==> Write(t, log[b], Listed(t, s0.instruments, log, b), c).Some? || Rewritten(t, s0, log, b + 1, hi, c)
  {
  }

  lemma {:induction false} RewrittenBetween(t: Texts, s0: Store, log: seq<CdcEvent>, a: nat, k: nat, hi: nat, c: Cell)
    requires a <= k < hi <= |log| && !Rewritten(t, s0, log, a, hi, c)
    ensures Write(t, log[k], Listed(t, s0.instruments, log, k), c).None?
  {
  }

  /** An event brings a cell to the same value in two stores unless it leaves it alone in both. */
  lemma SameStep(t: Texts, s: Store, s': Store, e: CdcEvent, c: Cell)
    requires s.alive && s'.alive && !Panics(t, e) && !c.TickerCell?
    requires Write(t, e, s.instruments, c) == Write(t, e, s'.instruments, c)
    requires Read(s, c).Some? <==> Read(s', c).Some?
    requires Write(t, e, s.instruments, c).None? ==> Read(s, c) == Read(s', c)
    ensures Read(Applied(t, s, e), c) == Read(Applied(t, s', e), c)
  {
    AppliedReads(t, s, e, c);
    AppliedReads(t, s', e, c);
  }

  lemma IdleStep(t: Texts, s: Store, e: CdcEvent, c: Cell)
    requires s.alive && !Panics(t, e) && Write(t, e, s.instruments, c).None?
    ensures Read(Applied(t, s, e), c) == Read(s, c)
  {
    AppliedReads(t, s, e, c);
  }

  lemma SamePresence(s0: Store, s: Store, s': Store, c: Cell)
    requires SameFrame(s0, s) && SameFrame(s0, s') && !c.TickerCell?
    ensures Read(s, c).Some? <==> Read(s', c).Some?
  {
  }

  /** A new stretch starts at or before the end of the last one. */
  lemma {:induction false} StepBack(t: Texts, s0: Store, log: seq<CdcEvent>, s: Store, a: nat, b: nat, hi: nat)
    requires Converging(t, s0, log, s, b, hi) && a <= b
    ensures Converging(t, s0, log, s, a, hi)
  {
    if s.alive {
      TracksBack(t, s0.instruments, log, s.instruments, a, b, hi);
      forall c: Cell | !c.TickerCell? && !Rewritten(t, s0, log, a, hi, c)
        ensures Read(s, c) == Read(Once(t, s0, log, a), c)
      {
        assert !Rewritten(t, s0, log, b, hi, c);
        Untouched(t, s0, log, a, b, hi, c);
      }
    }
  }

  lemma {:induction false} Untouched(t: Texts, s0: Store, log: seq<CdcEvent>, a: nat, b: nat, hi: nat, c: Cell)
    requires a <= b <= hi <= |log| && Once(t, s0, log, hi).alive
    requires !Rewritten(t, s0, log, a, hi, c)
    ensures Read(Once(t, s0, log, a), c) == Read(Once(t, s0, log, b), c)
    decreases b
  {
    if a < b {
      Untouched(t, s0, log, a, b - 1, hi, c);
      UntouchedStep(t, s0, log, a, b - 1, hi, c);
    }
  }

  lemma UntouchedStep(t: Texts, s0: Store, log: seq<CdcEvent>, a: nat, k: nat, hi: nat, c: Cell)
    requires a <= k < hi <= |log| && Once(t, s0, log, hi).alive
    requires !Rewritten(t, s0, log, a, hi, c)
    ensures Read(Once(t, s0, log, k + 1), c) == Read(Once(t, s0, log, k), c)
  {
    RewrittenBetween(t, s0, log, a, k, hi, c);
    AliveBefore(t, s0, log, k, hi);
    OnceFacts(t, s0, log, k);
    OneMore(t, s0, log, k, c);
  }

  lemma OneMore(t: Texts, s0: Store, log: seq<CdcEvent>, k: nat, c: Cell)
    requires k < |log| && Once(t, s0, log, k).alive && !Panics(t, log[k])
    requires Write(t, log[k], Once(t, s0, log, k).instruments, c).None?
    ensures Read(Once(t, s0, log, k + 1), c) == Read(Once(t, s0, log, k), c)
  {
    IdleStep(t, Once(t, s0, log, k), log[k], c);
  }

  // ---- Whole replays ----

  lemma {:induction false} ReplayStretch(t: Texts, s0: Store, log: seq<CdcEvent>, s: Store, a: nat, b: nat, hi: nat)
    returns (reached: nat, s': Store)
    requires Settled(t, s0, log) && Converging(t, s0, log, s, a, hi) && a <= b <= |log|
    ensures reached == if b < hi then hi else b
    ensures s' == ApplyAll(t, s, log[a..b]) && Converging(t, s0, log, s', b, reached)
    decreases b
  {
    if a == b {
      reached, s' := hi, s;
    } else {
      reached, s' := ReplayStretch(t, s0, log, s, a, b - 1, hi);
      ReplayStep(t, s0, log, s', b - 1, reached);
      ApplyOneMore(t, s, log, a, b);
      reached, s' := if b - 1 < reached then reached else b, Applied(t, s', log[b - 1]);
    }
  }

  lemma ApplyOneMore(t: Texts, s: Store, log: seq<CdcEvent>, a: nat, b: nat)
    requires a < b <= |log|
    ensures ApplyAll(t, s, log[a..b]) == Applied(t, ApplyAll(t, s, log[a..b - 1]), log[b - 1])
  {
    assert log[a..b] == log[a..b - 1] + [log[b - 1]];
    ApplyAllSnoc(t, s, log[a..b - 1], log[b - 1]);
  }

  lemma ApplyAllSnoc(t: Texts, s: Store, events: seq<CdcEvent>, e: CdcEvent)
    ensures ApplyAll(t, s, events + [e]) == Applied(t, ApplyAll(t, s, events), e)
  {
    assert (events + [e])[..|events|] == events;
  }

  lemma {:induction false} ApplyAllConcat(t: Texts, s: Store, xs: seq<CdcEvent>, ys: seq<CdcEvent>)
    ensures ApplyAll(t, s, xs + ys) == ApplyAll(t, ApplyAll(t, s, xs), ys)
    decreases |ys|
  {
    if ys == [] {
      assert xs + ys == xs;
    } else {
      assert (xs + ys)[..|xs + ys| - 1] == xs + ys[..|ys| - 1];
      ApplyAllConcat(t, s, xs, ys[..|ys| - 1]);
    }
  }

  lemma {:induction false} ReplayAll(t: Texts, s0: Store, log: seq<CdcEvent>, stretches: seq<Stretch>) returns (hi: nat)
    requires s0.alive && Settled(t, s0, log) && stretches != [] && stretches[0].from == 0
    requires Overlapping(stretches, |log|)
    ensures Converging(t, s0, log, ApplyAll(t, s0, Replayed(log, stretches)), stretches[|stretches| - 1].to, hi)
    decreases |stretches|
  {
    var n := |stretches| - 1;
    var last, earlier := stretches[n], stretches[..n];
    var done := ApplyAll(t, s0, Replayed(log, earlier));
    if n == 0 {
      hi := 0;
      TracksHere(t, s0.instruments, log, 0);
    } else {
      hi := ReplayAll(t, s0, log, earlier);
      StepBack(t, s0, log, done, last.from, earlier[n - 1].to, hi);
    }
    var s';
    hi, s' := ReplayStretch(t, s0, log, done, last.from, last.to, hi);
    ApplyAllConcat(t, s0, Replayed(log, earlier), log[last.from..last.to]);
  }

  lemma {:induction false} OnceIsApplyAll(t: Texts, s0: Store, log: seq<CdcEvent>, k: nat)
    requires k <= |log|
    ensures ApplyAll(t, s0, log[..k]) == Once(t, s0, log, k)
  {
    if k > 0 {
      OnceIsApplyAll(t, s0, log, k - 1);
      assert log[..k][..k - 1] == log[..k - 1];
    }
  }

  /** Redelivery is harmless: any overlapping replay that catches up leaves exactly the store that
      applying each event once leaves, and no history changes. */
  lemma RedeliveryHarmless(t: Texts, s0: Store, log: seq<CdcEvent>, stretches: seq<Stretch>)
    requires s0.alive && Settled(t, s0, log)
    requires CatchesUp(stretches, |log|)
    ensures ApplyAll(t, s0, Replayed(log, stretches)) == ApplyAll(t, s0, log)
    ensures SameFrame(s0, ApplyAll(t, s0, log))
  {
    var n := |log|;
    var hi := ReplayAll(t, s0, log, stretches);
    Converged(t, s0, log, ApplyAll(t, s0, Replayed(log, stretches)), n);
    OnceIsApplyAll(t, s0, log, n);
    assert log[..n] == log;
    OnceFacts(t, s0, log, n);
  }

  // ---- When the condition holds ----

  lemma {:induction false} ListedGrows(t: Texts, seed: map<int, ByteString>, log: seq<CdcEvent>, k: nat, m: nat)
    requires OneTicker(t, seed, log) && k <= m <= |log|
    ensures forall id :: id in Listed(t, seed, log, k) ==>
              id in Listed(t, seed, log, m) && Listed(t, seed, log, m)[id] == Listed(t, seed, log, k)[id]
  {
    if k < m {
      ListedGrows(t, seed, log, k, m - 1);
      assert KeepsTickers(t, Listed(t, seed, log, m - 1), log[m - 1]);
    }
  }

  /** It holds if every instrument keeps one ticker and is listed before its first price. */
  lemma OneTickerSettles(t: Texts, s0: Store, log: seq<CdcEvent>)
    requires OneTicker(t, s0.instruments, log) && KnownFirst(t, s0.instruments, log)
    ensures Settled(t, s0, log)
  {
    forall k, m | 0 <= k <= m <= |log| && k < |log|
      ensures SettledBetween(t, s0.instruments, log, k, m)
    {
      ListedGrows(t, s0.instruments, log, k, m);
      assert IsKnown(t, Listed(t, s0.instruments, log, k), log[k]);
    }
  }

  // ---- The condition is exact ----

  /** Overlapping stretches from the start of the log, the last of which has not reached its end. */
  ghost predicate Resumes(stretches: seq<Stretch>, n: nat) {
    && stretches != [] && stretches[0].from == 0 && stretches[|stretches| - 1].to < n
    && Overlapping(stretches, n)
  }

  /** After these stretches the next event writes what it wrote, or will write, in a single pass. */
  ghost predicate WritesTheSame(t: Texts, s0: Store, log: seq<CdcEvent>, stretches: seq<Stretch>)
    requires Resumes(stretches, |log|)
  {
    var s, b := ApplyAll(t, s0, Replayed(log, stretches)), stretches[|stretches| - 1].to;
    s.alive ==> forall c: Cell :: !c.TickerCell? ==>
      Write(t, log[b], s.instruments, c) == Write(t, log[b], Listed(t, s0.instruments, log, b), c)
  }

  lemma SettledWritesTheSame(t: Texts, s0: Store, log: seq<CdcEvent>, stretches: seq<Stretch>)
    requires s0.alive && Settled(t, s0, log) && Resumes(stretches, |log|)
    ensures WritesTheSame(t, s0, log, stretches)
  {
    var s, b := ApplyAll(t, s0, Replayed(log, stretches)), stretches[|stretches| - 1].to;
    var hi := ReplayAll(t, s0, log, stretches);
    if s.alive {
      forall c: Cell | !c.TickerCell?
        ensures Write(t, log[b], s.instruments, c) == Write(t, log[b], Listed(t, s0.instruments, log, b), c)
      {
        WritesAreStable(t, s0, log, s.instruments, b, hi, c);
      }
    }
  }

  /** A session up to event `m`, and the next one from event `k` up to event `to`. */
  function BackFrom(m: nat, k: nat, to: nat): seq<Stretch> { [Stretch(0, m), Stretch(k, to)] }

  lemma BackFromReplays(t: Texts, s0: Store, log: seq<CdcEvent>, m: nat, k: nat, to: nat)
    requires k <= m <= |log| && k <= to <= |log|
    ensures Overlapping(BackFrom(m, k, to), |log|) && (to == |log| ==> CatchesUp(BackFrom(m, k, to), |log|))
    ensures ApplyAll(t, s0, Replayed(log, BackFrom(m, k, to))) == ApplyAll(t, Once(t, s0, log, m), log[k..to])
  {
    var stretches := BackFrom(m, k, to);
    assert stretches[..1] == [Stretch(0, m)] && [Stretch(0, m)][..0] == [];
    assert Replayed(log, [Stretch(0, m)]) == log[..m];
    OnceIsApplyAll(t, s0, log, m);
    ApplyAllConcat(t, s0, log[..m], log[k..to]);
  }

  /** A price row that is not settled is written elsewhere by a session that resumes at it. */
  lemma UnsettledWritesElsewhere(t: Texts, s0: Store, log: seq<CdcEvent>, k: nat, m: nat)
    requires k <= m <= |log| && k < |log| && Once(t, s0, log, m).alive
    requires !SettledBetween(t, s0.instruments, log, k, m)
    ensures Resumes(BackFrom(m, k, k), |log|) && !WritesTheSame(t, s0, log, BackFrom(m, k, k))
  {
    var now, before := Listed(t, s0.instruments, log, m), Listed(t, s0.instruments, log, k);
    var id := Pricing(t, log[k]).value.0;
    BackFromReplays(t, s0, log, m, k, k);
    assert log[k..k] == [];
    OnceFacts(t, s0, log, m);
    var c := PriceCell(if id in now then now[id] else before[id]);
    assert Write(t, log[k], now, c) != Write(t, log[k], before, c);
  }

  /** In every overlapping replay every event writes what it writes in a single pass, if and only if from
      any price row on its instrument is listed under the same ticker, or never. */
  lemma WritesTheSameIff(t: Texts, s0: Store, log: seq<CdcEvent>)
    requires s0.alive
    ensures (forall stretches :: Resumes(stretches, |log|) ==> WritesTheSame(t, s0, log, stretches))
            <==> Settled(t, s0, log)
  {
    if Settled(t, s0, log) {
      forall stretches | Resumes(stretches, |log|)
        ensures WritesTheSame(t, s0, log, stretches)
      {
        SettledWritesTheSame(t, s0, log, stretches);
      }
    } else {
      var k, m :| 0 <= k <= m <= |log| && k < |log| && Once(t, s0, log, m).alive
                  && !SettledBetween(t, s0.instruments, log, k, m);
      UnsettledWritesElsewhere(t, s0, log, k, m);
    }
  }

  // ---- When the stores end different ----

  /** No event from `k` on writes the price of `ticker`, whatever of the log is listed by then. */
  ghost predicate NotPricedFrom(t: Texts, seed: map<int, ByteString>, log: seq<CdcEvent>, k: nat, ticker: ByteString) {
    forall i, j :: k <= i <= j <= |log| && i < |log| ==> NotPricedAt(t, seed, log, i, j, ticker)
  }

  predicate NotPricedAt(t: Texts, seed: map<int, ByteString>, log: seq<CdcEvent>, i: nat, j: nat, ticker: ByteString)
    requires i < |log| && j <= |log|
  {
    Pricing(t, log[i]).Some? ==> Lookup(Listed(t, seed, log, j), Pricing(t, log[i]).value.0) != Some(ticker)
  }

  /** No event stops the consumer. */
  ghost predicate Harmless(t: Texts, log: seq<CdcEvent>) {
    forall i :: 0 <= i < |log| ==> !Panics(t, log[i])
  }

  /** Nor does a replay of these events write it. */
  lemma {:induction false} ReplayLeavesPrice(t: Texts, seed: map<int, ByteString>, log: seq<CdcEvent>, s: Store,
                                             k: nat, end: nat, m: nat, ticker: ByteString)
    returns (s': Store)
    requires k <= end <= |log| && k <= m <= |log| && NotPricedFrom(t, seed, log, k, ticker)
    requires s.alive && Tracks(t, seed, log, s.instruments, k, m) && Harmless(t, log)
    ensures s' == ApplyAll(t, s, log[k..end]) && Read(s', PriceCell(ticker)) == Read(s, PriceCell(ticker))
    ensures s'.alive && Tracks(t, seed, log, s'.instruments, end, if end < m then m else end)
    decreases end
  {
    if k == end {
      s' := s;
    } else {
      var b := end - 1;
      s' := ReplayLeavesPrice(t, seed, log, s, k, b, m, ticker);
      ApplyOneMore(t, s, log, k, end);
      LeavesPriceStep(t, seed, log, s', k, b, if b < m then m else b, ticker);
      s' := Applied(t, s', log[b]);
    }
  }

  lemma LeavesPriceStep(t: Texts, seed: map<int, ByteString>, log: seq<CdcEvent>, s: Store,
                        k: nat, b: nat, hi: nat, ticker: ByteString)
    requires k <= b <= hi <= |log| && b < |log| && NotPricedFrom(t, seed, log, k, ticker)
    requires s.alive && Tracks(t, seed, log, s.instruments, b, hi) && !Panics(t, log[b])
    ensures var s' := Applied(t, s, log[b]);
            && s'.alive && Tracks(t, seed, log, s'.instruments, b + 1, if b < hi then hi else b + 1)
            && Read(s', PriceCell(ticker)) == Read(s, PriceCell(ticker))
  {
    AppliedAlive(t, s, log[b]);
    if b < hi {
      TracksStep(t, seed, log, s.instruments, b, hi);
    } else {
      TracksAtEnd(t, seed, log, s.instruments, b);
      TracksHere(t, seed, log, b + 1);
    }
    if Pricing(t, log[b]).Some? {
      var id := Pricing(t, log[b]).value.0;
      assert KnownBetween(t, seed, log, s.instruments, id, b, hi);
      var j :| b <= j <= hi && Lookup(s.instruments, id) == Lookup(Listed(t, seed, log, j), id);
      assert NotPricedAt(t, seed, log, b, j, ticker);
    }
    IdleStep(t, s, log[b], PriceCell(ticker));
  }

  /** A row sets the price of the ticker that its instrument has when it is replayed. */
  lemma RowReplayed(t: Texts, seed: map<int, ByteString>, log: seq<CdcEvent>, s: Store, k: nat, m: nat,
                    id: int, price: Float, ticker: ByteString)
    returns (row: Store)
    requires k < m <= |log| && s.alive && Tracks(t, seed, log, s.instruments, k, m) && !Panics(t, log[k])
    requires Pricing(t, log[k]) == Some((id, price))
    requires Lookup(s.instruments, id) == Some(ticker) && Read(s, PriceCell(ticker)).Some?
    ensures row == Applied(t, s, log[k]) && row.alive && Tracks(t, seed, log, row.instruments, k + 1, m)
    ensures Read(row, PriceCell(ticker)) == Some(NumberValue(price))
  {
    row := Applied(t, s, log[k]);
    AppliedAlive(t, s, log[k]);
    AppliedReads(t, s, log[k], PriceCell(ticker));
    TracksStep(t, seed, log, s.instruments, k, m);
  }

  lemma ApplyOneFirst(t: Texts, s: Store, log: seq<CdcEvent>, k: nat, n: nat)
    requires k < n <= |log|
    ensures ApplyAll(t, s, log[k..n]) == ApplyAll(t, Applied(t, s, log[k]), log[k + 1..n])
  {
    assert log[k..n] == [log[k]] + log[k + 1..n];
    ApplyAllConcat(t, s, [log[k]], log[k + 1..n]);
    assert [] + [log[k]] == [log[k]];
    ApplyAllSnoc(t, s, [], log[k]);
  }

  lemma ReplayEndsWithPrice(t: Texts, seed: map<int, ByteString>, log: seq<CdcEvent>, s: Store, k: nat, m: nat,
                            id: int, price: Float, ticker: ByteString)
    returns (ended: Store)
    requires k < m <= |log| && s.alive && Tracks(t, seed, log, s.instruments, k, m) && Harmless(t, log)
    requires Pricing(t, log[k]) == Some((id, price)) && NotPricedFrom(t, seed, log, k + 1, ticker)
    requires Lookup(s.instruments, id) == Some(ticker) && Read(s, PriceCell(ticker)).Some?
    ensures ended == ApplyAll(t, s, log[k..|log|]) && Read(ended, PriceCell(ticker)) == Some(NumberValue(price))
  {
    var row := RowReplayed(t, seed, log, s, k, m, id, price, ticker);
    ended := ReplayLeavesPrice(t, seed, log, row, k + 1, |log|, m, ticker);
    ApplyOneFirst(t, s, log, k, |log|);
  }

  /** After `m` events, the store before a session that goes back to event `k`. */
  lemma BeforeGoingBack(t: Texts, s0: Store, log: seq<CdcEvent>, k: nat, m: nat, ticker: ByteString)
    requires k <= m <= |log| && Once(t, s0, log, |log|).alive && ticker in s0.prices
    ensures var s := Once(t, s0, log, m);
            && s.alive && s.instruments == Listed(t, s0.instruments, log, m) && Read(s, PriceCell(ticker)).Some?
            && Tracks(t, s0.instruments, log, s.instruments, k, m)
    ensures Harmless(t, log)
  {
    AliveBefore(t, s0, log, m, |log|);
    OnceFacts(t, s0, log, m);
    TracksHere(t, s0.instruments, log, m);
    TracksBack(t, s0.instruments, log, Listed(t, s0.instruments, log, m), k, m, m);
    forall i | 0 <= i < |log|
      ensures !Panics(t, log[i])
    {
      AliveBefore(t, s0, log, i, |log|);
    }
  }

  /** When the stores differ: a price row is replayed when its instrument has come to be listed under a
      ticker that is in the cache, no later row writes that ticker's price, and a single pass does not
      end with the price of the row. Such a replay catches up and ends with that price instead. */
  lemma StoresEndDifferent(t: Texts, s0: Store, log: seq<CdcEvent>, k: nat, m: nat,
                           id: int, price: Float, ticker: ByteString)
    returns (stretches: seq<Stretch>, ended: Store)
    requires k < m <= |log| && Once(t, s0, log, |log|).alive && ticker in s0.prices
    requires Pricing(t, log[k]) == Some((id, price))
    requires Lookup(Listed(t, s0.instruments, log, m), id) == Some(ticker)
    requires NotPricedFrom(t, s0.instruments, log, k + 1, ticker)
    requires Read(ApplyAll(t, s0, log), PriceCell(ticker)) != Some(NumberValue(price))
    ensures CatchesUp(stretches, |log|) && ended == ApplyAll(t, s0, Replayed(log, stretches))
    ensures Read(ended, PriceCell(ticker)) == Some(NumberValue(price)) && ended != ApplyAll(t, s0, log)
  {
    stretches := BackFrom(m, k, |log|);
    BackFromReplays(t, s0, log, m, k, |log|);
    BeforeGoingBack(t, s0, log, k, m, ticker);
    ended := ReplayEndsWithPrice(t, s0.instruments, log, Once(t, s0, log, m), k, m, id, price, ticker);
  }

  // ---- Two logs whose replay differs ----

  function Row(table: ByteString, columns: ColumnMap): CdcEvent { CdcEvent(table, InsertOp, columns) }

  function ListingRow(id: ByteString, ticker: ByteString): CdcEvent {
    Row(INSTRUMENTS, map[Ascii("id") := Some(id), Ascii("ticker") := Some(ticker)])
  }

  function PriceRow(id: ByteString, price: ByteString): CdcEvent {
    Row(PRICES, map[Ascii("instrument_id") := Some(id), Ascii("price") := Some(price)])
  }

  /** Two stocks without a price history, no instrument listed. */
  function TwoStocks(): Store {
    var empty := Entry(NotANumber, []);
    Store(true, map[], map[Ascii("A") := empty, Ascii("B") := empty], map[], map[])
  }

  lemma RowsMean(t: Texts, id: ByteString, ticker: ByteString, price: ByteString, n: int, x: real)
    requires t.parseInt(id) == Some(n) && t.parseFloat(price) == Some(Finite(x))
    ensures Listing(t, ListingRow(id, ticker)) == Some((n, ticker)) && Listing(t, PriceRow(id, price)) == None
    ensures PricedId(t, PriceRow(id, price)) == Some(n) && PricedId(t, ListingRow(id, ticker)) == None
    ensures FloatColumn(t, PriceRow(id, price).columns, "price") == Some(Finite(x))
    ensures !Panics(t, PriceRow(id, price)) && !Panics(t, ListingRow(id, ticker))
  {
    assert |INSTRUMENTS| == 11 && |PRICES| == 6 && |FX_RATES| == 8;
    assert |Ascii("id")| == 2 && |Ascii("ticker")| == 6 && |Ascii("instrument_id")| == 13 && |Ascii("price")| == 5;
    assert Column(PriceRow(id, price).columns, "instrument_id") == Some(id);
    assert Column(ListingRow(id, ticker).columns, "id") == Some(id);
  }

  const TWICE := [Stretch(0, 2), Stretch(0, 2)]

  /** A log of two rows applied once, and applied twice over. */
  lemma TwiceOver(t: Texts, s: Store, p: CdcEvent, l: CdcEvent)
    ensures CatchesUp(TWICE, 2)
    ensures ApplyAll(t, s, [p, l]) == Applied(t, Applied(t, s, p), l)
    ensures ApplyAll(t, s, Replayed([p, l], TWICE)) == ApplyAll(t, ApplyAll(t, s, [p, l]), [p, l])
  {
    var log := [p, l];
    assert [] + [p] == [p] && [p] + [l] == log;
    ApplyAllSnoc(t, s, [], p);
    ApplyAllSnoc(t, s, [p], l);
    assert TWICE[..1] == [Stretch(0, 2)] && [Stretch(0, 2)][..0] == [];
    assert Replayed(log, [Stretch(0, 2)]) == log;
    assert Replayed(log, TWICE) == log + log;
    ApplyAllConcat(t, s, log, log);
  }

  /** After one pass the stock has no price; the second pass sets one. */
  lemma SecondPassWrites(t: Texts, s: Store, p: CdcEvent, l: CdcEvent, c: Cell)
    requires s.alive && !Panics(t, p) && !Panics(t, l) && c.PriceCell? && Read(s, c).Some?
    requires PricedId(t, l).None?
    requires Write(t, p, s.instruments, c).None?
    requires Write(t, p, ListInstrument(t, s.instruments, l), c).Some?
    requires Write(t, p, ListInstrument(t, s.instruments, l), c) != Read(s, c)
    requires Listing(t, p).None? && !IsUpsert(l, PRICES) && !IsUpsert(l, FX_RATES)
    ensures ApplyAll(t, s, Replayed([p, l], TWICE)) != ApplyAll(t, s, [p, l]) && !Settled(t, s, [p, l])
  {
    if Settled(t, s, [p, l]) {
      RedeliveryHarmless(t, s, [p, l], TWICE);
    }
    var first := ApplyAll(t, s, [p, l]);
    TwiceOver(t, s, p, l);
    TwiceOver(t, first, p, l);
    AppliedAlive(t, s, p);
    AppliedAlive(t, Applied(t, s, p), l);
    AppliedReads(t, s, p, c);
    AppliedReads(t, Applied(t, s, p), l, c);
    AppliedAlive(t, first, p);
    AppliedReads(t, first, p, c);
    AppliedReads(t, Applied(t, first, p), l, c);
  }

  /** A price row that comes before its listing is skipped the first time and applied on redelivery. */
  lemma UnknownFirstDiffers(t: Texts, id: ByteString, price: ByteString)
    requires t.parseInt(id) == Some(7) && t.parseFloat(price) == Some(Finite(10.0))
    ensures var log := [PriceRow(id, price), ListingRow(id, Ascii("A"))];
            && OneTicker(t, TwoStocks().instruments, log) && !Settled(t, TwoStocks(), log) && CatchesUp(TWICE, |log|)
            && ApplyAll(t, TwoStocks(), Replayed(log, TWICE)) != ApplyAll(t, TwoStocks(), log)
  {
    RowsMean(t, id, Ascii("A"), price, 7, 10.0);
    SecondPassWrites(t, TwoStocks(), PriceRow(id, price), ListingRow(id, Ascii("A")), PriceCell(Ascii("A")));
  }

  /** A price replayed after its instrument was listed under another ticker goes to the wrong stock. */
  lemma TwoTickersDiffer(t: Texts, id: ByteString, price: ByteString)
    requires t.parseInt(id) == Some(7) && t.parseFloat(price) == Some(Finite(10.0))
    ensures var s0 := TwoStocks().(instruments := map[7 := Ascii("A")]);
            var log := [PriceRow(id, price), ListingRow(id, Ascii("B"))];
            && KnownFirst(t, s0.instruments, log) && !Settled(t, s0, log) && CatchesUp(TWICE, |log|)
            && ApplyAll(t, s0, Replayed(log, TWICE)) != ApplyAll(t, s0, log)
  {
    var s0 := TwoStocks().(instruments := map[7 := Ascii("A")]);
    RowsMean(t, id, Ascii("B"), price, 7, 10.0);
    assert Ascii("A")[0] != Ascii("B")[0];
    SecondPassWrites(t, s0, PriceRow(id, price), ListingRow(id, Ascii("B")), PriceCell(Ascii("B")));
  }
}
