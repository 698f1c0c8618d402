/** Positions from trades (crates/calce-core/src/calc/aggregation.rs). Quantities are reals. The fields
    of a trade that the aggregation does not read (ids of trade, user and account, price) are left out. */
module Aggregation {
  import opened Prelude
  import opened Domain
  import opened Sorting
  import opened Sums

  datatype Trade = Trade(id: InstrumentId, quantity: real, currency: Currency, date: int)

  datatype Position = Position(id: InstrumentId, quantity: real, currency: Currency)

  datatype Conflict = Conflict(id: InstrumentId, expected: Currency, actual: Currency)

  datatype Net = Net(quantity: real, currency: Currency)

  // ---- Meaning ----

  predicate Counts(t: Trade, asOf: int, id: InstrumentId) { t.date <= asOf && t.id == id }

  /** The net quantity of an instrument up to a date. */
  function NetOf(trades: seq<Trade>, asOf: int, id: InstrumentId): real { SumBy(trades, Counted(asOf, id)) }

  function Counted(asOf: int, id: InstrumentId): Trade -> real {
    (t: Trade) => if Counts(t, asOf, id) then t.quantity else 0.0
  }

  /** The instrument was traded in this currency up to the date. */
  predicate TradedIn(trades: seq<Trade>, asOf: int, id: InstrumentId, currency: Currency) {
    exists t :: t in trades && Counts(t, asOf, id) && t.currency == currency
  }

  /** Up to the date, some instrument was traded in two currencies. */
  ghost predicate InConflict(trades: seq<Trade>, asOf: int) {
    exists id, a, b :: a != b && TradedIn(trades, asOf, id, a) && TradedIn(trades, asOf, id, b)
  }

  predicate ById(a: Position, b: Position) { TextBefore(a.id, b.id) }

  /** The position is the instrument's non-zero net, in the currency of its trades. */
  predicate IsNet(p: Position, trades: seq<Trade>, asOf: int) {
    p.quantity != 0.0 && p.quantity == NetOf(trades, asOf, p.id) && TradedIn(trades, asOf, p.id, p.currency)
  }

  /** Exactly the instruments with a non-zero net, strictly by id. */
  ghost predicate IsAggregate(positions: seq<Position>, trades: seq<Trade>, asOf: int) {
    Strict(positions, ById) && forall p :: p in positions <==> IsNet(p, trades, asOf)
  }

  // ---- The loop ----

  /** What the loop has gathered: the net of each instrument in its first currency. */
  function FirstCurrency(trades: seq<Trade>, asOf: int, id: InstrumentId): Option<Currency> {
    if trades == [] then None else
    var earlier := FirstCurrency(trades[..|trades| - 1], asOf, id);
    var t := trades[|trades| - 1];
    if earlier.Some? then earlier else if Counts(t, asOf, id) then Some(t.currency) else None
  }

  /** The first trade whose currency is not the first one of its instrument. */
  function FirstConflict(trades: seq<Trade>, asOf: int): Option<Conflict> {
    if trades == [] then None else
    var front, t := trades[..|trades| - 1], trades[|trades| - 1];
    var earlier, first := FirstConflict(front, asOf), FirstCurrency(front, asOf, t.id);
    if earlier.Some? then earlier
    else if t.date <= asOf && first.Some? && first.value != t.currency
    then Some(Conflict(t.id, first.value, t.currency))
    else None
  }

  lemma {:induction false} FirstCurrencyIsTraded(trades: seq<Trade>, asOf: int, id: InstrumentId)
    ensures FirstCurrency(trades, asOf, id).Some? ==> TradedIn(trades, asOf, id, FirstCurrency(trades, asOf, id).value)
    ensures forall c :: TradedIn(trades, asOf, id, c) ==> FirstCurrency(trades, asOf, id).Some?
  {
    if trades != [] {
      var front, t := trades[..|trades| - 1], trades[|trades| - 1];
      assert trades == front + [t];
      FirstCurrencyIsTraded(front, asOf, id);
      assert forall c :: TradedIn(trades, asOf, id, c)
                         <==> TradedIn(front, asOf, id, c) || (Counts(t, asOf, id) && t.currency == c);
    }
  }

  lemma OneMoreTrade(front: seq<Trade>, t: Trade, asOf: int, id: InstrumentId, c: Currency)
    ensures TradedIn(front + [t], asOf, id, c)
            <==> TradedIn(front, asOf, id, c) || (Counts(t, asOf, id) && t.currency == c)
  {
    if TradedIn(front, asOf, id, c) {
      var u :| u in front && Counts(u, asOf, id) && u.currency == c;
      assert u in front + [t];
    }
    if Counts(t, asOf, id) && t.currency == c {
      assert t in front + [t];
    }
  }

  lemma {:induction false} NoConflictOneCurrency(trades: seq<Trade>, asOf: int, id: InstrumentId, c: Currency)
    requires FirstConflict(trades, asOf).None? && TradedIn(trades, asOf, id, c)
    ensures FirstCurrency(trades, asOf, id) == Some(c)
  {
    var front, t := trades[..|trades| - 1], trades[|trades| - 1];
    assert trades == front + [t];
    OneMoreTrade(front, t, asOf, id, c);
    if TradedIn(front, asOf, id, c) {
      NoConflictOneCurrency(front, asOf, id, c);
    }
  }

  lemma {:induction false} ConflictIsReal(trades: seq<Trade>, asOf: int)
    requires FirstConflict(trades, asOf).Some?
    ensures var f := FirstConflict(trades, asOf).value;
            f.expected != f.actual && TradedIn(trades, asOf, f.id, f.expected) && TradedIn(trades, asOf, f.id, f.actual)
  {
    var front, t := trades[..|trades| - 1], trades[|trades| - 1];
    assert trades == front + [t];
    var f := FirstConflict(trades, asOf).value;
    OneMoreTrade(front, t, asOf, f.id, f.expected);
    OneMoreTrade(front, t, asOf, f.id, f.actual);
    if FirstConflict(front, asOf).Some? {
      ConflictIsReal(front, asOf);
    } else {
      FirstCurrencyIsTraded(front, asOf, t.id);
    }
  }

  /** The loop reports a conflict exactly when two trades of one instrument differ in currency. */
  lemma ConflictIff(trades: seq<Trade>, asOf: int)
    ensures FirstConflict(trades, asOf).Some? <==> InConflict(trades, asOf)
  {
    if FirstConflict(trades, asOf).Some? {
      ConflictIsReal(trades, asOf);
    } else if InConflict(trades, asOf) {
      var id, a, b :| a != b && TradedIn(trades, asOf, id, a) && TradedIn(trades, asOf, id, b);
      NoConflictOneCurrency(trades, asOf, id, a);
      NoConflictOneCurrency(trades, asOf, id, b);
    }
  }

  // ---- Which conflict ----

  /** Trade `i` is the first one of its instrument that counts. */
  predicate IsFirstTrade(trades: seq<Trade>, asOf: int, i: nat)
    requires i < |trades|
  {
    trades[i].date <= asOf && forall k :: 0 <= k < i && trades[k].date <= asOf ==> trades[k].id != trades[i].id
  }

  /** The first currency is the one of the first trade that counts. */
  lemma {:induction false} FirstCurrencyIs(trades: seq<Trade>, asOf: int, id: InstrumentId) returns (i: nat)
    requires FirstCurrency(trades, asOf, id).Some?
    ensures i < |trades| && IsFirstTrade(trades, asOf, i)
    ensures trades[i].id == id && Some(trades[i].currency) == FirstCurrency(trades, asOf, id)
  {
    var front, t := trades[..|trades| - 1], trades[|trades| - 1];
    if FirstCurrency(front, asOf, id).Some? {
      i := FirstCurrencyIs(front, asOf, id);
      assert forall k :: 0 <= k < i ==> front[k] == trades[k];
    } else {
      i := |front|;
      forall k | 0 <= k < i && trades[k].date <= asOf
        ensures trades[k].id != id
      {
        FirstCurrencyIsTraded(front, asOf, id);
        assert trades[k] in front;
        assert trades[k].id == id ==> TradedIn(front, asOf, id, trades[k].currency);
      }
    }
  }

  /** The conflict reported: the earliest trade in another currency than its instrument's first trade has;
      the first trade's currency is the expected one, its own the actual one. */
  lemma {:induction false} FirstConflictIs(trades: seq<Trade>, asOf: int) returns (i: nat, j: nat)
    requires FirstConflict(trades, asOf).Some?
    ensures i < j < |trades| && IsFirstTrade(trades, asOf, i)
    ensures trades[j].date <= asOf && trades[j].id == trades[i].id && trades[j].currency != trades[i].currency
    ensures FirstConflict(trades, asOf).value == Conflict(trades[i].id, trades[i].currency, trades[j].currency)
    ensures !InConflict(trades[..j], asOf)
  {
    var front, t := trades[..|trades| - 1], trades[|trades| - 1];
    if FirstConflict(front, asOf).Some? {
      i, j := FirstConflictIs(front, asOf);
      assert front[..j] == trades[..j];
      assert forall k :: 0 <= k <= j ==> front[k] == trades[k];
    } else {
      i := FirstCurrencyIs(front, asOf, t.id);
      j := |front|;
      assert forall k :: 0 <= k <= i ==> front[k] == trades[k];
      ConflictIff(front, asOf);
    }
  }

  /** A net adds up the quantities of the instrument's trades up to the date. */
  lemma NetIs(trades: seq<Trade>, t: Trade, asOf: int, id: InstrumentId)
    ensures NetOf([], asOf, id) == 0.0
    ensures NetOf(trades + [t], asOf, id)
         == NetOf(trades, asOf, id) + if t.date <= asOf && t.id == id then t.quantity else 0.0
  {
    SumSnoc(trades, t, Counted(asOf, id));
  }

  /** The positions ascend by the text of their ids, and none is closed. */
  lemma PositionsAscend(positions: seq<Position>, trades: seq<Trade>, asOf: int)
    requires IsAggregate(positions, trades, asOf)
    ensures forall i, j :: 0 <= i < j < |positions| ==> TextBefore(positions[i].id, positions[j].id)
    ensures forall i :: 0 <= i < |positions| ==>
              positions[i].quantity == NetOf(trades, asOf, positions[i].id) && positions[i].quantity != 0.0
              && exists t :: t in trades && t.date <= asOf && t.id == positions[i].id
                             && t.currency == positions[i].currency
  {
    forall i | 0 <= i < |positions|
      ensures IsNet(positions[i], trades, asOf)
    {
      assert positions[i] in positions;
    }
  }

  // ---- The method ----

  /** The map that the loop fills. */
  ghost predicate Gathered(net: map<InstrumentId, Net>, trades: seq<Trade>, asOf: int) {
    && (forall id :: id in net <==> FirstCurrency(trades, asOf, id).Some?)
    && (forall id :: id in net ==> Some(net[id].currency) == FirstCurrency(trades, asOf, id))
    && (FirstConflict(trades, asOf).None? ==> forall id :: id in net ==> net[id].quantity == NetOf(trades, asOf, id))
  }

  lemma {:induction false} UntradedNetsNothing(trades: seq<Trade>, asOf: int, id: InstrumentId)
    requires FirstCurrency(trades, asOf, id).None?
    ensures NetOf(trades, asOf, id) == 0.0
  {
    if trades != [] {
      UntradedNetsNothing(trades[..|trades| - 1], asOf, id);
    }
  }

  /** A conflict is remembered only if none was before; the net then keeps its first currency. */
  method AggregatePositions(trades: seq<Trade>, asOf: int) returns (r: Result<seq<Position>, Conflict>)
    ensures r.Err? <==> InConflict(trades, asOf)
    ensures r.Err? ==> FirstConflict(trades, asOf) == Some(r.error)
    ensures r.Ok? ==> IsAggregate(r.value, trades, asOf)
  {
    var net: map<InstrumentId, Net> := map[];
    var conflict: Option<Conflict> := None;
    for i := 0 to |trades|
      invariant Gathered(net, trades[..i], asOf) && conflict == FirstConflict(trades[..i], asOf)
    {
      var t := trades[i];
      assert trades[..i + 1][..i] == trades[..i];
      NothingNetted(trades[..i], asOf, t.id);
      if t.date <= asOf {
        if t.id in net {
          if net[t.id].currency == t.currency {
            net := net[t.id := Net(net[t.id].quantity + t.quantity, t.currency)];
          } else if conflict.None? {
            conflict := Some(Conflict(t.id, net[t.id].currency, t.currency));
          }
        } else {
          net := net[t.id := Net(t.quantity, t.currency)];
        }
      }
    }
    assert trades[..|trades|] == trades;
    ConflictIff(trades, asOf);
    if conflict.Some? {
      return Err(conflict.value);
    }
    var positions := NonZero(net);
    NetsAreAggregate(positions, net, trades, asOf);
    r := Ok(SortBy(positions, ById));
  }

  lemma NothingNetted(trades: seq<Trade>, asOf: int, id: InstrumentId)
    ensures FirstCurrency(trades, asOf, id).None? ==> NetOf(trades, asOf, id) == 0.0
  {
    if FirstCurrency(trades, asOf, id).None? {
      UntradedNetsNothing(trades, asOf, id);
    }
  }

  /** The open positions, in the map's own order. */
  method NonZero(net: map<InstrumentId, Net>) returns (positions: seq<Position>)
    ensures forall p :: p in positions
                    <==> p.id in net && net[p.id] == Net(p.quantity, p.currency) && p.quantity != 0.0
    ensures forall i, j :: 0 <= i < j < |positions| ==> positions[i].id != positions[j].id
  {
    positions := [];
    var rest := net;
    while rest != map[]
      invariant forall id :: id in rest ==> id in net && rest[id] == net[id]
      invariant forall p :: p in positions
                        <==> p.id in net && p.id !in rest && net[p.id] == Net(p.quantity, p.currency)
                             && p.quantity != 0.0
      invariant forall i, j :: 0 <= i < j < |positions| ==> positions[i].id != positions[j].id
      decreases |rest|
    {
      var id :| id in rest;
      if rest[id].quantity != 0.0 {
        assert forall i :: 0 <= i < |positions| ==> positions[i] in positions;
        positions := positions + [Position(id, rest[id].quantity, rest[id].currency)];
      }
      rest := rest - {id};
    }
  }

  lemma NetsAreAggregate(positions: seq<Position>, net: map<InstrumentId, Net>, trades: seq<Trade>, asOf: int)
    requires Gathered(net, trades, asOf) && FirstConflict(trades, asOf).None?
    requires forall p :: p in positions
                     <==> p.id in net && net[p.id] == Net(p.quantity, p.currency) && p.quantity != 0.0
    requires forall i, j :: 0 <= i < j < |positions| ==> positions[i].id != positions[j].id
    ensures IsAggregate(SortBy(positions, ById), trades, asOf)
  {
    ByIdIsOrder();
    forall i, j | 0 <= i < j < |positions|
      ensures ById(positions[i], positions[j]) || ById(positions[j], positions[i])
    {
      TextIsTotal(positions[i].id, positions[j].id);
    }
    SortByStrict(positions, ById);
    SortByMembers(positions, ById);
    forall p
      ensures p in positions <==> IsNet(p, trades, asOf)
    {
      FirstCurrencyIsTraded(trades, asOf, p.id);
      if TradedIn(trades, asOf, p.id, p.currency) {
        NoConflictOneCurrency(trades, asOf, p.id, p.currency);
      }
    }
  }

  lemma ByIdIsOrder()
    ensures IsOrder(ById)
  {
    forall a, b | ById(a, b)
      ensures !ById(b, a)
    {
      TextIsAsymmetric(a.id, b.id);
    }
    forall a, b, c | ById(a, c)
      ensures ById(a, b) || ById(b, c)
    {
      TextIsNegativelyTransitive(a.id, b.id, c.id);
    }
  }

  // ---- What the result does not depend on ----

  /** The nets of a concatenation are the sums of the nets. */
  lemma NetConcat(a: seq<Trade>, b: seq<Trade>, asOf: int, id: InstrumentId)
    ensures NetOf(a + b, asOf, id) == NetOf(a, asOf, id) + NetOf(b, asOf, id)
  {
    SumConcat(a, b, Counted(asOf, id));
  }

  lemma TradedPermuted(a: seq<Trade>, b: seq<Trade>, asOf: int, id: InstrumentId, c: Currency)
    requires multiset(a) == multiset(b)
    ensures TradedIn(a, asOf, id, c) == TradedIn(b, asOf, id, c)
  {
    assert forall t :: (t in a <==> t in multiset(a)) && (t in b <==> t in multiset(b));
  }

  /** A permutation of the trades fails just when they do, and has the very same positions. */
  lemma OrderDoesNotMatter(a: seq<Trade>, b: seq<Trade>, asOf: int, positions: seq<Position>, others: seq<Position>)
    requires multiset(a) == multiset(b)
    ensures InConflict(a, asOf) <==> InConflict(b, asOf)
    ensures IsAggregate(positions, a, asOf) && IsAggregate(others, b, asOf) ==> positions == others
  {
    forall id, c
      ensures TradedIn(a, asOf, id, c) == TradedIn(b, asOf, id, c)
    {
      TradedPermuted(a, b, asOf, id, c);
    }
    if IsAggregate(positions, a, asOf) && IsAggregate(others, b, asOf) {
      forall p
        ensures p in positions <==> p in others
      {
        SumPermuted(a, b, Counted(asOf, p.id));
        assert p in positions <==> IsNet(p, a, asOf);
        assert p in others <==> IsNet(p, b, asOf);
      }
      ByIdIsOrder();
      StrictIsUnique(positions, others, ById);
    }
  }
}
