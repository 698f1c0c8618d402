/** Valuation of positions (crates/calce-core/src/calc/market_value.rs): prices, rates and amounts are
    reals, and `Market` is what the market-data service answers on the valuation date. */
module MarketValue {
  import opened Prelude
  import opened Domain
  import opened Sorting
  import opened Sums
  import opened Aggregation

  /** The prices, and the rates to the base currency, that the service finds. */
  datatype Market = Market(base: Currency, prices: map<InstrumentId, real>, rates: map<Currency, FxRate<real>>)

  datatype Money = Money(amount: real, currency: Currency)

  datatype Mismatch = Mismatch(expected: Currency, actual: Currency)

  datatype CalcError = CurrencyConflict(conflict: Conflict) | CurrencyMismatch(mismatch: Mismatch)

  datatype Warning = MissingPrice(id: InstrumentId) | MissingFxRate(src: Currency)

  datatype ValuedPosition =
    ValuedPosition(id: InstrumentId, quantity: real, currency: Currency, price: real, value: Money, valueInBase: Money)

  datatype Outcome = Outcome(positions: seq<ValuedPosition>, total: Money, warnings: seq<Warning>)

  function Converted(m: Money, rate: FxRate<real>): Money { Money(m.amount * rate.rate, rate.dst) }

  function Convert(m: Money, rate: FxRate<real>): Result<Money, Mismatch> {
    if m.currency != rate.src then Err(Mismatch(rate.src, m.currency)) else Ok(Converted(m, rate))
  }

  function CheckedAdd(a: Money, b: Money): Result<Money, Mismatch> {
    if a.currency != b.currency then Err(Mismatch(a.currency, b.currency))
    else Ok(Money(a.amount + b.amount, a.currency))
  }

  // ---- Meaning ----

  /** What a quantity of an instrument is worth in the base currency, nothing if its price or rate is
      missing. */
  function Worth(quantity: real, id: InstrumentId, currency: Currency, m: Market): real {
    if id !in m.prices then 0.0
    else if currency == m.base then quantity * m.prices[id]
    else if currency in m.rates then quantity * m.prices[id] * m.rates[currency].rate
    else 0.0
  }

  /** How a calculation values a quantity of an instrument traded in a currency. */
  type Valuer = (real, InstrumentId, Currency) -> real

  function WorthIn(m: Market): Valuer { (quantity, id, currency) => Worth(quantity, id, currency, m) }

  /** Worth is proportional to quantity; sums over trades rest on no more than this. */
  ghost predicate Additive(w: Valuer) {
    forall a, b, id, c :: AddsUp(w, a, b, id, c)
  }

  predicate AddsUp(w: Valuer, a: real, b: real, id: InstrumentId, c: Currency) {
    w(a + b, id, c) == w(a, id, c) + w(b, id, c)
  }

  lemma WorthAddsUp(m: Market)
    ensures Additive(WorthIn(m))
  {
    forall a, b, id, c
      ensures AddsUp(WorthIn(m), a, b, id, c)
    {
      assert Worth(a + b, id, c, m) == Worth(a, id, c, m) + Worth(b, id, c, m);
    }
  }

  lemma NothingIsWorthNothing(w: Valuer, id: InstrumentId, c: Currency)
    requires Additive(w)
    ensures w(0.0, id, c) == 0.0
  {
    assert AddsUp(w, 0.0, 0.0, id, c);
  }

  predicate Known(p: Position, m: Market) { p.id in m.prices && (p.currency == m.base || p.currency in m.rates) }

  /** The position needs a rate, and the one found is not for the pair asked for. */
  predicate Misdirected(p: Position, m: Market) {
    && p.id in m.prices && p.currency != m.base && p.currency in m.rates
    && (m.rates[p.currency].src != p.currency || m.rates[p.currency].dst != m.base)
  }

  predicate WrongSource(p: Position, m: Market) {
    p.id in m.prices && p.currency != m.base && p.currency in m.rates && m.rates[p.currency].src != p.currency
  }

  function Valued(p: Position, m: Market): ValuedPosition
    requires Known(p, m)
  {
    var value := Money(p.quantity * m.prices[p.id], p.currency);
    var inBase := if p.currency == m.base then value else Converted(value, m.rates[p.currency]);
    ValuedPosition(p.id, p.quantity, p.currency, m.prices[p.id], value, inBase)
  }

  function ValuedOf(positions: seq<Position>, m: Market): seq<ValuedPosition> {
    if positions == [] then [] else
    var p, others := positions[|positions| - 1], ValuedOf(positions[..|positions| - 1], m);
    if Known(p, m) then others + [Valued(p, m)] else others
  }

  function WarningsOf(positions: seq<Position>, m: Market): seq<Warning> {
    if positions == [] then [] else
    var p, others := positions[|positions| - 1], WarningsOf(positions[..|positions| - 1], m);
    if p.id !in m.prices then others + [MissingPrice(p.id)]
    else if !Known(p, m) then others + [MissingFxRate(p.currency)]
    else others
  }

  function TotalWorth(positions: seq<Position>, w: Valuer): real { SumBy(positions, PositionWorth(w)) }

  function PositionWorth(w: Valuer): Position -> real { (p: Position) => w(p.quantity, p.id, p.currency) }

  function InBase(v: ValuedPosition): real { v.valueInBase.amount }

  predicate ByInstrument(a: ValuedPosition, b: ValuedPosition) { TextBefore(a.id, b.id) }

  /** Every position becomes one valued position or one warning. */
  lemma {:induction false} EachPositionOnce(positions: seq<Position>, m: Market)
    ensures |ValuedOf(positions, m)| + |WarningsOf(positions, m)| == |positions|
    ensures forall v :: v in ValuedOf(positions, m) <==> exists p :: p in positions && Known(p, m) && v == Valued(p, m)
  {
    if positions != [] {
      var front, p := positions[..|positions| - 1], positions[|positions| - 1];
      assert positions == front + [p];
      EachPositionOnce(front, m);
    }
  }

  lemma {:induction false} SumIsTotalWorth(positions: seq<Position>, m: Market)
    ensures SumBy(ValuedOf(positions, m), InBase) == TotalWorth(positions, WorthIn(m))
  {
    if positions != [] {
      var front, p := positions[..|positions| - 1], positions[|positions| - 1];
      SumIsTotalWorth(front, m);
      if Known(p, m) {
        SumSnoc(ValuedOf(front, m), Valued(p, m), InBase);
      }
    }
  }

  lemma OneMorePosition(front: seq<Position>, p: Position, m: Market)
    ensures ValuedOf(front + [p], m)
            == ValuedOf(front, m) + if p.id in m.prices && (p.currency == m.base || p.currency in m.rates)
                                    then [Valued(p, m)] else []
    ensures WarningsOf(front + [p], m)
            == WarningsOf(front, m) + if p.id !in m.prices then [MissingPrice(p.id)]
                                      else if p.currency != m.base && p.currency !in m.rates
                                      then [MissingFxRate(p.currency)] else []
  {
    assert (front + [p])[..|front|] == front;
  }

  /** What a valued position shows: quantity times price, and in the base currency times the rate. */
  lemma ValuedIs(p: Position, m: Market)
    requires p.id in m.prices && (p.currency == m.base || p.currency in m.rates)
    ensures var v, amount := Valued(p, m), p.quantity * m.prices[p.id];
            && v.id == p.id && v.quantity == p.quantity && v.currency == p.currency && v.price == m.prices[p.id]
            && v.value == Money(amount, p.currency)
            && v.valueInBase == if p.currency == m.base then Money(amount, m.base)
                                else Money(amount * m.rates[p.currency].rate, m.rates[p.currency].dst)
  {
  }

  /** What a quantity is worth: times its price, and times the rate unless it is in the base currency already;
      nothing where price or rate is missing. */
  lemma WorthIs(quantity: real, id: InstrumentId, currency: Currency, m: Market)
    ensures WorthIn(m)(quantity, id, currency)
         == if id !in m.prices then 0.0
            else if currency == m.base then quantity * m.prices[id]
            else if currency in m.rates then quantity * m.prices[id] * m.rates[currency].rate
            else 0.0
  {
  }

  /** Only the trades up to the date count. */
  lemma TradesUpTo(trades: seq<Trade>, t: Trade, asOf: int, w: Valuer)
    ensures DirectSum([], asOf, w) == 0.0
    ensures DirectSum(trades + [t], asOf, w)
         == DirectSum(trades, asOf, w) + if t.date <= asOf then w(t.quantity, t.id, t.currency) else 0.0
  {
    SumSnoc(trades, t, TradeWorth(asOf, w));
  }

  /** Money is converted only by a rate from its currency, and added only to its own currency. */
  lemma MoneyIsTyped(a: Money, b: Money, rate: FxRate<real>)
    ensures a.currency == rate.src ==>
              Convert(a, rate).Ok? && Convert(a, rate).value.amount == a.amount * rate.rate
              && Convert(a, rate).value.currency == rate.dst
    ensures a.currency != rate.src ==> Convert(a, rate) == Err(Mismatch(rate.src, a.currency))
    ensures a.currency == b.currency ==> CheckedAdd(a, b) == Ok(Money(a.amount + b.amount, a.currency))
    ensures a.currency != b.currency ==> CheckedAdd(a, b) == Err(Mismatch(a.currency, b.currency))
  {
  }

  /** The valued positions are in the order of their ids. */
  lemma ValuedAscend(valued: seq<ValuedPosition>)
    ensures var sorted := SortBy(valued, ByInstrument);
            forall i, j :: 0 <= i < j < |sorted| ==> !TextBefore(sorted[j].id, sorted[i].id)
  {
    forall a, b | ByInstrument(a, b)
      ensures !ByInstrument(b, a)
    {
      TextIsAsymmetric(a.id, b.id);
    }
    forall a, b, c | ByInstrument(a, c)
      ensures ByInstrument(a, b) || ByInstrument(b, c)
    {
      TextIsNegativelyTransitive(a.id, b.id, c.id);
    }
    assert IsOrder(ByInstrument);
    SortByOrders(valued, ByInstrument);
    var sorted := SortBy(valued, ByInstrument);
    forall i, j | 0 <= i < j < |sorted|
      ensures !TextBefore(sorted[j].id, sorted[i].id)
    {
      assert !ByInstrument(sorted[j], sorted[i]);
    }
  }

  // ---- The method ----

  /** Skips with a warning what has no price or no rate; fails if and only if some rate found is not
      for the pair asked for. */
  method ValuePositions(positions: seq<Position>, m: Market) returns (r: Result<Outcome, Mismatch>)
    ensures r.Err? <==> exists p :: p in positions && Misdirected(p, m)
    ensures r.Ok? ==> r.value.positions == SortBy(ValuedOf(positions, m), ByInstrument)
                      && r.value.warnings == WarningsOf(positions, m)
                      && r.value.total == Money(TotalWorth(positions, WorthIn(m)), m.base)
  {
    var each := ValueEach(positions, m);
    if each.Err? {
      var p :| p in positions && WrongSource(p, m);
      assert Misdirected(p, m);
      return Err(each.error);
    }
    var (valued, warnings) := each.value;
    SortByPermutes(valued, ByInstrument);
    SortByMembers(valued, ByInstrument);
    SumPermuted(SortBy(valued, ByInstrument), valued, InBase);
    SumIsTotalWorth(positions, m);
    OtherBaseIff(positions, m);
    valued := SortBy(valued, ByInstrument);
    var total := Total(valued, m.base);
    if total.Err? {
      return Err(total.error);
    }
    r := Ok(Outcome(valued, total.value, warnings));
  }

  /** With no rate from the wrong currency, some amount is not in the base currency just when some rate
      leads to another one. */
  lemma OtherBaseIff(positions: seq<Position>, m: Market)
    requires forall p :: p in positions ==> !WrongSource(p, m)
    ensures (exists v :: v in ValuedOf(positions, m) && v.valueInBase.currency != m.base)
            <==> exists p :: p in positions && Misdirected(p, m)
  {
    EachPositionOnce(positions, m);
    if v :| v in ValuedOf(positions, m) && v.valueInBase.currency != m.base {
      var p :| p in positions && Known(p, m) && v == Valued(p, m);
      assert Misdirected(p, m);
    }
    if p :| p in positions && Misdirected(p, m) {
      assert Valued(p, m) in ValuedOf(positions, m);
    }
  }

  lemma IsValued(p: Position, m: Market, value: Money, inBase: Money)
    requires Known(p, m) && value == Money(p.quantity * m.prices[p.id], p.currency)
    requires inBase == if p.currency == m.base then value else Converted(value, m.rates[p.currency])
    ensures ValuedPosition(p.id, p.quantity, p.currency, m.prices[p.id], value, inBase) == Valued(p, m)
  {
  }

  method ValueEach(positions: seq<Position>, m: Market)
    returns (r: Result<(seq<ValuedPosition>, seq<Warning>), Mismatch>)
    ensures r.Err? <==> exists p :: p in positions && WrongSource(p, m)
    ensures r.Err? ==> exists p :: p in positions && WrongSource(p, m)
                               && r.error == Mismatch(m.rates[p.currency].src, p.currency)
    ensures r.Ok? ==> r.value == (ValuedOf(positions, m), WarningsOf(positions, m))
  {
    var valued: seq<ValuedPosition>, warnings: seq<Warning> := [], [];
    for i := 0 to |positions|
      invariant valued == ValuedOf(positions[..i], m) && warnings == WarningsOf(positions[..i], m)
      invariant forall p :: p in positions[..i] ==> !WrongSource(p, m)
    {
      OneMorePosition(positions[..i], positions[i], m);
      assert positions[..i + 1] == positions[..i] + [positions[i]];
      var pos := positions[i];
      if pos.id !in m.prices {
        warnings := warnings + [MissingPrice(pos.id)];
        continue;
      }
      var value := Money(pos.quantity * m.prices[pos.id], pos.currency);
      var inBase := value;
      if pos.currency != m.base {
        if pos.currency !in m.rates {
          warnings := warnings + [MissingFxRate(pos.currency)];
          continue;
        }
        match Convert(value, m.rates[pos.currency]) {
          case Err(e) =>
            assert pos in positions && WrongSource(pos, m);
            return Err(e);
          case Ok(converted) => inBase := converted;
        }
      }
      IsValued(pos, m, value, inBase);
      valued := valued + [ValuedPosition(pos.id, pos.quantity, pos.currency, m.prices[pos.id], value, inBase)];
    }
    assert positions[..|positions|] == positions;
    r := Ok((valued, warnings));
  }

  /** Adds up from zero in the base currency; fails at the first amount in another one. */
  method Total(valued: seq<ValuedPosition>, base: Currency) returns (r: Result<Money, Mismatch>)
    ensures r.Err? <==> exists v :: v in valued && v.valueInBase.currency != base
    ensures r.Ok? ==> r.value == Money(SumBy(valued, InBase), base)
  {
    var total := Money(0.0, base);
    for i := 0 to |valued|
      invariant total == Money(SumBy(valued[..i], InBase), base)
      invariant forall v :: v in valued[..i] ==> v.valueInBase.currency == base
    {
      assert valued[..i + 1][..i] == valued[..i];
      assert valued[..i + 1] == valued[..i] + [valued[i]];
      match CheckedAdd(total, valued[i].valueInBase) {
        case Err(e) => return Err(e);
        case Ok(sum) => total := sum;
      }
    }
    assert valued[..|valued|] == valued;
    r := Ok(total);
  }

  // ---- The total is a sum over trades ----

  /** What the trades up to the date are worth, one by one. */
  function DirectSum(trades: seq<Trade>, asOf: int, w: Valuer): real { SumBy(trades, TradeWorth(asOf, w)) }

  function TradeWorth(asOf: int, w: Valuer): Trade -> real {
    (t: Trade) => if t.date <= asOf then w(t.quantity, t.id, t.currency) else 0.0
  }

  function Excluding(trades: seq<Trade>, id: InstrumentId): (r: seq<Trade>)
    ensures |r| <= |trades|
    ensures trades != [] && trades[|trades| - 1].id == id ==> |r| < |trades|
  {
    if trades == [] then [] else
    var others, t := Excluding(trades[..|trades| - 1], id), trades[|trades| - 1];
    if t.id == id then others else others + [t]
  }

  lemma {:induction false} ExcludingKeeps(trades: seq<Trade>, id: InstrumentId)
    ensures forall t :: t in Excluding(trades, id) <==> t in trades && t.id != id
  {
    if trades != [] {
      var front, t := trades[..|trades| - 1], trades[|trades| - 1];
      assert trades == front + [t];
      ExcludingKeeps(front, id);
    }
  }

  lemma {:induction false} NetExcluding(trades: seq<Trade>, asOf: int, id: InstrumentId, other: InstrumentId)
    ensures NetOf(Excluding(trades, id), asOf, other) == if other == id then 0.0 else NetOf(trades, asOf, other)
  {
    if trades != [] {
      var front, t := trades[..|trades| - 1], trades[|trades| - 1];
      NetExcluding(front, asOf, id, other);
      if t.id != id {
        SumSnoc(Excluding(front, id), t, Counted(asOf, other));
      }
    }
  }

  lemma {:induction false} DirectSumSplit(trades: seq<Trade>, asOf: int, id: InstrumentId, c: Currency, w: Valuer)
    requires Additive(w) && forall t :: t in trades && Counts(t, asOf, id) ==> t.currency == c
    ensures DirectSum(trades, asOf, w) == DirectSum(Excluding(trades, id), asOf, w) + w(NetOf(trades, asOf, id), id, c)
  {
    if trades == [] {
      NothingIsWorthNothing(w, id, c);
    } else {
      var front, t := trades[..|trades| - 1], trades[|trades| - 1];
      assert trades == front + [t] && t in trades;
      assert forall u :: u in front ==> u in trades;
      DirectSumSplit(front, asOf, id, c, w);
      if t.id == id {
        assert AddsUp(w, NetOf(front, asOf, id), t.quantity, id, c);
      } else {
        SumSnoc(Excluding(front, id), t, TradeWorth(asOf, w));
      }
    }
  }

  lemma NetWithoutInstrument(p: Position, trades: seq<Trade>, asOf: int, id: InstrumentId)
    ensures IsNet(p, Excluding(trades, id), asOf) <==> p.id != id && IsNet(p, trades, asOf)
  {
    NetExcluding(trades, asOf, id, p.id);
    ExcludingKeeps(trades, id);
  }

  /** Taking an instrument's trades away takes its position away. */
  lemma AggregateExcluding(positions: seq<Position>, i: nat, trades: seq<Trade>, asOf: int)
    requires IsAggregate(positions, trades, asOf) && i < |positions|
    ensures IsAggregate(WithoutAt(positions, i), Excluding(trades, positions[i].id), asOf)
  {
    var rest, id := WithoutAt(positions, i), positions[i].id;
    ByIdIsOrder();
    forall p
      ensures p in rest <==> IsNet(p, Excluding(trades, id), asOf)
    {
      NetWithoutInstrument(p, trades, asOf, id);
      assert p in positions <==> IsNet(p, trades, asOf);
      assert positions == positions[..i] + ([positions[i]] + positions[i + 1..]);
      forall j | 0 <= j < |positions| && j != i
        ensures positions[j].id != id
      {
        assert ById(positions[j], positions[i]) || ById(positions[i], positions[j]);
        assert !ById(positions[i], positions[i]);
      }
    }
  }

  lemma AggregateUntouched(positions: seq<Position>, id: InstrumentId, trades: seq<Trade>, asOf: int)
    requires IsAggregate(positions, trades, asOf) && forall p :: p in positions ==> p.id != id
    ensures IsAggregate(positions, Excluding(trades, id), asOf)
  {
    forall p
      ensures p in positions <==> IsNet(p, Excluding(trades, id), asOf)
    {
      NetWithoutInstrument(p, trades, asOf, id);
    }
  }

  /** The total of the aggregated positions is the sum over the trades up to the date of quantity times
      price times rate, where these exist. */
  lemma {:induction false} TotalIsSumOverTrades(positions: seq<Position>, trades: seq<Trade>, asOf: int, w: Valuer)
    requires Additive(w) && IsAggregate(positions, trades, asOf) && !InConflict(trades, asOf)
    ensures TotalWorth(positions, w) == DirectSum(trades, asOf, w)
    decreases |trades|
  {
    if trades == [] {
      assert forall i :: 0 <= i < |positions| ==> IsNet(positions[i], trades, asOf);
    } else {
      var id := trades[|trades| - 1].id;
      StillNoConflict(trades, asOf, id);
      if i :| 0 <= i < |positions| && positions[i].id == id {
        var p := positions[i];
        assert p in positions;
        assert TradedIn(trades, asOf, id, p.currency);
        OneCurrency(trades, asOf, id, p.currency);
        AggregateExcluding(positions, i, trades, asOf);
        TotalIsSumOverTrades(WithoutAt(positions, i), Excluding(trades, id), asOf, w);
        SumWithoutAt(positions, i, PositionWorth(w));
        DirectSumSplit(trades, asOf, id, p.currency, w);
      } else {
        AggregateUntouched(positions, id, trades, asOf);
        TotalIsSumOverTrades(positions, Excluding(trades, id), asOf, w);
        ClosedIsWorthNothing(positions, trades, asOf, id, w);
      }
    }
  }

  lemma StillNoConflict(trades: seq<Trade>, asOf: int, id: InstrumentId)
    requires !InConflict(trades, asOf)
    ensures !InConflict(Excluding(trades, id), asOf)
  {
    ExcludingKeeps(trades, id);
    if InConflict(Excluding(trades, id), asOf) {
      var others := Excluding(trades, id);
      var x, a, b :| a != b && TradedIn(others, asOf, x, a) && TradedIn(others, asOf, x, b);
      assert TradedIn(trades, asOf, x, a) && TradedIn(trades, asOf, x, b);
    }
  }

  lemma OneCurrency(trades: seq<Trade>, asOf: int, id: InstrumentId, c: Currency)
    requires !InConflict(trades, asOf) && TradedIn(trades, asOf, id, c)
    ensures forall t :: t in trades && Counts(t, asOf, id) ==> t.currency == c
  {
    forall t | t in trades && Counts(t, asOf, id)
      ensures t.currency == c
    {
      assert TradedIn(trades, asOf, id, t.currency);
    }
  }

  /** An instrument without a position has a zero net, or no trade up to the date. */
  lemma ClosedIsWorthNothing(positions: seq<Position>, trades: seq<Trade>, asOf: int, id: InstrumentId, w: Valuer)
    requires Additive(w) && IsAggregate(positions, trades, asOf) && !InConflict(trades, asOf)
    requires trades != [] && forall i :: 0 <= i < |positions| ==> positions[i].id != id
    ensures DirectSum(trades, asOf, w) == DirectSum(Excluding(trades, id), asOf, w)
  {
    var c := trades[|trades| - 1].currency;
    if t :| t in trades && Counts(t, asOf, id) {
      c := t.currency;
      OneCurrency(trades, asOf, id, c);
      assert TradedIn(trades, asOf, id, c);
      var p := Position(id, NetOf(trades, asOf, id), c);
      assert p !in positions && !IsNet(p, trades, asOf);
    } else {
      FirstCurrencyIsTraded(trades, asOf, id);
      NothingNetted(trades, asOf, id);
    }
    DirectSumSplit(trades, asOf, id, c, w);
    NothingIsWorthNothing(w, id, c);
  }

  /** The market value at one date (crates/calce-core/src/calc/value_change.rs:140-148): `m` is what the
      service answers on that date. */
  method MarketValueAt(trades: seq<Trade>, asOf: int, m: Market) returns (r: Result<Outcome, CalcError>)
    ensures InConflict(trades, asOf)
            ==> FirstConflict(trades, asOf).Some? && r == Err(CurrencyConflict(FirstConflict(trades, asOf).value))
    ensures r.Ok? ==> !InConflict(trades, asOf)
                      && r.value.total == Money(DirectSum(trades, asOf, WorthIn(m)), m.base)
    ensures !InConflict(trades, asOf) ==> (r.Err? <==> exists p :: IsNet(p, trades, asOf) && Misdirected(p, m))
    ensures !InConflict(trades, asOf) && r.Err? ==> r.error.CurrencyMismatch?
    ensures r.Ok? ==> exists ps :: IsAggregate(ps, trades, asOf)
                               && r.value.positions == SortBy(ValuedOf(ps, m), ByInstrument)
                               && r.value.warnings == WarningsOf(ps, m)
                               && |ValuedOf(ps, m)| + |WarningsOf(ps, m)| == |ps|
  {
    var positions := AggregatePositions(trades, asOf);
    if positions.Err? {
      return Err(CurrencyConflict(positions.error));
    }
    WorthAddsUp(m);
    TotalIsSumOverTrades(positions.value, trades, asOf, WorthIn(m));
    EachPositionOnce(positions.value, m);
    var outcome := ValuePositions(positions.value, m);
    if outcome.Err? {
      return Err(CurrencyMismatch(outcome.error));
    }
    r := Ok(outcome.value);
  }
}
