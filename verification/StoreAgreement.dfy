/** The dense store answers as the plain one: both are given the same writes
    (crates/calce-data/src/concurrent_market_data.rs, crates/calce-core/src/services/test_market_data.rs). */
module StoreAgreement {
  import opened Domain
  import opened DenseStore

  datatype Quote =
    | Price(id: InstrumentId, day: Day, value: Number)
    | Rate(src: Currency, dst: Currency, day: Day, value: Number)

  /** What can be added before the store is built; only a quote can be updated afterwards. */
  datatype Write =
    | Quoted(quote: Quote)
    | Classified(id: InstrumentId, kind: InstrumentType)
    | Allocated(id: InstrumentId, dimension: string, weight: Weight)

  predicate AnyQuote(writes: seq<Write>) { exists w :: w in writes && w.Quoted? }

  ghost predicate SameQuotes(dense: ConcurrentMarketData, plain: TestMarketData)
    reads dense.prices`data, dense.fxRates`data, plain`prices, plain`fxRates
  {
    && (forall id :: dense.Prices(id) == plain.Prices(id))
    && (forall pair :: dense.Rates(pair) == plain.Rates(pair))
  }

  ghost predicate SameTypes(dense: ConcurrentMarketData, plain: TestMarketData)
    reads plain`instrumentTypes
  {
    forall id :: dense.GetInstrumentType(id) == plain.GetInstrumentType(id)
  }

  ghost predicate SameAllocations(dense: ConcurrentMarketData, plain: TestMarketData)
    reads plain`allocations
  {
    forall id, dimension :: dense.GetAllocations(id, dimension) == plain.GetAllocations(id, dimension)
  }

  ghost predicate DefaultTypes(plain: TestMarketData)
    reads plain`instrumentTypes
  {
    forall id :: plain.GetInstrumentType(id) == Other
  }

  ghost predicate NoAllocations(plain: TestMarketData)
    reads plain`allocations
  {
    forall id, dimension :: plain.GetAllocations(id, dimension) == []
  }

  /** The builder and the plain store have been given the same writes. */
  ghost predicate Loading(builder: MarketDataBuilder, plain: TestMarketData)
    reads builder, plain
  {
    && builder.Valid()
    && (forall id :: builder.Prices(id) == plain.Prices(id))
    && (forall pair :: builder.Rates(pair) == plain.Rates(pair))
    && (forall id :: TypeIn(builder.instrumentTypes, id) == plain.GetInstrumentType(id))
    && (forall id, d :: WeightsIn(builder.allocations, id, d) == plain.GetAllocations(id, d))
  }

  method QuoteBoth(builder: MarketDataBuilder, plain: TestMarketData, q: Quote)
    requires Loading(builder, plain)
    modifies builder`prices, builder`fxRates, plain`prices, plain`fxRates
    ensures Loading(builder, plain) && builder.HasQuote()
  {
    match q {
      case Price(id, day, value) =>
        builder.AddPrice(id, day, value);
        plain.AddPrice(id, day, value);
      case Rate(src, dst, day, value) =>
        builder.AddFxRate(FxRate(src, dst, value), day);
        plain.AddFxRate(FxRate(src, dst, value), day);
    }
  }

  method AddToBoth(builder: MarketDataBuilder, plain: TestMarketData, w: Write)
    requires Loading(builder, plain)
    modifies builder, plain
    ensures Loading(builder, plain) && (builder.HasQuote() <==> old(builder.HasQuote()) || w.Quoted?)
  {
    match w {
      case Quoted(quote) =>
        QuoteBoth(builder, plain, quote);
      case Classified(id, kind) =>
        builder.AddInstrumentType(id, kind);
        plain.AddInstrumentType(id, kind);
      case Allocated(id, dimension, weight) =>
        builder.AddAllocation(id, dimension, weight);
        plain.AddAllocation(id, dimension, weight);
    }
  }

  /** The plain store is given the update if it succeeds. */
  method UpdateBoth(dense: ConcurrentMarketData, plain: TestMarketData, q: Quote)
    requires dense.Valid() && SameQuotes(dense, plain)
    requires dense.prices.notifier == null && dense.fxRates.notifier == null
    modifies dense.prices`data, dense.fxRates`data, plain`prices, plain`fxRates
    ensures dense.Valid() && SameQuotes(dense, plain)
  {
    match q {
      case Price(id, day, value) =>
        var r := dense.UpdatePrice(id, day, value);
        if r.Ok? {
          plain.AddPrice(id, day, value);
        }
      case Rate(src, dst, day, value) =>
        var r := dense.UpdateFxRate(Pair(src, dst), day, value);
        if r.Ok? {
          plain.AddFxRate(FxRate(src, dst, value), day);
        }
    }
  }

  /** A store built from a builder without a price or rate forgets instrument types and allocations: the
      types answer right if and only if there was a quote or every type is the default one, and the
      allocations if and only if there was one or there are none. */
  lemma TypesKeptIff(builder: MarketDataBuilder, dense: ConcurrentMarketData)
    requires dense.Keeps(builder)
    ensures (forall id :: dense.GetInstrumentType(id) == TypeIn(builder.instrumentTypes, id))
            <==> builder.HasQuote() || forall id :: TypeIn(builder.instrumentTypes, id) == Other
    ensures (forall id, d :: dense.GetAllocations(id, d) == WeightsIn(builder.allocations, id, d))
            <==> builder.HasQuote() || forall id, d :: WeightsIn(builder.allocations, id, d) == []
  {
    if !builder.HasQuote() {
      assert forall id :: dense.GetInstrumentType(id) == Other;
      assert forall id, d :: dense.GetAllocations(id, d) == [];
    }
  }

  /** For every sequence of writes before the store is built and every sequence of updates after, the
      store holds the same points as the plain one that is given the writes and the updates that
      succeed; so every lookup and every range answers the same, errors included. Types and allocations
      agree, too, exactly if some write was a quote or the plain store has nothing but defaults. */
  method Replay(writes: seq<Write>, updates: seq<Quote>) returns (dense: ConcurrentMarketData, plain: TestMarketData)
    ensures fresh(dense) && fresh(plain) && dense.Valid() && SameQuotes(dense, plain)
    ensures SameTypes(dense, plain) <==> AnyQuote(writes) || DefaultTypes(plain)
    ensures SameAllocations(dense, plain) <==> AnyQuote(writes) || NoAllocations(plain)
  {
    var builder;
    builder, plain := AddAll(writes);
    dense := Build(builder, plain);
    UpdateAll(dense, plain, updates);
  }

  method Build(builder: MarketDataBuilder, plain: TestMarketData) returns (dense: ConcurrentMarketData)
    requires Loading(builder, plain)
    ensures fresh(dense) && fresh(dense.prices) && fresh(dense.fxRates) && dense.Valid() && SameQuotes(dense, plain)
    ensures dense.prices.notifier == null && dense.fxRates.notifier == null
    ensures SameTypes(dense, plain) <==> builder.HasQuote() || DefaultTypes(plain)
    ensures SameAllocations(dense, plain) <==> builder.HasQuote() || NoAllocations(plain)
  {
    dense := new ConcurrentMarketData.FromBuilder(builder);
    SameIff(builder, plain, dense);
  }

  lemma SameIff(builder: MarketDataBuilder, plain: TestMarketData, dense: ConcurrentMarketData)
    requires Loading(builder, plain) && dense.Keeps(builder)
    ensures SameTypes(dense, plain) <==> builder.HasQuote() || DefaultTypes(plain)
    ensures SameAllocations(dense, plain) <==> builder.HasQuote() || NoAllocations(plain)
  {
    TypesKeptIff(builder, dense);
    assert forall id :: TypeIn(builder.instrumentTypes, id) == plain.GetInstrumentType(id);
    forall id, d
      ensures WeightsIn(builder.allocations, id, d) == plain.GetAllocations(id, d)
    {
    }
    if SameAllocations(dense, plain) {
      assert forall id, d :: dense.GetAllocations(id, d) == plain.GetAllocations(id, d);
      assert forall id, d :: dense.GetAllocations(id, d) == WeightsIn(builder.allocations, id, d);
    }
  }

  method AddAll(writes: seq<Write>) returns (builder: MarketDataBuilder, plain: TestMarketData)
    ensures fresh(builder) && fresh(plain) && Loading(builder, plain)
    ensures builder.HasQuote() <==> AnyQuote(writes)
  {
    plain := new TestMarketData();
    builder := new MarketDataBuilder();
    for i := 0 to |writes|
      invariant fresh(plain) && fresh(builder) && Loading(builder, plain)
      invariant builder.HasQuote() <==> AnyQuote(writes[..i])
    {
      assert writes[..i + 1] == writes[..i] + [writes[i]];
      AddToBoth(builder, plain, writes[i]);
    }
    assert writes[..|writes|] == writes;
  }

  method UpdateAll(dense: ConcurrentMarketData, plain: TestMarketData, updates: seq<Quote>)
    requires dense.Valid() && SameQuotes(dense, plain)
    requires dense.prices.notifier == null && dense.fxRates.notifier == null
    modifies dense.prices`data, dense.fxRates`data, plain`prices, plain`fxRates
    ensures dense.Valid() && SameQuotes(dense, plain)
  {
    for i := 0 to |updates|
      invariant dense.Valid() && SameQuotes(dense, plain)
    {
      UpdateBoth(dense, plain, updates[i]);
    }
  }
}
