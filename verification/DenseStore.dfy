/** The dense market-data store (crates/calce-data/src/concurrent_market_data.rs) and the plain map
    store it must agree with (crates/calce-core/src/services/test_market_data.rs). Both are specified
    by the points they hold: for each key, which days have a value and which. A date is its number of
    days from the common era. */
module DenseStore {
  import opened Prelude
  import opened Cache
  import opened Domain
  import opened Sorting

  /** Every day that `chrono` can represent fits, so day arithmetic stays within 32 bits. */
  type Day = d: int | IsDay(d)

  predicate IsDay(d: int) { -100_000_000 <= d <= 100_000_000 }

  const I32_MIN := -0x8000_0000
  const I32_MAX := 0x7fff_ffff

  /** A value that is not the hole of a dense array. */
  type Number = f: Float | !f.NotANumber? witness Finite(0.0)

  datatype Pair = Pair(src: Currency, dst: Currency)

  datatype Point = Point(day: int, value: Number)

  datatype MarketError =
    | PriceNotFound(id: InstrumentId, day: int)
    | FxRateNotFound(src: Currency, dst: Currency, on: int)

  // ---- What a store holds for a key, and what it answers ----

  type Points = imap<int, Number>

  ghost function PriceIn(points: Points, id: InstrumentId, day: int): Result<Number, MarketError> {
    if day in points then Ok(points[day]) else Err(PriceNotFound(id, day))
  }

  ghost function RateIn(points: Points, pair: Pair, day: int): Result<FxRate<Number>, MarketError> {
    if pair.src == pair.dst then Ok(FxRate(pair.src, pair.src, Finite(1.0)))
    else if day in points then Ok(FxRate(pair.src, pair.dst, points[day]))
    else Err(FxRateNotFound(pair.src, pair.dst, day))
  }

  ghost function PointOn(points: Points, day: int): seq<Point> {
    if day in points then [Point(day, points[day])] else []
  }

  /** The points from day `first` to day `last`, in order. */
  ghost function Between(points: Points, first: int, last: int): seq<Point>
    decreases last - first
  {
    if last < first then [] else Between(points, first, last - 1) + PointOn(points, last)
  }

  ghost function HistoryIn(points: Points, id: InstrumentId, first: int, last: int): Result<seq<Point>, MarketError> {
    var found := Between(points, first, last);
    if found == [] then Err(PriceNotFound(id, first)) else Ok(found)
  }

  lemma {:induction false} BetweenNothing(points: Points, first: int, last: int)
    requires forall d :: first <= d <= last ==> d !in points
    ensures Between(points, first, last) == []
    decreases last - first
  {
    if first <= last {
      BetweenNothing(points, first, last - 1);
    }
  }

  lemma {:induction false} BetweenSplit(points: Points, first: int, middle: int, last: int)
    requires first <= middle + 1 && middle <= last
    ensures Between(points, first, last) == Between(points, first, middle) + Between(points, middle + 1, last)
    decreases last - middle
  {
    if middle < last {
      BetweenSplit(points, first, middle, last - 1);
    }
  }

  predicate DayBefore(a: Point, b: Point) { a.day < b.day }

  lemma {:induction false} BetweenIsByDay(points: Points, first: int, last: int)
    ensures Strict(Between(points, first, last), DayBefore)
    ensures forall p :: p in Between(points, first, last)
                    <==> first <= p.day <= last && p.day in points && points[p.day] == p.value
    decreases last - first
  {
    if first <= last {
      BetweenIsByDay(points, first, last - 1);
      var front := Between(points, first, last - 1);
      assert forall i :: 0 <= i < |front| ==> front[i] in front;
    }
  }

  /** What the lookups answer: the point of the day, or the error that names it; a currency is worth one of
      itself. */
  lemma LookupsAre(points: Points, id: InstrumentId, pair: Pair, day: int)
    ensures day in points ==> PriceIn(points, id, day) == Ok(points[day])
    ensures day !in points ==> PriceIn(points, id, day) == Err(PriceNotFound(id, day))
    ensures pair.src == pair.dst ==> RateIn(points, pair, day) == Ok(FxRate(pair.src, pair.src, Finite(1.0)))
    ensures pair.src != pair.dst && day in points
            ==> RateIn(points, pair, day) == Ok(FxRate(pair.src, pair.dst, points[day]))
    ensures pair.src != pair.dst && day !in points
            ==> RateIn(points, pair, day) == Err(FxRateNotFound(pair.src, pair.dst, day))
  {
  }

  /** And a range: exactly its points by ascending day, or the error that names its first day. */
  lemma RangesAre(points: Points, id: InstrumentId, first: int, last: int)
    ensures match HistoryIn(points, id, first, last)
            case Ok(found) =>
              && (forall i, j :: 0 <= i < j < |found| ==> found[i].day < found[j].day)
              && (forall p :: p in found <==> first <= p.day <= last && p.day in points && points[p.day] == p.value)
            case Err(e) => e == PriceNotFound(id, first) && forall d :: first <= d <= last ==> d !in points
  {
    BetweenIsByDay(points, first, last);
    var found := Between(points, first, last);
    forall d | first <= d <= last
      ensures d in points ==> found != []
    {
      if d in points {
        assert Point(d, points[d]) in found;
      }
    }
    forall i, j | 0 <= i < j < |found|
      ensures found[i].day < found[j].day
    {
      assert DayBefore(found[i], found[j]);
    }
  }

  // ---- The plain store ----

  ghost function PointsOf<K(!new)>(store: map<(K, int), Number>, k: K): Points {
    imap d: int | (k, d) in store :: store[(k, d)]
  }

  /** The type of an instrument, the default one if none was given. */
  function TypeIn(types: map<InstrumentId, InstrumentType>, id: InstrumentId): InstrumentType {
    if id in types then types[id] else Other
  }

  class TestMarketData {
    var prices: map<(InstrumentId, int), Number>
    var fxRates: map<(Pair, int), Number>
    var instrumentTypes: map<InstrumentId, InstrumentType>
    var allocations: map<(InstrumentId, string), seq<Weight>>

    ghost function Prices(id: InstrumentId): Points
      reads `prices
    {
      PointsOf(prices, id)
    }

    ghost function Rates(pair: Pair): Points
      reads `fxRates
    {
      PointsOf(fxRates, pair)
    }

    function GetInstrumentType(id: InstrumentId): InstrumentType
      reads `instrumentTypes
    {
      TypeIn(instrumentTypes, id)
    }

    function GetAllocations(id: InstrumentId, dimension: string): seq<Weight>
      reads `allocations
    {
      if (id, dimension) in allocations then allocations[(id, dimension)] else []
    }

    constructor ()
      ensures prices == map[] && fxRates == map[] && instrumentTypes == map[] && allocations == map[]
    {
      prices, fxRates, instrumentTypes, allocations := map[], map[], map[], map[];
    }

    method AddPrice(id: InstrumentId, day: Day, price: Number)
      modifies `prices
      ensures forall k :: Prices(k) == if k == id then old(Prices(k))[day := price] else old(Prices(k))
    {
      prices := prices[(id, day) := price];
    }

    method AddFxRate(rate: FxRate<Number>, day: Day)
      modifies `fxRates
      ensures forall k :: Rates(k) == if k == Pair(rate.src, rate.dst) then old(Rates(k))[day := rate.rate]
                                      else old(Rates(k))
    {
      fxRates := fxRates[(Pair(rate.src, rate.dst), day) := rate.rate];
    }

    method AddInstrumentType(id: InstrumentId, kind: InstrumentType)
      modifies `instrumentTypes
      ensures forall k :: GetInstrumentType(k) == if k == id then kind else old(GetInstrumentType(k))
    {
      instrumentTypes := instrumentTypes[id := kind];
    }

    method AddAllocation(id: InstrumentId, dimension: string, w: Weight)
      modifies `allocations
      ensures forall k, d :: GetAllocations(k, d)
                          == old(GetAllocations(k, d)) + (if k == id && d == dimension then [w] else [])
    {
      allocations := allocations[(id, dimension) := GetAllocations(id, dimension) + [w]];
    }

    method GetPrice(id: InstrumentId, day: Day) returns (r: Result<Number, MarketError>)
      ensures r == PriceIn(Prices(id), id, day)
    {
      r := if (id, day) in prices then Ok(prices[(id, day)]) else Err(PriceNotFound(id, day));
    }

    method GetFxRate(pair: Pair, day: Day) returns (r: Result<FxRate<Number>, MarketError>)
      ensures r == RateIn(Rates(pair), pair, day)
    {
      if pair.src == pair.dst {
        return Ok(FxRate(pair.src, pair.src, Finite(1.0)));
      }
      r := if (pair, day) in fxRates then Ok(FxRate(pair.src, pair.dst, fxRates[(pair, day)]))
           else Err(FxRateNotFound(pair.src, pair.dst, day));
    }

    /** Filters the entries in the map's own order, and sorts what is left by day. */
    method GetPriceHistory(id: InstrumentId, first: Day, last: Day) returns (r: Result<seq<Point>, MarketError>)
      ensures r == HistoryIn(Prices(id), id, first, last)
    {
      var found: seq<Point> := [];
      var rest := prices;
      while rest != map[]
        invariant forall e :: e in rest ==> e in prices && rest[e] == prices[e]
        invariant forall p :: p in found
                          <==> first <= p.day <= last && (id, p.day) in prices && (id, p.day) !in rest
                               && prices[(id, p.day)] == p.value
        invariant forall i, j :: 0 <= i < j < |found| ==> found[i].day != found[j].day
        decreases |rest|
      {
        var e: (InstrumentId, int) :| e in rest;
        if e.0 == id && first <= e.1 <= last {
          assert forall i :: 0 <= i < |found| ==> found[i] in found;
          found := found + [Point(e.1, rest[e])];
        }
        rest := rest - {e};
      }
      SortByStrict(found, DayBefore);
      SortByMembers(found, DayBefore);
      found := SortBy(found, DayBefore);
      BetweenIsByDay(Prices(id), first, last);
      StrictIsUnique(found, Between(Prices(id), first, last), DayBefore);
      r := if found == [] then Err(PriceNotFound(id, first)) else Ok(found);
    }
  }

  // ---- The builder ----

  /** The points pushed for a key: the last one of a day counts. */
  ghost function Latest(points: seq<Point>): Points {
    if points == [] then imap[] else
    var last := points[|points| - 1];
    Latest(points[..|points| - 1])[last.day := last.value]
  }

  ghost function Written<K>(pending: map<K, seq<Point>>, k: K): Points {
    if k in pending then Latest(pending[k]) else imap[]
  }

  ghost predicate HasPoint<K>(pending: map<K, seq<Point>>, day: int) {
    exists k, i :: k in pending && 0 <= i < |pending[k]| && pending[k][i].day == day
  }

  /** Every key has a point, and every point a day. */
  ghost predicate Pushed<K>(pending: map<K, seq<Point>>) {
    && (forall k :: k in pending ==> pending[k] != [])
    && (forall k, i :: k in pending && 0 <= i < |pending[k]| ==> IsDay(pending[k][i].day))
  }

  function Push<K>(pending: map<K, seq<Point>>, k: K, p: Point): map<K, seq<Point>> {
    pending[k := (if k in pending then pending[k] else []) + [p]]
  }

  lemma PushKeepsPushed<K(!new)>(pending: map<K, seq<Point>>, k: K, p: Point)
    requires Pushed(pending) && IsDay(p.day)
    ensures Pushed(Push(pending, k, p))
  {
    var now: map<K, seq<Point>> := Push(pending, k, p);
    forall x: K, i: int | x in now && 0 <= i < |now[x]|
      ensures IsDay(now[x][i].day)
    {
      if k in pending {
        assert x == k && i < |pending[k]| ==> now[x][i] == pending[k][i];
      }
      assert x != k ==> now[x][i] == pending[x][i];
    }
    assert forall x :: x in now ==> now[x] != [];
  }

  lemma PushWrites<K(!new)>(pending: map<K, seq<Point>>, k: K, p: Point)
    ensures forall x :: Written(Push(pending, k, p), x)
                        == if x == k then Written(pending, k)[p.day := p.value] else Written(pending, x)
  {
    var before := if k in pending then pending[k] else [];
    assert (before + [p])[..|before|] == before;
    assert Latest(before + [p]) == Latest(before)[p.day := p.value];
    assert Latest(before) == Written(pending, k);
  }

  /** The weights of an instrument in a dimension, none if there are none. */
  function WeightsIn(allocations: map<InstrumentId, map<string, seq<Weight>>>, id: InstrumentId, dimension: string)
    : seq<Weight>
  {
    if id in allocations && dimension in allocations[id] then allocations[id][dimension] else []
  }

  class MarketDataBuilder {
    var prices: map<InstrumentId, seq<Point>>
    var fxRates: map<Pair, seq<Point>>
    var instrumentTypes: map<InstrumentId, InstrumentType>
    var allocations: map<InstrumentId, map<string, seq<Weight>>>

    ghost predicate Valid()
      reads this
    {
      Pushed(prices) && Pushed(fxRates)
    }

    ghost function Prices(id: InstrumentId): Points
      reads `prices
    {
      Written(prices, id)
    }

    ghost function Rates(pair: Pair): Points
      reads `fxRates
    {
      Written(fxRates, pair)
    }

    constructor ()
      ensures Valid() && prices == map[] && fxRates == map[] && instrumentTypes == map[] && allocations == map[]
    {
      prices, fxRates, instrumentTypes, allocations := map[], map[], map[], map[];
    }

    /** Some price or rate was pushed. */
    predicate HasQuote()
      reads `prices, `fxRates
    {
      prices != map[] || fxRates != map[]
    }

    method AddInstrumentType(id: InstrumentId, kind: InstrumentType)
      modifies `instrumentTypes
      ensures forall k :: TypeIn(instrumentTypes, k) == if k == id then kind else old(TypeIn(instrumentTypes, k))
    {
      instrumentTypes := instrumentTypes[id := kind];
    }

    method AddAllocation(id: InstrumentId, dimension: string, w: Weight)
      modifies `allocations
      ensures forall k, d :: WeightsIn(allocations, k, d)
                          == old(WeightsIn(allocations, k, d)) + (if k == id && d == dimension then [w] else [])
    {
      var dimensions := if id in allocations then allocations[id] else map[];
      allocations := allocations[id := dimensions[dimension := WeightsIn(allocations, id, dimension) + [w]]];
    }

    method AddPrice(id: InstrumentId, day: Day, price: Number)
      requires Valid()
      modifies `prices
      ensures Valid() && HasQuote()
      ensures forall k :: Prices(k) == if k == id then old(Prices(k))[day := price] else old(Prices(k))
    {
      PushKeepsPushed(prices, id, Point(day, price));
      PushWrites(prices, id, Point(day, price));
      prices := Push(prices, id, Point(day, price));
      assert id in prices;
    }

    method AddFxRate(rate: FxRate<Number>, day: Day)
      requires Valid()
      modifies `fxRates
      ensures Valid() && HasQuote()
      ensures forall k :: Rates(k) == if k == Pair(rate.src, rate.dst) then old(Rates(k))[day := rate.rate]
                                      else old(Rates(k))
    {
      PushKeepsPushed(fxRates, Pair(rate.src, rate.dst), Point(day, rate.rate));
      PushWrites(fxRates, Pair(rate.src, rate.dst), Point(day, rate.rate));
      fxRates := Push(fxRates, Pair(rate.src, rate.dst), Point(day, rate.rate));
      assert Pair(rate.src, rate.dst) in fxRates;
    }
  }

  // ---- Dense arrays ----

  /** The points that an array of values, one a day from day `start` on, stands for. */
  ghost function PointsIn(values: seq<Float>, start: int): Points {
    imap d: int | Filled(values, start, d) :: values[d - start]
  }

  predicate Filled(values: seq<Float>, start: int, day: int) {
    0 <= day - start < |values| && !values[day - start].NotANumber?
  }

  lemma PointsAfterStore(values: seq<Float>, start: int, i: nat, v: Number)
    requires i < |values|
    ensures PointsIn(values[i := v], start) == PointsIn(values, start)[start + i := v]
  {
    var stored, updated := PointsIn(values[i := v], start), PointsIn(values, start)[start + i := v];
    forall d: int
      ensures (d in stored <==> d in updated) && (d in stored ==> stored[d] == updated[d])
    {
      if d != start + i {
        assert Filled(values[i := v], start, d) <==> Filled(values, start, d);
      }
    }
  }

  /** The last value that is not a hole. */
  function LastNonNan(values: seq<Float>): (r: Float)
    ensures r.NotANumber? <==> forall v :: v in values ==> v.NotANumber?
    ensures !r.NotANumber? ==> IsLast(values, r)
  {
    if values == [] then NotANumber else
    var front, last := values[..|values| - 1], values[|values| - 1];
    assert values == front + [last];
    if !last.NotANumber? then assert LastAt(values, last, |values| - 1); last else
    var r := LastNonNan(front);
    assert forall i :: 0 <= i < |front| && LastAt(front, r, i) ==> LastAt(values, r, i);
    r
  }

  predicate LastAt(values: seq<Float>, v: Float, i: int) {
    0 <= i < |values| && values[i] == v && forall j :: i < j < |values| ==> values[j].NotANumber?
  }

  ghost predicate IsLast(values: seq<Float>, v: Float) { exists i :: LastAt(values, v, i) }

  predicate AllWithin(points: seq<Point>, start: int, days: nat) {
    forall i :: 0 <= i < |points| ==> start <= points[i].day < start + days
  }

  /** The points stored one after another into an array of holes. */
  function Scattered(points: seq<Point>, start: int, days: nat): (r: seq<Float>)
    requires AllWithin(points, start, days)
    ensures |r| == days
  {
    if points == [] then seq(days, _ => NotANumber) else
    var last := points[|points| - 1];
    Scattered(points[..|points| - 1], start, days)[last.day - start := last.value]
  }

  /** The array stands for exactly the points, the last one of a day winning. */
  lemma {:induction false} ScatterKeepsLatest(points: seq<Point>, start: int, days: nat)
    requires AllWithin(points, start, days)
    ensures PointsIn(Scattered(points, start, days), start) == Latest(points)
  {
    if points == [] {
      NothingFilled(Scattered(points, start, days), start);
    } else {
      var front, last := points[..|points| - 1], points[|points| - 1];
      ScatterKeepsLatest(front, start, days);
      OneMorePoint(Scattered(front, start, days), start, Latest(front), last);
    }
  }

  lemma OneMorePoint(values: seq<Float>, start: int, points: Points, p: Point)
    requires 0 <= p.day - start < |values| && PointsIn(values, start) == points
    ensures PointsIn(values[p.day - start := p.value], start) == points[p.day := p.value]
  {
    PointsAfterStore(values, start, p.day - start, p.value);
  }

  lemma NothingFilled(values: seq<Float>, start: int)
    requires forall i :: 0 <= i < |values| ==> values[i].NotANumber?
    ensures PointsIn(values, start) == imap[]
  {
    forall d: int
      ensures !Filled(values, start, d)
    {
    }
  }

  /** Scatters the points into a fresh array with a hole on every other day. */
  method Scatter(points: seq<Point>, start: int, days: nat) returns (arr: array<Float>)
    requires AllWithin(points, start, days)
    ensures fresh(arr) && arr[..] == Scattered(points, start, days)
  {
    arr := new Float[days](_ => NotANumber);
    assert arr[..] == Scattered([], start, days);
    for i := 0 to |points|
      invariant arr[..] == Scattered(points[..i], start, days)
    {
      assert points[..i + 1][..i] == points[..i];
      arr[points[i].day - start] := points[i].value;
    }
    assert points[..|points|] == points;
  }

  ghost predicate InSpan<K>(pending: map<K, seq<Point>>, first: int, last: int) {
    forall k, i :: k in pending && 0 <= i < |pending[k]| ==> first <= pending[k][i].day <= last
  }

  /** The first and the last day of the points, together with what `lo` and `hi` were. */
  method Range<K(!new)>(pending: map<K, seq<Point>>, lo: int, hi: int) returns (first: int, last: int)
    requires Pushed(pending)
    ensures first <= lo && hi <= last
    ensures InSpan(pending, first, last)
    ensures first == lo || HasPoint(pending, first)
    ensures last == hi || HasPoint(pending, last)
  {
    first, last := lo, hi;
    var rest := pending.Keys;
    while rest != {}
      invariant first <= lo && hi <= last
      invariant rest <= pending.Keys
      invariant forall k, i :: k in pending && k !in rest && 0 <= i < |pending[k]|
                           ==> first <= pending[k][i].day <= last
      invariant first == lo || HasPoint(pending, first)
      invariant last == hi || HasPoint(pending, last)
    {
      var k :| k in rest;
      for i := 0 to |pending[k]|
        invariant first <= lo && hi <= last
        invariant forall k, i :: k in pending && k !in rest && 0 <= i < |pending[k]|
                             ==> first <= pending[k][i].day <= last
        invariant forall j :: 0 <= j < i ==> first <= pending[k][j].day <= last
        invariant first == lo || HasPoint(pending, first)
        invariant last == hi || HasPoint(pending, last)
      {
        var d := pending[k][i].day;
        first, last := if d < first then d else first, if d > last then d else last;
      }
      rest := rest - {k};
    }
  }

  // ---- The store ----

  ghost predicate Dense<K>(data: map<K, Entry>, days: nat) { forall k :: k in data ==> |data[k].history| == days }

  ghost function Held<K>(data: map<K, Entry>, start: int, k: K): Points {
    if k in data then PointsIn(data[k].history, start) else imap[]
  }

  /** Scatters the points of every key and inserts the arrays, in the map's own order. */
  method BulkLoad<K(!new, ==)>(pending: map<K, seq<Point>>, start: int, days: nat) returns (cache: TimeSeriesCache<K>)
    requires InSpan(pending, start, start + days - 1)
    ensures fresh(cache) && cache.notifier == null && Dense(cache.data, days) && cache.data.Keys == pending.Keys
    ensures forall k :: Held(cache.data, start, k) == Written(pending, k)
    ensures forall k :: k in cache.data ==> cache.data[k].current == LastNonNan(cache.data[k].history)
  {
    cache := new TimeSeriesCache<K>();
    var rest := pending.Keys;
    while rest != {}
      invariant fresh(cache) && cache.notifier == null && Dense(cache.data, days)
      invariant cache.data.Keys == pending.Keys - rest && rest <= pending.Keys
      invariant forall k :: k in cache.data ==> PointsIn(cache.data[k].history, start) == Latest(pending[k])
      invariant forall k :: k in cache.data ==> cache.data[k].current == LastNonNan(cache.data[k].history)
    {
      var k: K :| k in rest;
      var arr := Scatter(pending[k], start, days);
      ScatterKeepsLatest(pending[k], start, days);
      cache.Insert(k, LastNonNan(arr[..]), arr[..]);
      rest := rest - {k};
    }
  }

  lemma SomePoint<K>(pending: map<K, seq<Point>>, first: int, last: int)
    requires Pushed(pending) && InSpan(pending, first, last) && pending != map[]
    ensures first <= last
  {
    var k :| k in pending;
    assert first <= pending[k][0].day <= last;
  }

  /** The days to cover: from the first to the last point, none if there are no points. */
  method Span(builder: MarketDataBuilder) returns (start: int, days: nat)
    requires builder.Valid()
    ensures days == 0 <==> builder.prices == map[] && builder.fxRates == map[]
    ensures InSpan(builder.prices, start, start + days - 1) && InSpan(builder.fxRates, start, start + days - 1)
    ensures days > 0 ==> HasPoint(builder.prices, start) || HasPoint(builder.fxRates, start)
    ensures days > 0 ==> HasPoint(builder.prices, start + days - 1) || HasPoint(builder.fxRates, start + days - 1)
  {
    var lo, hi := Range(builder.prices, I32_MAX, I32_MIN);
    var first, last := Range(builder.fxRates, lo, hi);
    if builder.prices != map[] {
      SomePoint(builder.prices, lo, hi);
    }
    if builder.fxRates != map[] {
      SomePoint(builder.fxRates, first, last);
    }
    if first > last {
      return 0, 0;
    }
    start, days := first, last - first + 1;
  }

  class ConcurrentMarketData {
    const baseDay: int
    const numDays: nat
    const prices: TimeSeriesCache<InstrumentId>
    const fxRates: TimeSeriesCache<Pair>
    const instrumentTypes: map<InstrumentId, InstrumentType>
    const allocations: map<InstrumentId, map<string, seq<Weight>>>

    ghost predicate Valid()
      reads prices`data, fxRates`data
    {
      && prices as object != fxRates as object
      && Dense(prices.data, numDays) && Dense(fxRates.data, numDays)
    }

    ghost function Prices(id: InstrumentId): Points
      reads prices`data
    {
      Held(prices.data, baseDay, id)
    }

    ghost function Rates(pair: Pair): Points
      reads fxRates`data
    {
      Held(fxRates.data, baseDay, pair)
    }

    predicate Covers(day: int) { 0 <= day - baseDay < numDays }

    /** Holds exactly the points of the builder, the last one of a day winning. The covered days run
        from the first to the last point; with no point at all nothing is kept, instrument types
        and allocations included. */
    constructor FromBuilder(builder: MarketDataBuilder)
      requires builder.Valid()
      ensures Valid() && fresh(prices) && fresh(fxRates) && prices.notifier == null && fxRates.notifier == null
      ensures forall k :: Prices(k) == builder.Prices(k)
      ensures forall k :: Rates(k) == builder.Rates(k)
      ensures prices.data.Keys == builder.prices.Keys && fxRates.data.Keys == builder.fxRates.Keys
      ensures numDays > 0 <==> builder.HasQuote()
      ensures InSpan(builder.prices, baseDay, baseDay + numDays - 1)
      ensures InSpan(builder.fxRates, baseDay, baseDay + numDays - 1)
      ensures numDays > 0 ==> HasPoint(builder.prices, baseDay) || HasPoint(builder.fxRates, baseDay)
      ensures var last := baseDay + numDays - 1;
              numDays > 0 ==> HasPoint(builder.prices, last) || HasPoint(builder.fxRates, last)
      ensures Keeps(builder)
    {
      var start, days := Span(builder);
      var p := BulkLoad(builder.prices, start, days);
      var f := BulkLoad(builder.fxRates, start, days);
      baseDay, numDays, prices, fxRates := start, days, p, f;
      if days == 0 {
        instrumentTypes, allocations := map[], map[];
      } else {
        instrumentTypes, allocations := builder.instrumentTypes, builder.allocations;
      }
    }

    /** Types and allocations are the builder's, or none at all if it had no price and no rate. */
    ghost predicate Keeps(builder: MarketDataBuilder)
      reads builder
    {
      if builder.HasQuote() then instrumentTypes == builder.instrumentTypes && allocations == builder.allocations
      else instrumentTypes == map[] && allocations == map[]
    }

    function GetInstrumentType(id: InstrumentId): InstrumentType { TypeIn(instrumentTypes, id) }

    function GetAllocations(id: InstrumentId, dimension: string): seq<Weight> { WeightsIn(allocations, id, dimension) }

    function DateIndex(day: int): Option<nat> { if Covers(day) then Some(day - baseDay) else None }

    method GetPrice(id: InstrumentId, day: Day) returns (r: Result<Number, MarketError>)
      requires Valid()
      ensures r == PriceIn(Prices(id), id, day)
    {
      var index := DateIndex(day);
      if index.None? || id !in prices.data {
        return Err(PriceNotFound(id, day));
      }
      var value := prices.data[id].history[index.value];
      if value.NotANumber? {
        return Err(PriceNotFound(id, day));
      }
      r := Ok(value);
    }

    method GetFxRate(pair: Pair, day: Day) returns (r: Result<FxRate<Number>, MarketError>)
      requires Valid()
      ensures r == RateIn(Rates(pair), pair, day)
    {
      if pair.src == pair.dst {
        return Ok(FxRate(pair.src, pair.src, Finite(1.0)));
      }
      var index := DateIndex(day);
      if index.None? || pair !in fxRates.data {
        return Err(FxRateNotFound(pair.src, pair.dst, day));
      }
      var value := fxRates.data[pair].history[index.value];
      if value.NotANumber? {
        return Err(FxRateNotFound(pair.src, pair.dst, day));
      }
      r := Ok(FxRate(pair.src, pair.dst, value));
    }

    method GetPriceHistory(id: InstrumentId, first: Day, last: Day) returns (r: Result<seq<Point>, MarketError>)
      requires Valid()
      ensures r == HistoryIn(Prices(id), id, first, last)
    {
      if id !in prices.data {
        BetweenNothing(imap[], first, last);
        return Err(PriceNotFound(id, first));
      }
      var history := prices.data[id].history;
      var found := Collect(history, baseDay, first, last);
      r := if found == [] then Err(PriceNotFound(id, first)) else Ok(found);
    }

    /** Needs the day to be covered and the instrument to have had a point when the store was built. */
    method UpdatePrice(id: InstrumentId, day: Day, price: Number) returns (r: Result<(), CacheError>)
      requires Valid()
      modifies prices`data, prices.notifier
      ensures Valid() && prices.data.Keys == old(prices.data.Keys)
      ensures forall k :: k in prices.data ==> prices.data[k].current == old(prices.data)[k].current
      ensures r == if !Covers(day) then Err(IndexOutOfBounds)
                   else if id !in old(prices.data) then Err(KeyNotFound) else Ok(())
      ensures forall k :: Prices(k) == if r.Ok? && k == id then old(Prices(k))[day := price] else old(Prices(k))
    {
      var index := DateIndex(day);
      if index.None? {
        return Err(IndexOutOfBounds);
      }
      if id in prices.data {
        PointsAfterStore(prices.data[id].history, baseDay, index.value, price);
      }
      r := prices.UpdateHistory(id, index.value, price);
    }

    method UpdateFxRate(pair: Pair, day: Day, rate: Number) returns (r: Result<(), CacheError>)
      requires Valid()
      modifies fxRates`data, fxRates.notifier
      ensures Valid() && fxRates.data.Keys == old(fxRates.data.Keys)
      ensures forall k :: k in fxRates.data ==> fxRates.data[k].current == old(fxRates.data)[k].current
      ensures r == if !Covers(day) then Err(IndexOutOfBounds)
                   else if pair !in old(fxRates.data) then Err(KeyNotFound) else Ok(())
      ensures forall k :: Rates(k) == if r.Ok? && k == pair then old(Rates(k))[day := rate] else old(Rates(k))
    {
      var index := DateIndex(day);
      if index.None? {
        return Err(IndexOutOfBounds);
      }
      if pair in fxRates.data {
        PointsAfterStore(fxRates.data[pair].history, baseDay, index.value, rate);
      }
      r := fxRates.UpdateHistory(pair, index.value, rate);
    }
  }

  /** The values from index `start` to before `end` that are not holes, with their days. */
  function Values(history: seq<Float>, base: int, start: nat, end: nat): seq<Point>
    requires start < end ==> end <= |history|
  {
    if end <= start then []
    else if history[end - 1].NotANumber? then Values(history, base, start, end - 1)
    else Values(history, base, start, end - 1) + [Point(base + end - 1, history[end - 1])]
  }

  /** The points are the values of the array that are not holes. */
  ghost predicate StandsFor(points: Points, history: seq<Float>, base: int) {
    && (forall d :: d in points <==> Filled(history, base, d))
    && (forall d :: d in points ==> points[d] == history[d - base])
  }

  lemma {:induction false} ValuesAreBetween(points: Points, history: seq<Float>, base: int, start: nat, end: nat)
    requires StandsFor(points, history, base) && start <= end && (start < end ==> end <= |history|)
    ensures Values(history, base, start, end) == Between(points, base + start, base + end - 1)
  {
    if start < end {
      ValuesAreBetween(points, history, base, start, end - 1);
      assert base + end - 1 in points <==> Filled(history, base, base + end - 1);
    }
  }

  /** Clamps the range of days to the array and collects the values that are not holes. */
  method Collect(history: seq<Float>, base: int, first: int, last: int) returns (found: seq<Point>)
    ensures found == Between(PointsIn(history, base), first, last)
  {
    var start, end := Max0(first - base), Min(Max0(last - base + 1), |history|);
    found := [];
    for i := start to Max(start, end)
      invariant found == Values(history, base, start, i)
    {
      if !history[i].NotANumber? {
        found := found + [Point(base + i, history[i])];
      }
    }
    CollectedAll(history, base, first, last);
  }

  lemma CollectedAll(history: seq<Float>, base: int, first: int, last: int)
    ensures var start, end := Max0(first - base), Min(Max0(last - base + 1), |history|);
            Values(history, base, start, Max(start, end)) == Between(PointsIn(history, base), first, last)
  {
    PointsStandFor(history, base);
    var start, end := Max0(first - base), Min(Max0(last - base + 1), |history|);
    WithinSpan(PointsIn(history, base), history, base);
    ClampedValues(PointsIn(history, base), history, base, first, last, start, Max(start, end));
  }

  lemma PointsStandFor(history: seq<Float>, base: int)
    ensures StandsFor(PointsIn(history, base), history, base)
  {
  }

  lemma ClampedValues(points: Points, history: seq<Float>, base: int, first: int, last: int, start: nat, end: nat)
    requires StandsFor(points, history, base) && Spanned(points, base, |history|)
    requires start == Max0(first - base) && end == Max(start, Min(Max0(last - base + 1), |history|))
    ensures Values(history, base, start, end) == Between(points, first, last)
  {
    ValuesAreBetween(points, history, base, start, end);
    BetweenClamped(points, base, |history|, first, last, start, end);
  }

  ghost predicate Spanned(points: Points, base: int, days: nat) {
    forall d :: d in points ==> base <= d < base + days
  }

  lemma WithinSpan(points: Points, history: seq<Float>, base: int)
    requires StandsFor(points, history, base)
    ensures Spanned(points, base, |history|)
  {
    forall d | d in points
      ensures base <= d < base + |history|
    {
      assert Filled(history, base, d);
    }
  }

  /** Clamping a range of days to the array's changes nothing: there are no points outside. */
  lemma BetweenClamped(points: Points, base: int, days: nat, first: int, last: int, start: nat, end: nat)
    requires Spanned(points, base, days)
    requires start == Max0(first - base) && end == Max(start, Min(Max0(last - base + 1), days))
    ensures Between(points, base + start, base + end - 1) == Between(points, first, last)
  {
    BetweenNarrowed(points, base + start, base + end - 1, first, last);
  }

  lemma BetweenNarrowed(points: Points, lo: int, hi: int, first: int, last: int)
    requires first <= lo && (lo <= hi ==> hi <= last)
    requires forall d :: first <= d <= last && d in points ==> lo <= d <= hi
    ensures Between(points, lo, hi) == Between(points, first, last)
  {
    if hi < lo {
      BetweenNothing(points, first, last);
    } else {
      assert Between(points, first, last) == Between(points, lo, last) by {
        BetweenSplit(points, first, lo - 1, last);
        BetweenNothing(points, first, lo - 1);
      }
      assert Between(points, lo, last) == Between(points, lo, hi) by {
        BetweenSplit(points, lo, hi, last);
        BetweenNothing(points, hi + 1, last);
      }
    }
  }
}
