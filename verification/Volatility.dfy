/** Realized volatility (crates/calce-core/src/calc/volatility.rs:33-118) in reals, for any functions in
    the place of the natural logarithm and the square root. */
module Volatility {
  import opened Prelude
  import opened Sums

  const MIN_HISTORY_DAYS := 60

  const TRADING_DAYS_PER_YEAR := 252.0

  datatype Quote = Quote(day: int, price: real)

  datatype Insufficient = FewPrices | ShortHistory | LowCoverage | NotFinite

  datatype Volatility = Volatility(annualized: real, daily: real, observations: nat, start: int, end: int)

  /** The prices above zero. */
  function Valid(all: seq<Quote>): (r: seq<Quote>)
    ensures |r| <= |all|
    ensures forall q :: q in r <==> q in all && q.price > 0.0
  {
    if all == [] then [] else
    var front, last := all[..|all| - 1], all[|all| - 1];
    assert all == front + [last];
    if last.price > 0.0 then Valid(front) + [last] else Valid(front)
  }

  /** How many records lie on a day or after it. */
  function RecordsFrom(all: seq<Quote>, day: int): (n: nat)
    ensures (exists q :: q in all && q.day >= day) ==> n > 0
  {
    if all == [] then 0 else
    var front, last := all[..|all| - 1], all[|all| - 1];
    assert all == front + [last];
    RecordsFrom(front, day) + if last.day >= day then 1 else 0
  }

  function Validate(asOf: int, all: seq<Quote>, valid: seq<Quote>): Option<Insufficient> {
    if |valid| < 3 then Some(FewPrices)
    else if asOf - valid[0].day < MIN_HISTORY_DAYS then Some(ShortHistory)
    else
      var records := RecordsFrom(all, valid[0].day);
      if records > 0 && |valid| * 100 / records < 80 then Some(LowCoverage) else None
  }

  /** The logarithms of the ratios of neighbours. */
  function LogReturns(quotes: seq<Quote>, ln: real -> real): (r: seq<real>)
    requires forall i :: 0 <= i < |quotes| ==> quotes[i].price > 0.0
    ensures |quotes| > 0 ==> |r| == |quotes| - 1
  {
    if |quotes| < 2 then [] else
    var n := |quotes| - 1;
    LogReturns(quotes[..n], ln) + [ln(quotes[n].price / quotes[n - 1].price)]
  }

  function Itself(v: real): real { v }

  function Mean(values: seq<real>): real
    requires values != []
  {
    SumBy(values, Itself) / (|values| as real)
  }

  function Product(a: real, b: real): real { a * b }

  function Deviation(mean: real): real -> real { (v: real) => Product(v - mean, v - mean) }

  function Variance(values: seq<real>): real
    requires |values| >= 2
  {
    SumBy(values, Deviation(Mean(values))) / (|values| as real - 1.0)
  }

  /** Not a number for fewer than two values. */
  function SampleStdDev(sqrt: real -> real): seq<real> -> Option<real> {
    (values: seq<real>) => if |values| < 2 then None else Some(sqrt(Variance(values)))
  }

  function Annualized(sqrt: real -> real): real -> real { (daily: real) => daily * sqrt(TRADING_DAYS_PER_YEAR) }

  function CalculateVolatility(all: seq<Quote>, asOf: int, ln: real -> real, sqrt: real -> real)
    : Result<Volatility, Insufficient>
  {
    CalculateWith(all, asOf, ln, SampleStdDev(sqrt), Annualized(sqrt))
  }

  /** The calculation for any deviation of the returns and any way to annualize it. */
  function CalculateWith(all: seq<Quote>, asOf: int, ln: real -> real, deviation: seq<real> -> Option<real>,
                         annual: real -> real): Result<Volatility, Insufficient>
  {
    var quotes := Valid(all);
    var refusal := Validate(asOf, all, quotes);
    if refusal.Some? then Err(refusal.value)
    else
      var changes := LogReturns(quotes, ln);
      var daily := deviation(changes);
      if daily.None? then Err(NotFinite)
      else Ok(Volatility(annual(daily.value), daily.value, |changes|, quotes[0].day, quotes[|quotes| - 1].day))
  }

  // ---- Acceptance ----

  /** The integer test of coverage is the exact one of four fifths. */
  lemma CoverageIsExact(valid: nat, records: nat)
    requires records > 0
    ensures valid * 100 / records < 80 <==> 5 * valid < 4 * records
  {
    var q := valid * 100 / records;
    assert q * records <= valid * 100 < (q + 1) * records;
    if q < 80 {
      assert (q + 1) * records <= 80 * records;
    } else {
      assert 80 * records <= q * records;
    }
  }

  /** Accepted exactly with three valid prices or more, sixty days from the first one, and four fifths of
      the records from then on valid. */
  lemma AcceptedIff(all: seq<Quote>, asOf: int, ln: real -> real, sqrt: real -> real)
    ensures CalculateVolatility(all, asOf, ln, sqrt).Ok?
            <==> var quotes := Valid(all);
                 |quotes| >= 3 && asOf - quotes[0].day >= 60 && 5 * |quotes| >= 4 * RecordsFrom(all, quotes[0].day)
  {
    var quotes := Valid(all);
    if |quotes| >= 3 {
      assert quotes[0] in all && quotes[0].day >= quotes[0].day;
      CoverageIsExact(|quotes|, RecordsFrom(all, quotes[0].day));
    }
  }

  /** Refused for the first reason that applies. */
  lemma RefusedBecause(all: seq<Quote>, asOf: int, ln: real -> real, sqrt: real -> real)
    ensures var quotes, r := Valid(all), CalculateVolatility(all, asOf, ln, sqrt);
            && (|quotes| < 3 ==> r == Err(FewPrices))
            && (|quotes| >= 3 && asOf - quotes[0].day < 60 ==> r == Err(ShortHistory))
            && (|quotes| >= 3 && asOf - quotes[0].day >= 60 && 5 * |quotes| < 4 * RecordsFrom(all, quotes[0].day) ==>
                  r == Err(LowCoverage))
  {
    var quotes := Valid(all);
    if |quotes| >= 3 {
      assert quotes[0] in all && quotes[0].day >= quotes[0].day;
      CoverageIsExact(|quotes|, RecordsFrom(all, quotes[0].day));
    }
  }

  /** What one more record adds: to the valid prices, in order, and to the count of records. */
  lemma OneMoreRecord(all: seq<Quote>, q: Quote, day: int)
    ensures Valid([]) == [] && Valid(all + [q]) == Valid(all) + if q.price > 0.0 then [q] else []
    ensures RecordsFrom([], day) == 0
    ensures RecordsFrom(all + [q], day) == RecordsFrom(all, day) + if q.day >= day then 1 else 0
  {
    assert (all + [q])[..|all|] == all;
  }

  // ---- What is computed ----

  /** Each return is the logarithm of a price over the one before it. */
  lemma {:induction false} ReturnIs(quotes: seq<Quote>, ln: real -> real, i: nat)
    requires forall k :: 0 <= k < |quotes| ==> quotes[k].price > 0.0
    requires i + 1 < |quotes|
    ensures |LogReturns(quotes, ln)| == |quotes| - 1
    ensures LogReturns(quotes, ln)[i] == ln(quotes[i + 1].price / quotes[i].price)
  {
    var n := |quotes| - 1;
    if i + 1 < n {
      ReturnIs(quotes[..n], ln, i);
    }
  }

  function SquareFrom(mean: real): real -> real { (v: real) => (v - mean) * (v - mean) }

  /** The mean is the sum over the number of values; the variance the sum of the squares of the distances
      from it over one less. */
  lemma VarianceIs(values: seq<real>) returns (mean: real)
    requires |values| >= 2
    ensures mean * (|values| as real) == SumBy(values, v => v)
    ensures Variance(values) * (|values| as real - 1.0) == SumBy(values, SquareFrom(mean))
  {
    mean := Mean(values);
    SumSame(values, Itself, v => v);
    forall v | v in values
      ensures Deviation(mean)(v) == SquareFrom(mean)(v)
    {
      SquareIs(v - mean);
    }
    SumSame(values, Deviation(mean), SquareFrom(mean));
    TimesDivisor(SumBy(values, Itself), |values| as real);
    TimesDivisor(SumBy(values, Deviation(mean)), |values| as real - 1.0);
  }

  lemma SquareIs(d: real)
    ensures Product(d, d) == d * d
  {
  }

  lemma TimesDivisor(a: real, b: real)
    requires b != 0.0
    ensures a / b * b == a
  {
  }

  lemma ResultWith(all: seq<Quote>, asOf: int, ln: real -> real, deviation: seq<real> -> Option<real>,
                   annual: real -> real) returns (r: Volatility, quotes: seq<Quote>, changes: seq<real>)
    requires CalculateWith(all, asOf, ln, deviation, annual).Ok?
    ensures quotes == Valid(all) && |quotes| >= 3
    ensures CalculateWith(all, asOf, ln, deviation, annual) == Ok(r) && changes == LogReturns(quotes, ln)
    ensures Some(r.daily) == deviation(changes) && r.annualized == annual(r.daily)
    ensures r.observations == |quotes| - 1 && r.start == quotes[0].day && r.end == quotes[|quotes| - 1].day
  {
    r, quotes := CalculateWith(all, asOf, ln, deviation, annual).value, Valid(all);
    changes := LogReturns(quotes, ln);
  }

  /** The result: the square root of the variance of the returns a day, times that of 252 a year; as many
      observations as returns; from the first valid price to the last. */
  lemma ResultIs(all: seq<Quote>, asOf: int, ln: real -> real, sqrt: real -> real)
    returns (r: Volatility, quotes: seq<Quote>, changes: seq<real>)
    requires CalculateVolatility(all, asOf, ln, sqrt).Ok?
    ensures quotes == Valid(all) && changes == LogReturns(quotes, ln) && |changes| == |quotes| - 1 >= 2
    ensures CalculateVolatility(all, asOf, ln, sqrt) == Ok(r)
    ensures r.daily == sqrt(Variance(changes)) && r.annualized == r.daily * sqrt(252.0)
    ensures r.observations == |changes| && r.start == quotes[0].day && r.end == quotes[|quotes| - 1].day
  {
    r, quotes, changes := ResultWith(all, asOf, ln, SampleStdDev(sqrt), Annualized(sqrt));
  }

  // ---- Variance ----

  predicate AllAre(values: seq<real>, v: real) { forall i :: 0 <= i < |values| ==> values[i] == v }

  predicate AllEqual(values: seq<real>) { forall i, j :: 0 <= i < j < |values| ==> values[i] == values[j] }

  lemma ProductSign(a: real, b: real)
    ensures a == 0.0 ==> Product(a, b) == 0.0
    ensures a > 0.0 && b > 0.0 ==> Product(a, b) > 0.0
    ensures a < 0.0 && b < 0.0 ==> Product(a, b) > 0.0
  {
    if a < 0.0 && b < 0.0 {
      assert a * b == (-a) * (-b) > 0.0;
    }
  }

  lemma DeviationIsPositive(v: real, mean: real)
    ensures v == mean ==> Deviation(mean)(v) == 0.0
    ensures v != mean ==> Deviation(mean)(v) > 0.0
  {
    ProductSign(v - mean, v - mean);
  }

  lemma {:induction false} SquaresAdd(values: seq<real>, mean: real)
    ensures SumBy(values, Deviation(mean)) >= 0.0
    ensures AllAre(values, mean) ==> SumBy(values, Deviation(mean)) == 0.0
    ensures !AllAre(values, mean) ==> SumBy(values, Deviation(mean)) > 0.0
  {
    if values != [] {
      var front, last := values[..|values| - 1], values[|values| - 1];
      SquaresAdd(front, mean);
      DeviationIsPositive(last, mean);
      assert AllAre(values, mean) <==> AllAre(front, mean) && last == mean;
    }
  }

  /** `n` times `v`. */
  function Repeated(v: real, n: nat): real { if n == 0 then 0.0 else Repeated(v, n - 1) + v }

  lemma {:induction false} RepeatedIsProduct(v: real, n: nat)
    ensures Repeated(v, n) == v * (n as real)
  {
    if n > 0 {
      RepeatedIsProduct(v, n - 1);
      assert v * (n as real) == v * ((n - 1) as real) + v;
    }
  }

  lemma {:induction false} SumOfEqual(values: seq<real>, v: real)
    requires AllAre(values, v)
    ensures SumBy(values, Itself) == Repeated(v, |values|)
  {
    if values != [] {
      SumOfEqual(values[..|values| - 1], v);
    }
  }

  lemma Quotient(a: real, b: real)
    requires b > 0.0
    ensures a >= 0.0 ==> a / b >= 0.0
    ensures a / b == 0.0 <==> a == 0.0
    ensures a * b / b == a
  {
  }

  lemma MeanOfEqual(values: seq<real>, v: real)
    requires AllAre(values, v) && values != []
    ensures Mean(values) == v
  {
    SumOfEqual(values, v);
    RepeatedIsProduct(v, |values|);
    Quotient(v, |values| as real);
  }

  /** The sample variance is never negative, and zero exactly when all values are equal. */
  lemma VarianceIsPositive(values: seq<real>)
    requires |values| >= 2
    ensures Variance(values) >= 0.0
    ensures Variance(values) == 0.0 <==> AllEqual(values)
  {
    var mean := Mean(values);
    SquaresAdd(values, mean);
    Quotient(SumBy(values, Deviation(mean)), |values| as real - 1.0);
    if AllEqual(values) {
      assert AllAre(values, values[0]);
      MeanOfEqual(values, values[0]);
    }
  }

  function Shifted(values: seq<real>, d: real): (r: seq<real>)
    ensures |r| == |values|
  {
    if values == [] then [] else Shifted(values[..|values| - 1], d) + [values[|values| - 1] + d]
  }

  lemma {:induction false} ShiftedSum(values: seq<real>, d: real)
    ensures SumBy(Shifted(values, d), Itself) == SumBy(values, Itself) + Repeated(d, |values|)
  {
    if values != [] {
      var front, last := values[..|values| - 1], values[|values| - 1];
      ShiftedSum(front, d);
      SumSnoc(Shifted(front, d), last + d, Itself);
    }
  }

  lemma {:induction false} ShiftedDeviations(values: seq<real>, d: real, mean: real)
    ensures SumBy(Shifted(values, d), Deviation(mean + d)) == SumBy(values, Deviation(mean))
  {
    if values != [] {
      var front, last := values[..|values| - 1], values[|values| - 1];
      ShiftedDeviations(front, d, mean);
      SumSnoc(Shifted(front, d), last + d, Deviation(mean + d));
      assert last + d - (mean + d) == last - mean;
    }
  }

  lemma MeanShifts(values: seq<real>, d: real)
    requires values != []
    ensures Mean(Shifted(values, d)) == Mean(values) + d
  {
    ShiftedSum(values, d);
    RepeatedIsProduct(d, |values|);
    QuotientOfSum(SumBy(values, Itself), d, |values| as real);
  }

  lemma QuotientOfSum(sum: real, d: real, n: real)
    requires n > 0.0
    ensures (sum + d * n) / n == sum / n + d
  {
    Quotient(d, n);
  }

  /** Shifting every value leaves the variance what it is. */
  lemma VarianceIgnoresShift(values: seq<real>, d: real)
    requires |values| >= 2
    ensures Variance(Shifted(values, d)) == Variance(values)
  {
    MeanShifts(values, d);
    ShiftedDeviations(values, d, Mean(values));
  }

  // ---- Scale ----

  /** The prices in another unit. */
  function Requoted(quotes: seq<Quote>, unit: real -> real): (r: seq<Quote>)
    ensures |r| == |quotes| && forall i :: 0 <= i < |r| ==> r[i] == Quote(quotes[i].day, unit(quotes[i].price))
  {
    if quotes == [] then [] else
    var last := quotes[|quotes| - 1];
    Requoted(quotes[..|quotes| - 1], unit) + [Quote(last.day, unit(last.price))]
  }

  function Times(c: real): real -> real { (p: real) => p * c }

  predicate SignKept(unit: real -> real, p: real) { unit(p) > 0.0 <==> p > 0.0 }

  predicate RatioKept(unit: real -> real, a: real, b: real) { a > 0.0 && unit(a) > 0.0 ==> unit(b) / unit(a) == b / a }

  ghost predicate IsUnit(unit: real -> real) {
    (forall p :: SignKept(unit, p)) && forall a, b :: RatioKept(unit, a, b)
  }

  lemma FactorIsUnit(c: real)
    requires c > 0.0
    ensures IsUnit(Times(c))
  {
    forall p
      ensures SignKept(Times(c), p)
    {
      FactorSign(p, c);
    }
    forall a, b
      ensures RatioKept(Times(c), a, b)
    {
      if a > 0.0 {
        Cancels(a, b, c);
      }
    }
  }

  lemma FactorSign(p: real, c: real)
    requires c > 0.0
    ensures p * c > 0.0 <==> p > 0.0
  {
  }

  lemma Cancels(a: real, b: real, c: real)
    requires a > 0.0 && c > 0.0
    ensures a * c > 0.0 && (b * c) / (a * c) == b / a
  {
    var q := b / a;
    assert b * c == q * (a * c);
  }

  lemma {:induction false} RequotedValid(all: seq<Quote>, unit: real -> real)
    requires IsUnit(unit)
    ensures Valid(Requoted(all, unit)) == Requoted(Valid(all), unit)
  {
    if all != [] {
      var front, last := all[..|all| - 1], all[|all| - 1];
      RequotedValid(front, unit);
      assert SignKept(unit, last.price);
      assert Requoted(all, unit)[..|front|] == Requoted(front, unit);
      if last.price > 0.0 {
        assert (Valid(front) + [last])[..|Valid(front)|] == Valid(front);
      }
    }
  }

  lemma {:induction false} RequotedRecords(all: seq<Quote>, day: int, unit: real -> real)
    ensures RecordsFrom(Requoted(all, unit), day) == RecordsFrom(all, day)
  {
    if all != [] {
      var front := all[..|all| - 1];
      RequotedRecords(front, day, unit);
      assert Requoted(all, unit)[..|front|] == Requoted(front, unit);
    }
  }

  lemma RequotedPositive(quotes: seq<Quote>, unit: real -> real)
    requires IsUnit(unit) && forall i :: 0 <= i < |quotes| ==> quotes[i].price > 0.0
    ensures forall i :: 0 <= i < |quotes| ==> Requoted(quotes, unit)[i].price > 0.0
  {
    assert forall i :: 0 <= i < |quotes| ==> SignKept(unit, quotes[i].price);
  }

  lemma {:induction false} RequotedReturns(quotes: seq<Quote>, ln: real -> real, unit: real -> real)
    requires IsUnit(unit) && forall i :: 0 <= i < |quotes| ==> quotes[i].price > 0.0
    requires forall i :: 0 <= i < |quotes| ==> Requoted(quotes, unit)[i].price > 0.0
    ensures LogReturns(Requoted(quotes, unit), ln) == LogReturns(quotes, ln)
  {
    if |quotes| >= 2 {
      var n := |quotes| - 1;
      assert Requoted(quotes, unit)[..n] == Requoted(quotes[..n], unit);
      RequotedReturns(quotes[..n], ln, unit);
      assert RatioKept(unit, quotes[n - 1].price, quotes[n].price);
    }
  }

  /** Quoting the prices in another unit changes neither the decision nor the result. */
  lemma VolatilityIgnoresScale(all: seq<Quote>, asOf: int, ln: real -> real, sqrt: real -> real, c: real)
    requires c > 0.0
    ensures CalculateVolatility(Requoted(all, Times(c)), asOf, ln, sqrt) == CalculateVolatility(all, asOf, ln, sqrt)
  {
    FactorIsUnit(c);
    UnitIsIgnored(all, asOf, ln, SampleStdDev(sqrt), Annualized(sqrt), Times(c));
  }

  lemma SameDecision(all: seq<Quote>, quotes: seq<Quote>, asOf: int, unit: real -> real)
    ensures Validate(asOf, Requoted(all, unit), Requoted(quotes, unit)) == Validate(asOf, all, quotes)
  {
    if quotes != [] {
      RequotedRecords(all, quotes[0].day, unit);
    }
  }

  lemma UnitIsIgnored(all: seq<Quote>, asOf: int, ln: real -> real, deviation: seq<real> -> Option<real>,
                      annual: real -> real, unit: real -> real)
    requires IsUnit(unit)
    ensures CalculateWith(Requoted(all, unit), asOf, ln, deviation, annual)
            == CalculateWith(all, asOf, ln, deviation, annual)
  {
    var quotes := Valid(all);
    RequotedValid(all, unit);
    SameDecision(all, quotes, asOf, unit);
    RequotedPositive(quotes, unit);
    RequotedReturns(quotes, ln, unit);
  }
}
