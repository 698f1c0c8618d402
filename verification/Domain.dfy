/** The entities that the market-data store and the calculations share
    (crates/calce-core/src/domain). */
module Domain {
  type InstrumentId = string

  type Currency(==, !new)

  /** One unit of `src` is `rate` units of `dst`; `V` is how a calculation sees an `f64`. */
  datatype FxRate<+V> = FxRate(src: Currency, dst: Currency, rate: V)

  datatype InstrumentType =
    Stock | Bond | Etf | MutualFund | Certificate | OptionContract | Warrant | StructuredProduct | Future | Other

  /** A category of an allocation dimension, and its part of an instrument. */
  datatype Weight = Weight(category: string, share: real)
}
