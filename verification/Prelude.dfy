/** What every module uses: Rust's `Option`, `Result` and `f64`, and a few small functions. */
module Prelude {
  datatype Option<+T> = None | Some(value: T)

  datatype Result<+T, +E> = Ok(value: T) | Err(error: E)

  /** An `f64`: rounding is not modelled, `NotANumber` is the hole in a dense array. */
  datatype Float = Finite(value: real) | Infinite(negative: bool) | NotANumber

  function Min(a: int, b: int): int { if a < b then a else b }

  function Max(a: int, b: int): int { if a < b then b else a }

  /** A negative count or index as zero. */
  function Max0(n: int): nat { Max(n, 0) }

  predicate Distinct<T(==)>(s: seq<T>) { forall i, j :: 0 <= i < j < |s| ==> s[i] != s[j] }
}
