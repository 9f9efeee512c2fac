/** JavaScript truthiness of the values the core tests with `!x`, `x || y` and `x && y`. */
module Js {
  import opened Wrappers

  /** A string is truthy exactly when it is present and non-empty. */
  predicate IsTruthyString(s: Option<string>) {
    s.Some? && s.value != ""
  }

  /** A number is truthy exactly when it is present and non-zero (NaN is not modelled). */
  predicate IsTruthyNumber(x: Option<real>) {
    x.Some? && x.value != 0.0
  }
}
