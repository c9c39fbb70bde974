/**
 * Python floats as they occur in the core: configuration temperatures and confidence scores.
 * They are only stored, compared for identity and passed on, so a float is written as the
 * decimal `digits * 10^exponent` it was typed as (`0.9` is `Decimal(9, -1)`).
 */
module Decimals {
  datatype Decimal = Decimal(digits: int, exponent: int)

  /** The decimal `n / 10`, as in the literals `0.5`, `0.7` and `0.9`. */
  function Tenths(n: int): (d: Decimal)
    ensures d.digits == n && d.exponent == -1
  {
    Decimal(n, -1)
  }
}
