// The backend's numeric conversions, with floats read as exact reals:
// `int(x)` on a float and `float(text)` on a decimal literal.
module Numbers {
  import opened Text

  /** Python's `int(x)` on a float: truncation towards zero. */
  function Truncate(x: real): (r: int)
    ensures x >= 0.0 ==> r >= 0 && r as real <= x < r as real + 1.0
    ensures x < 0.0 ==> r <= 0 && r as real - 1.0 < x <= r as real
  {
    if x >= 0.0 then x.Floor else -((-x).Floor)
  }

  function Pow10(n: nat): (r: nat)
    ensures r >= 1
  {
    if n == 0 then 1 else 10 * Pow10(n - 1)
  }

  /** `float(whole + "." + fraction)` for two runs of digits (the fraction possibly empty). */
  function DecimalValue(whole: string, fraction: string): (r: real)
    requires AllDigits(whole) && AllDigits(fraction)
    ensures r >= DigitsValue(whole) as real
  {
    DigitsValue(whole) as real + FractionValue(fraction)
  }

  /** The value `0.d1d2...` of the digits after a decimal point. */
  function FractionValue(f: string): (r: real)
    requires AllDigits(f)
    ensures 0.0 <= r < 1.0
    decreases |f|
  {
    if f == [] then 0.0 else ((f[0] as int - '0' as int) as real + FractionValue(f[1..])) / 10.0
  }
}
