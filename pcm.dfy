/** Float-to-16-bit conversion as the browser clients perform it: the float
    sample is scaled, and storing it into an `Int16Array` applies JavaScript's
    ToInt16 (truncation toward zero, then wrap-around modulo 2^16). Float32
    rounding is not modelled: samples are exact reals. */
module Pcm {

  /** Truncation toward zero, as ToIntegerOrInfinity does. */
  function TruncToInt(x: real): (r: int)
    ensures x >= 0.0 ==> 0.0 <= r as real <= x < r as real + 1.0
    ensures x < 0.0 ==> r as real - 1.0 < x <= r as real <= 0.0
  {
    if x >= 0.0 then x.Floor else -((-x).Floor)
  }

  /** JavaScript's ToInt16 of a finite number. */
  function ToInt16(x: real): (r: int)
    ensures -32768 <= r < 32768
    ensures -32768.0 <= x < 32768.0 ==> r == TruncToInt(x)
  {
    var t := TruncToInt(x);
    (t + 32768) % 65536 - 32768
  }

  function Min(a: real, b: real): real { if a <= b then a else b }
  function Max(a: real, b: real): real { if a >= b then a else b }

  /** `Math.max(-1, Math.min(1, x))`. */
  function Clamp(x: real): (r: real)
    ensures -1.0 <= r <= 1.0
    ensures -1.0 <= x <= 1.0 ==> r == x
  {
    Max(-1.0, Min(1.0, x))
  }
}
