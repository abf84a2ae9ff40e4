/**
 * Kotlin's numeric conversions used by the layout and colour code, over
 * exact reals: `toInt()` on a floating-point value truncates toward zero
 * and saturates at the 32-bit range, and `%` on floating-point values
 * keeps the sign of the dividend.
 */
module KotlinNumbers {

  const IntMin := -0x8000_0000
  const IntMax := 0x7FFF_FFFF

  /** Rounding toward zero. */
  function Trunc(x: real): (n: int)
    ensures x >= 0.0 ==> 0 <= n && n as real <= x < n as real + 1.0
    ensures x < 0.0 ==> n <= 0 && n as real - 1.0 < x <= n as real
  {
    if x >= 0.0 then x.Floor else -((-x).Floor)
  }

  /** `x.toInt()` for a Float or Double `x` (finite). */
  function ToInt(x: real): (n: int)
    ensures IntMin <= n <= IntMax
    ensures IntMin <= Trunc(x) <= IntMax ==> n == Trunc(x)
  {
    var t := Trunc(x);
    if t < IntMin then IntMin else if t > IntMax then IntMax else t
  }

  /**
   * `x % 360` on floating-point values: the remainder of division truncated
   * toward zero, so it takes the sign of `x`.
   */
  function Rem360(x: real): (r: real)
    ensures x >= 0.0 ==> 0.0 <= r < 360.0
    ensures x < 0.0 ==> -360.0 < r <= 0.0
  {
    x - 360.0 * Trunc(x / 360.0) as real
  }

  function MinReal(a: real, b: real): real
  {
    if a <= b then a else b
  }
}
