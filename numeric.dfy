// The C++ conversions from double to integer types that the renderer relies on.

module Numeric {

  /** 2^32, the range of `unsigned int` / `std::uint32_t`. */
  const UINT_RANGE: nat := 0x1_0000_0000

  /** The range of a 32-bit `int`. */
  const INT_MIN: int := -0x8000_0000
  const INT_MAX: int := 0x7fff_ffff

  function Min(a: int, b: int): (m: int)
    ensures m <= a && m <= b && (m == a || m == b)
  {
    if b < a then b else a
  }

  function Max(a: int, b: int): (m: int)
    ensures m >= a && m >= b && (m == a || m == b)
  {
    if a < b then b else a
  }

  /** Absolute value, as `std::abs` on int. */
  function Abs(n: int): (a: nat)
    ensures a == n || a == -n
  {
    if n < 0 then -n else n
  }

  /** Converting an `unsigned int` to `int`: values from 2^31 up wrap to negative numbers. */
  function AsInt(n: nat): (i: int)
    requires n < UINT_RANGE
    ensures INT_MIN <= i <= INT_MAX
    ensures n <= INT_MAX ==> i == n
    ensures n > INT_MAX ==> i < 0
  {
    if n <= INT_MAX then n else n - UINT_RANGE
  }

  /** Conversion of a double to an integer type: the fraction is discarded, rounding toward zero. */
  function Trunc(x: real): (n: int)
    ensures x >= 0.0 ==> 0 <= n && n as real <= x < n as real + 1.0
    ensures x < 0.0 ==> n <= 0 && n as real - 1.0 < x <= n as real
  {
    if x >= 0.0 then x.Floor else -((-x).Floor)
  }

  /** Truncation is monotone. */
  lemma TruncMonotone(x: real, y: real)
    requires x <= y
    ensures Trunc(x) <= Trunc(y)
  {
  }

  /** Converting a double to `unsigned int` is defined only when the truncated value fits. */
  predicate FitsUnsigned(x: real)
  {
    -1.0 < x < UINT_RANGE as real
  }

  /** Converting a double to `int` is defined only when the truncated value fits. */
  predicate FitsInt(x: real)
  {
    INT_MIN as real - 1.0 < x < INT_MAX as real + 1.0
  }
}
