/** C/C++ integer arithmetic that differs from Dafny's unbounded, Euclidean arithmetic. */
module CArith {

  function Abs(x: int): (r: nat)
  {
    if x < 0 then -x else x
  }

  /** C/C++ `/` on integers: the quotient is truncated toward zero
      (Dafny's `/` is Euclidean, which differs for negative operands). */
  function CDiv(a: int, b: int): (q: int)
    requires b != 0
    ensures a >= 0 ==> 0 <= a - q * b < Abs(b)
    ensures a < 0 ==> 0 <= q * b - a < Abs(b)
  {
    if a >= 0 then
      (if b > 0 then a / b else -(a / -b))
    else
      (if b > 0 then -((-a) / b) else (-a) / (-b))
  }

  /** Integer power, as `pow(base, e)` yields for small non-negative exponents. */
  function Pow(base: int, e: nat): int
  {
    if e == 0 then 1 else base * Pow(base, e - 1)
  }

  const TWO_TO_64: int := 0x1_0000_0000_0000_0000
  const TWO_TO_63: int := 0x8000_0000_0000_0000

  /** The conversion of a signed 64-bit value to `unsigned long` (modulo 2^64). */
  function ToUnsigned64(x: int): (u: int)
    ensures 0 <= u < TWO_TO_64
    ensures 0 <= x < TWO_TO_64 ==> u == x
  {
    x % TWO_TO_64
  }

  /** The conversion of an `unsigned long` back to `long` (two's complement). */
  function ToSigned64(u: int): (x: int)
    requires 0 <= u < TWO_TO_64
    ensures -TWO_TO_63 <= x < TWO_TO_63
    ensures u < TWO_TO_63 ==> x == u
  {
    if u < TWO_TO_63 then u else u - TWO_TO_64
  }

  /** `long ret = avg / v.size()`: the signed sum is converted to `size_t` before the
      division and the unsigned quotient is converted back to `long`. */
  function SignedBySizeDiv(sum: int, size: int): (r: int)
    requires 0 < size
    ensures 0 <= sum < TWO_TO_63 ==> r == sum / size
  {
    ToSigned64(ToUnsigned64(sum) / size)
  }

  /** The conversion of a `double` to an integer type: truncation toward zero. */
  function TruncReal(x: real): (r: int)
    ensures x >= 0.0 ==> r as real <= x < r as real + 1.0
    ensures x < 0.0 ==> r as real - 1.0 < x <= r as real
  {
    if x >= 0.0 then x.Floor else -((-x).Floor)
  }
}
