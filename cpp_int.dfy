/**
 * The C++ integer operations the source relies on, written out over Dafny's
 * unbounded integers: truncating division, the 32-bit `int` range and the
 * narrowing cast from `long long` to `int`.
 */
module CppInt {

  const INT_MIN: int := -0x8000_0000
  const INT_MAX: int := 0x7FFF_FFFF

  predicate IsInt32(x: int) { INT_MIN <= x <= INT_MAX }

  /** C++ `a / b`: the quotient truncated toward zero (Dafny's own `/` is Euclidean). */
  function TruncDiv(a: int, b: int): (q: int)
    requires b != 0
    ensures a >= 0 ==> 0 <= a - q * b < (if b > 0 then b else -b)
    ensures a < 0 ==> -(if b > 0 then b else -b) < a - q * b <= 0
  {
    if a >= 0 then
      (if b > 0 then a / b else -(a / -b))
    else
      (if b > 0 then -((-a) / b) else (-a) / (-b))
  }

  /** The C++20 conversion of a wider integer to a 32-bit `int` (reduction modulo 2^32). */
  function ToInt32(x: int): (r: int)
    ensures IsInt32(r)
    ensures (x - r) % 0x1_0000_0000 == 0
    ensures IsInt32(x) ==> r == x
  {
    var m := x % 0x1_0000_0000;
    if m > INT_MAX then m - 0x1_0000_0000 else m
  }

  /** Qt's qMin and qMax on `int`. */
  function Min(a: int, b: int): int { if b < a then b else a }
  function Max(a: int, b: int): int { if a < b then b else a }

  /** Qt's qBound(lo, v, hi) == qMax(lo, qMin(v, hi)). */
  function Bound(lo: int, v: int, hi: int): (r: int)
    ensures lo <= hi ==> lo <= r <= hi
    ensures lo <= v <= hi ==> r == v
  {
    Max(lo, Min(v, hi))
  }
}
