/**
 * Go's fixed-width integer arithmetic as the interceptor uses it: the 16-bit
 * correlation counter, which wraps silently on overflow, and the int64
 * division and remainder operators, which truncate toward zero.
 */
module GoInt {

  /** Go's int16. */
  type int16 = x: int | -0x8000 <= x < 0x8000

  /** The int16 that an integer is congruent to modulo 2^16 (Go's two's-complement wrap-around). */
  function Wrap16(v: int): (r: int16)
    ensures (r - v) % 0x1_0000 == 0
    ensures -0x8000 <= v < 0x8000 ==> r == v
  {
    (v + 0x8000) % 0x1_0000 - 0x8000
  }

  /** `x++` on an int16: one more, except that 32767 wraps to -32768. */
  function Inc(x: int16): int16 {
    if x == 0x7fff then -0x8000 else x + 1
  }

  /** The explicit wrap of `Inc` is Go's two's-complement addition of one. */
  lemma IncIsWrap(x: int16)
    ensures Inc(x) == Wrap16(x + 1)
  {
    if x == 0x7fff {
      assert (x + 1 + 0x8000) % 0x1_0000 == 0;
    }
  }

  /** The counter after n increments. */
  function IncN(x: int16, n: nat): int16
    decreases n
  {
    if n == 0 then x else IncN(Inc(x), n - 1)
  }

  /** n increments land on x + n reduced modulo 2^16. */
  lemma {:induction false} IncNIsWrap(x: int16, n: nat)
    ensures IncN(x, n) == Wrap16(x + n)
    decreases n
  {
    if n > 0 {
      IncNIsWrap(Inc(x), n - 1);
      IncIsWrap(x);
      assert (Inc(x) + (n - 1) - (x + n)) % 0x1_0000 == 0;
    }
  }

  /** The counter comes back to where it started after exactly 2^16 increments. */
  lemma CounterPeriod(x: int16)
    ensures IncN(x, 0x1_0000) == x
  {
    IncNIsWrap(x, 0x1_0000);
  }

  /** Fewer than 2^16 increments apart, two counter values differ: IDs repeat only after 65536 calls. */
  lemma CounterDistinct(x: int16, i: nat, j: nat)
    requires i < j < 0x1_0000
    ensures IncN(x, i) != IncN(x, j)
  {
    IncNIsWrap(x, i);
    IncNIsWrap(x, j);
    WrapOnce(x + i);
    WrapOnce(x + j);
  }

  /** Below 2^16 past the int16 range, wrapping subtracts 2^16 at most once. */
  lemma WrapOnce(v: int)
    requires -0x8000 <= v < 0x1_8000
    ensures Wrap16(v) == if v < 0x8000 then v else v - 0x1_0000
  {
    if v >= 0x8000 {
      assert (v + 0x8000) % 0x1_0000 == v + 0x8000 - 0x1_0000;
    }
  }

  /** Go's `/` on integers with a positive divisor: the quotient truncated toward zero. */
  function GoQuo(a: int, b: int): (q: int)
    requires b > 0
    ensures a >= 0 ==> 0 <= q && q * b <= a < q * b + b
    ensures a < 0 ==> q <= 0 && q * b - b < a <= q * b
  {
    if a >= 0 then
      EuclidStep(a, b);
      a / b
    else
      EuclidStep(-a, b);
      NegateProduct((-a) / b, b);
      -((-a) / b)
  }

  /** Euclidean division of a natural number: the quotient and remainder rebuild it. */
  lemma EuclidStep(n: int, b: int)
    requires n >= 0 && b > 0
    ensures n == (n / b) * b + n % b && 0 <= n % b < b && n / b >= 0
  {
  }

  lemma NegateProduct(x: int, b: int)
    ensures (-x) * b == -(x * b)
  {
  }

  /**
   * Go's `%` with a positive divisor: the remainder takes the sign of the
   * dividend and completes the truncated quotient to the dividend.
   */
  function GoRem(a: int, b: int): (r: int)
    requires b > 0
    ensures a >= 0 ==> 0 <= r < b
    ensures a < 0 ==> -b < r <= 0
    ensures GoQuo(a, b) * b + r == a
  {
    if a >= 0 then
      EuclidStep(a, b);
      a % b
    else
      EuclidStep(-a, b);
      NegateProduct((-a) / b, b);
      -((-a) % b)
  }
}
