/**
 * The C++ fixed-width integer types the node's records are declared with,
 * and the C++ meaning of signed integer division on them.
 */
module FixedWidth {

  const INT64_MIN: int := -0x8000_0000_0000_0000
  const INT64_MAX: int := 0x7FFF_FFFF_FFFF_FFFF

  type int32 = x: int | -0x8000_0000 <= x < 0x8000_0000
  type int64 = x: int | INT64_MIN <= x <= INT64_MAX
  type uint32 = x: int | 0 <= x < 0x1_0000_0000
  type uint256 = x: int | 0 <= x < 0x1_0000_0000_0000_0000_0000_0000_0000_0000_0000_0000_0000_0000_0000_0000_0000_0000

  /** A monetary amount in satoshis: a wrapper around an int64. */
  type Amount = int64

  function Abs(x: int): (r: int)
    ensures r >= 0 && (r == x || r == -x)
  {
    if x < 0 then -x else x
  }

  /**
   * C++ `a / b` on int64: the quotient rounded toward zero. It is undefined
   * behaviour when b is 0 and when the quotient overflows (INT64_MIN / -1),
   * so both are excluded. The remainder `a - q * b` is smaller than `b` in
   * magnitude and has the sign of `a`; Dafny's own `/` rounds differently
   * when `a` is negative.
   */
  function Int64Div(a: int64, b: int64): (q: int64)
    requires b != 0
    requires !(a == INT64_MIN && b == -1)
    ensures a >= 0 ==> 0 <= a - q * b < Abs(b)
    ensures a < 0 ==> -Abs(b) < a - q * b <= 0
  {
    var m := Abs(a) / Abs(b);
    QuotientBounds(Abs(a), Abs(b));
    SignedRemainder(a, b, m);
    if (a < 0) == (b < 0) then m else -m
  }

  /** Facts about the quotient of magnitudes that the sign cases rest on. */
  lemma QuotientBounds(n: int, d: int)
    requires n >= 0 && d >= 1
    ensures 0 <= n - (n / d) * d < d
    ensures 0 <= n / d <= n
    ensures d >= 2 ==> 2 * (n / d) <= n
  {
    var m := n / d;
    assert m >= 0;
    MulNonneg(m, d - 1);
    Distribute(d, 1, m);
    if d >= 2 {
      MulNonneg(m, d - 2);
      Distribute(d, 2, m);
    }
  }

  lemma MulNonneg(x: int, y: int)
    requires x >= 0 && y >= 0
    ensures x * y >= 0 && y * x >= 0
  {
  }

  lemma SignedRemainder(a: int, b: int, m: int)
    requires b != 0
    requires m == Abs(a) / Abs(b)
    requires 0 <= Abs(a) - m * Abs(b) < Abs(b)
    ensures (a < 0) == (b < 0) ==> a - m * b == (if a < 0 then -(Abs(a) - m * Abs(b)) else Abs(a) - m * Abs(b))
    ensures (a < 0) != (b < 0) ==> a - (-m) * b == (if a < 0 then -(Abs(a) - m * Abs(b)) else Abs(a) - m * Abs(b))
  {
    var d := Abs(b);
    NegateLeft(m, d);
    NegateBoth(m, d);
  }

  lemma NegateLeft(x: int, y: int)
    ensures (-x) * y == -(x * y) && (-x) * (-y) == x * y
  {
  }

  lemma NegateBoth(x: int, y: int)
    ensures x * (-y) == -(x * y)
  {
  }

  /** Rounding toward zero leaves exactly one quotient possible. */
  lemma Int64DivUnique(a: int64, b: int64, q: int)
    requires b != 0
    requires !(a == INT64_MIN && b == -1)
    requires a >= 0 ==> 0 <= a - q * b < Abs(b)
    requires a < 0 ==> -Abs(b) < a - q * b <= 0
    ensures q == Int64Div(a, b)
  {
    var q' := Int64Div(a, b);
    var k := q - q';
    Distribute(q, q', b);
    assert k * b == (a - q' * b) - (a - q * b);
    MultipleBelowDivisor(k, b);
  }

  lemma Distribute(x: int, y: int, b: int)
    ensures (x - y) * b == x * b - y * b
  {
  }

  /** The only multiple of `b` strictly between `-|b|` and `|b|` is zero. */
  lemma MultipleBelowDivisor(k: int, b: int)
    requires b != 0
    requires -Abs(b) < k * b < Abs(b)
    ensures k == 0
  {
    if k != 0 {
      AbsOfProduct(k, b);
      MulNonneg(Abs(k) - 1, Abs(b));
      Distribute(Abs(k), 1, Abs(b));
    }
  }

  lemma AbsOfProduct(x: int, y: int)
    ensures Abs(x * y) == Abs(x) * Abs(y)
  {
    NegateLeft(x, y);
    NegateBoth(x, y);
    MulNonneg(Abs(x), Abs(y));
  }

  /**
   * Truncation is symmetric in the sign of the dividend, which is what sets
   * it apart from floor and Euclidean division.
   */
  lemma Int64DivNegate(a: int64, b: int64)
    requires b != 0
    requires a != INT64_MIN
    ensures Int64Div(-a, b) == -Int64Div(a, b)
  {
    var q := Int64Div(a, b);
    NegateLeft(q, b);
    Int64DivUnique(-a, b, -q);
  }
}
