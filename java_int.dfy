/**
 * Java's fixed-width integer arithmetic, written out over Dafny's
 * unbounded integers: 32- and 64-bit two's complement wrap-around,
 * division and remainder that truncate toward zero, and `Math.abs`,
 * which leaves the most negative value unchanged.
 */
module JavaInt {

  const INT_MIN: int := -0x8000_0000
  const INT_MAX: int := 0x7fff_ffff
  const LONG_MIN: int := -0x8000_0000_0000_0000
  const LONG_MAX: int := 0x7fff_ffff_ffff_ffff

  /** A Java `int`. */
  type int32 = x: int | INT_MIN <= x <= INT_MAX
  /** A Java `long`. */
  type int64 = x: int | LONG_MIN <= x <= LONG_MAX

  /** The `int` that Java arithmetic yields for the mathematical value `x`. */
  function Wrap32(x: int): (r: int32)
    ensures INT_MIN <= x <= INT_MAX ==> r == x
    ensures (x - r) % 0x1_0000_0000 == 0
  {
    var m := (x - INT_MIN) % 0x1_0000_0000;
    m + INT_MIN
  }

  /** The `long` that Java arithmetic yields for the mathematical value `x`. */
  function Wrap64(x: int): (r: int64)
    ensures LONG_MIN <= x <= LONG_MAX ==> r == x
    ensures (x - r) % 0x1_0000_0000_0000_0000 == 0
  {
    var m := (x - LONG_MIN) % 0x1_0000_0000_0000_0000;
    m + LONG_MIN
  }

  /** Java's `a / b` for a positive divisor: the quotient truncated toward zero. */
  function Quot(a: int, b: int): (q: int)
    requires b > 0
    ensures a >= 0 ==> q >= 0
    ensures a < 0 ==> q <= 0
    ensures Abs(q) * b <= Abs(a) < (Abs(q) + 1) * b
  {
    if a >= 0 then
      DivBracket(a, b);
      a / b
    else
      DivBracket(-a, b);
      -((-a) / b)
  }

  /** Euclidean division of a natural number brackets it between consecutive multiples. */
  lemma DivBracket(n: nat, b: int)
    requires b > 0
    ensures n / b >= 0
    ensures (n / b) * b <= n < (n / b + 1) * b
  {
    assert n == (n / b) * b + n % b;
    assert (n / b + 1) * b == (n / b) * b + b;
  }

  /** Java's `a % b` for a positive divisor: the remainder takes the sign of `a`. */
  function Rem(a: int, b: int): (r: int)
    requires b > 0
    ensures a == Quot(a, b) * b + r
    ensures -b < r < b
    ensures a >= 0 ==> r >= 0
    ensures a < 0 ==> r <= 0
  {
    if a >= 0 then
      assert a == (a / b) * b + a % b;
      a % b
    else
      assert -a == ((-a) / b) * b + (-a) % b;
      -((-a) % b)
  }

  /** `Math.abs(int)`: the true absolute value, except that `Integer.MIN_VALUE` stays negative. */
  function Abs32(x: int32): (r: int32)
    ensures x != INT_MIN ==> r >= 0 && (r == x || r == -x)
    ensures x == INT_MIN ==> r == INT_MIN
  {
    var y: int := if x < 0 then 0 - (x as int) else x as int;
    Wrap32(y)
  }

  /** `Math.abs(long)`: the true absolute value, except that `Long.MIN_VALUE` stays negative. */
  function Abs64(x: int64): (r: int64)
    ensures x != LONG_MIN ==> r >= 0 && (r == x || r == -x)
    ensures x == LONG_MIN ==> r == LONG_MIN
  {
    var y: int := if x < 0 then 0 - (x as int) else x as int;
    Wrap64(y)
  }

  /** The mathematical absolute value. */
  function Abs(x: int): (r: nat)
    ensures r == x || r == -x
  {
    if x < 0 then -x else x
  }
}
