/** Go's 64-bit signed integer arithmetic over Dafny's unbounded `int`:
    the int64 range, two's-complement wrap-around, and Go's truncating `/`
    and `%` (Dafny's own operators are Euclidean). */
module GoInt {

  const Two64: int := 0x1_0000_0000_0000_0000
  const MinInt64: int := -0x8000_0000_0000_0000
  const MaxInt64: int := 0x7FFF_FFFF_FFFF_FFFF
  const MaxUint64: int := 0xFFFF_FFFF_FFFF_FFFF

  predicate InInt64(x: int) {
    MinInt64 <= x <= MaxInt64
  }

  /** The int64 value Go computes when the mathematical result is `x`. */
  function Wrap64(x: int): (r: int)
    ensures InInt64(r)
    ensures (x - r) % Two64 == 0
    ensures InInt64(x) ==> r == x
  {
    var m := x % Two64;
    if m > MaxInt64 then m - Two64 else m
  }

  function Abs(x: int): nat {
    if x < 0 then -x else x
  }

  /** Go's `a / b`: the quotient rounded toward zero. */
  function Quot(a: int, b: int): (q: int)
    requires b != 0
    ensures Abs(a - b * q) < Abs(b)
    ensures a >= 0 ==> a - b * q >= 0
    ensures a <= 0 ==> a - b * q <= 0
  {
    var q0 := Abs(a) / Abs(b);
    var q := if (a < 0) != (b < 0) then -q0 else q0;
    QuotRemainder(a, b, q);
    q
  }

  /** The remainder left by the truncated quotient is Abs(a) % Abs(b),
      signed like a. */
  lemma QuotRemainder(a: int, b: int, q: int)
    requires b != 0 && q == if (a < 0) != (b < 0) then -(Abs(a) / Abs(b)) else Abs(a) / Abs(b)
    ensures a - b * q == if a >= 0 then Abs(a) % Abs(b) else -(Abs(a) % Abs(b))
    ensures Abs(a - b * q) < Abs(b)
    ensures a >= 0 ==> a - b * q >= 0
    ensures a <= 0 ==> a - b * q <= 0
  {
    var x: int, y: int := Abs(a), Abs(b);
    var q0, r0 := x / y, x % y;
    assert x == y * q0 + r0;
    if (a < 0) != (b < 0) {
      assert b * q == -(b * q0);
    }
    assert b * q == (if a >= 0 then y * q0 else -(y * q0));
  }

  /** Go's `a % b`: the remainder, which takes the sign of `a`. */
  function Rem(a: int, b: int): (r: int)
    requires b != 0
  {
    a - b * Quot(a, b)
  }

  /** On non-negative operands Go's and Dafny's division agree. */
  lemma QuotOfNonNegative(a: int, b: int)
    requires a >= 0 && b > 0
    ensures Quot(a, b) == a / b
    ensures Rem(a, b) == a % b
  {
  }
}
