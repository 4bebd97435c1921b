/** Fixed-width integers as the release build computes them: saturating and
    wrapping operations, and division that rounds toward zero. */
module MachineInts {

  const U32_MAX := 0xFFFF_FFFF
  const U64_MAX := 0xFFFF_FFFF_FFFF_FFFF
  const U128_MAX := 0xFFFF_FFFF_FFFF_FFFF_FFFF_FFFF_FFFF_FFFF
  const I64_MAX := 0x7FFF_FFFF_FFFF_FFFF
  const I64_MIN := -0x8000_0000_0000_0000
  const I128_MAX := 0x7FFF_FFFF_FFFF_FFFF_FFFF_FFFF_FFFF_FFFF
  const I128_MIN := -0x8000_0000_0000_0000_0000_0000_0000_0000

  type U32 = x: int | 0 <= x <= U32_MAX
  type U64 = x: int | 0 <= x <= U64_MAX
  type I64 = x: int | I64_MIN <= x <= I64_MAX

  datatype Option<+T> = None | Some(value: T)

  function Min(a: int, b: int): int {
    if a <= b then a else b
  }

  function Max(a: int, b: int): int {
    if a <= b then b else a
  }

  function Abs(a: int): nat {
    if a < 0 then -a else a
  }

  function Clamp(x: int, lo: int, hi: int): int {
    if x < lo then lo else if x > hi then hi else x
  }

  function SatI128(x: int): int {
    Clamp(x, I128_MIN, I128_MAX)
  }

  /** `-x` on an `i64`: the minimum is its own negation. */
  function WrapNegI64(x: I64): I64 {
    if x == I64_MIN then I64_MIN else -x
  }

  /** `x as i64`: keep the low 64 bits. */
  function WrapI64(x: int): I64 {
    (x - I64_MIN) % (U64_MAX + 1) + I64_MIN
  }

  /** An `i128` result kept to its low 128 bits. */
  function WrapI128(x: int): int {
    (x - I128_MIN) % (U128_MAX + 1) + I128_MIN
  }

  /** Integer division rounding toward zero. */
  function TruncDiv(a: int, b: int): int
    requires b > 0
  {
    if a >= 0 then a / b else -((-a) / b)
  }

  lemma DivMod(a: nat, b: nat)
    requires b > 0
    ensures 0 <= a - a / b * b < b
    ensures a / b * b >= 0
  {
    assert a == b * (a / b) + a % b;
  }

  /** The remainder of a division toward zero is smaller than the divisor and
      has the sign of the dividend. */
  lemma TruncDivRemainder(a: int, b: int)
    requires b > 0
    ensures Abs(a - TruncDiv(a, b) * b) < b
    ensures a >= 0 ==> 0 <= TruncDiv(a, b) * b <= a
    ensures a <= 0 ==> a <= TruncDiv(a, b) * b <= 0
  {
    var q := Abs(a) / b;
    DivMod(Abs(a), b);
    if a < 0 {
      assert (-q) * b == -(q * b);
    }
  }

  lemma MulMonotone(a: int, b: int, c: int)
    requires a <= b && 0 <= c
    ensures a * c <= b * c
  {
    assert 0 <= (b - a) * c;
  }

  lemma Distribute(a: int, b: int, c: int)
    ensures a * (b + c) == a * b + a * c
    ensures (b + c) * a == b * a + c * a
  {
  }

  lemma MulCancelLess(a: int, b: int, c: int)
    requires a * c < b * c && 0 <= c
    ensures a < b
  {
    if b <= a {
      MulMonotone(b, a, c);
    }
  }

  /** A quotient of a number between two multiples lies between the factors. */
  lemma TruncDivBetween(a: int, b: int, lo: int, hi: int)
    requires b > 0
    requires lo * b <= a <= hi * b
    ensures lo <= TruncDiv(a, b) <= hi
  {
    TruncDivRemainder(a, b);
    var q := TruncDiv(a, b);
    assert (q + 1) * b == q * b + b && (hi + 1) * b == hi * b + b;
    MulCancelLess(lo, q + 1, b);
    MulCancelLess(q, hi + 1, b);
  }
}
