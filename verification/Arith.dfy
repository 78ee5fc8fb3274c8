/** 32-bit signed arithmetic, written out over unbounded integers: the word the engine's
    stack cells and the interpreted language's `int` share. */
module Arith {
  const TWO31: int := 0x8000_0000
  const TWO32: int := 0x1_0000_0000

  predicate IsInt32(x: int) { -TWO31 <= x < TWO31 }

  /** The two's complement reading of the low 32 bits. */
  function Wrap(x: int): (r: int)
    ensures IsInt32(r) && (IsInt32(x) ==> r == x)
  {
    var m := x % TWO32;
    if m >= TWO31 then m - TWO32 else m
  }

  /** C division truncates toward zero. */
  function TruncDiv(a: int, b: int): int
    requires b != 0
  {
    var q := (if a < 0 then -a else a) / (if b < 0 then -b else b);
    if (a < 0) == (b < 0) then q else -q
  }

  function Pow2(n: nat): (p: nat)
    ensures p > 0
  {
    if n == 0 then 1 else 2 * Pow2(n - 1)
  }

  datatype BitFun = AndF | OrF | XorF

  predicate OnBits(f: BitFun, a: bool, b: bool) {
    match f
    case AndF => a && b
    case OrF => a || b
    case XorF => a != b
  }

  /** The low n bits of the bitwise combination. */
  function Bits(f: BitFun, a: nat, b: nat, n: nat): nat {
    if n == 0 then 0
    else 2 * Bits(f, a / 2, b / 2, n - 1) + (if OnBits(f, a % 2 == 1, b % 2 == 1) then 1 else 0)
  }

  function Bitwise(f: BitFun, a: int, b: int): int {
    Wrap(Bits(f, a % TWO32, b % TWO32, 32))
  }

  /** x86 shifts use the low five bits of the count. */
  function ShiftLeft(a: int, n: int): int { Wrap(a * Pow2(n % 32)) }

  function ShiftRight(a: int, n: int): int { a / Pow2(n % 32) }

  /** A divide error: zero divisor, or a quotient that does not fit. */
  predicate DivideError(a: int, b: int) { b == 0 || (a == -TWO31 && b == -1) }

  function Truth(b: bool): int { if b then 1 else 0 }
}
