/**
 * Java `int` arithmetic on Dafny's unbounded integers: 32-bit two's-complement
 * wrap-around for `+ - *`, division that truncates toward zero, and the
 * bitwise operators `& | ^` on the two's-complement bit patterns.
 */
module JavaInt {

  const MIN: int := -0x8000_0000
  const MAX: int := 0x7FFF_FFFF
  const MODULUS: int := 0x1_0000_0000

  /** The values a Java `int` can hold. */
  predicate IsInt(x: int) {
    MIN <= x <= MAX
  }

  /** Reduces a mathematical integer to the Java `int` with the same low 32 bits. */
  function Wrap(x: int): (r: int)
    ensures IsInt(r)
    ensures IsInt(x) ==> r == x
  {
    var m := x % MODULUS;
    if m > MAX then m - MODULUS else m
  }

  /** `Wrap` keeps the low 32 bits: it changes its argument by a multiple of `2^32`. */
  lemma WrapCongruent(x: int)
    ensures (x - Wrap(x)) % MODULUS == 0
  {
    var m := x % MODULUS;
    assert x == (x / MODULUS) * MODULUS + m;
    if m > MAX {
      assert x - Wrap(x) == (x / MODULUS + 1) * MODULUS;
    } else {
      assert x - Wrap(x) == (x / MODULUS) * MODULUS;
    }
  }

  function Abs(x: int): (r: int)
    ensures r >= 0
  {
    if x < 0 then -x else x
  }

  /** Integer division rounded toward zero, before any overflow (section 15.17.2 of the JLS). */
  function TruncDiv(a: int, b: int): int
    requires b != 0
  {
    var m := Abs(a) / Abs(b);
    if (a < 0) == (b < 0) then m else -m
  }

  /**
   * `TruncDiv` rounds toward zero: the remainder it leaves is smaller than
   * the divisor in magnitude and has the sign of the dividend.
   */
  lemma TruncDivTruncates(a: int, b: int)
    requires b != 0
    ensures var q := TruncDiv(a, b);
      && Abs(a - q * b) < Abs(b)
      && (a - q * b == 0 || (a - q * b < 0 <==> a < 0))
  {
    TruncDivRemainder(a, b, Abs(a) / Abs(b), Abs(a) % Abs(b), TruncDiv(a, b));
  }

  /** The remainder left by `TruncDiv` is that of the magnitudes, with the dividend's sign. */
  lemma TruncDivRemainder(a: int, b: int, m: int, r: int, q: int)
    requires b != 0 && m == Abs(a) / Abs(b) && r == Abs(a) % Abs(b)
    requires q == if (a < 0) == (b < 0) then m else -m
    ensures a - q * b == (if a < 0 then -r else r)
  {
    assert Abs(a) == m * Abs(b) + r;
    if b > 0 {
      assert q * b == (if a < 0 then -(m * Abs(b)) else m * Abs(b));
    } else {
      assert b == -Abs(b);
      assert q * b == (if a < 0 then -(m * Abs(b)) else m * Abs(b));
    }
  }

  /** Java's `a / b` on two `int`s when `b` is not zero. */
  function Div(a: int, b: int): (q: int)
    requires b != 0
    ensures IsInt(q)
  {
    Wrap(TruncDiv(a, b))
  }

  /** `a / b` is the truncated quotient, except that `MIN / -1` overflows back to `MIN`. */
  lemma DivTruncates(a: int, b: int)
    requires IsInt(a) && IsInt(b) && b != 0
    ensures !(a == MIN && b == -1) ==> Div(a, b) == TruncDiv(a, b)
    ensures a == MIN && b == -1 ==> Div(a, b) == MIN
  {
    TruncDivBound(a, b);
  }

  lemma TruncDivBound(a: int, b: int)
    requires b != 0
    ensures Abs(TruncDiv(a, b)) <= Abs(a)
  {
    var m := Abs(a) / Abs(b);
    assert m * Abs(b) <= Abs(a);
    assert m <= m * Abs(b);
  }

  /** `2^n`. */
  function Pow2(n: nat): (r: nat)
    ensures r >= 1
  {
    if n == 0 then 1 else 2 * Pow2(n - 1)
  }

  lemma Pow2Is32Bits()
    ensures Pow2(32) == MODULUS
  {
    assert Pow2(8) == 0x100;
    Pow2Add(8, 8);
    Pow2Add(16, 16);
  }

  lemma {:induction false} Pow2Add(a: nat, b: nat)
    ensures Pow2(a + b) == Pow2(a) * Pow2(b)
  {
    if a > 0 {
      Pow2Add(a - 1, b);
      assert Pow2(a + b) == 2 * Pow2(a - 1 + b);
    }
  }

  /** The bitwise operators, as what they do to one pair of bits. */
  datatype BitOp = AndBits | OrBits | XorBits

  function Combine(op: BitOp, p: bool, q: bool): bool {
    match op
    case AndBits => p && q
    case OrBits => p || q
    case XorBits => p != q
  }

  /**
   * The low `width` bits of `x` and `y` combined position by position: bit
   * `i` of the result (weight `2^i`) is `op` applied to bit `i` of each.
   */
  function Bitwise(op: BitOp, x: nat, y: nat, width: nat): (r: nat)
    ensures r < Pow2(width)
  {
    if width == 0 then 0
    else
      var low := if Combine(op, x % 2 == 1, y % 2 == 1) then 1 else 0;
      low + 2 * Bitwise(op, x / 2, y / 2, width - 1)
  }

  /** The 32-bit two's-complement pattern of an `int`, as an unsigned number. */
  function Pattern(x: int): (u: nat)
    ensures u < MODULUS
    ensures IsInt(x) ==> u == if x < 0 then x + MODULUS else x
  {
    x % MODULUS
  }

  /** The `int` whose two's-complement pattern is `u`. */
  function FromPattern(u: nat): (x: int)
    requires u < MODULUS
    ensures IsInt(x) && Pattern(x) == u
  {
    if u > MAX then u - MODULUS else u
  }

  /** `op` applied bit by bit to the patterns of `a` and `b`. */
  function Apply(op: BitOp, a: int, b: int): (r: int)
    ensures IsInt(r)
  {
    Pow2Is32Bits();
    FromPattern(Bitwise(op, Pattern(a), Pattern(b), 32))
  }

  /** Java's `a & b`, `a | b` and `a ^ b`. */
  function And(a: int, b: int): (r: int)
    ensures IsInt(r)
  {
    Apply(AndBits, a, b)
  }

  function Or(a: int, b: int): (r: int)
    ensures IsInt(r)
  {
    Apply(OrBits, a, b)
  }

  function Xor(a: int, b: int): (r: int)
    ensures IsInt(r)
  {
    Apply(XorBits, a, b)
  }

  /** `x ^ x == 0`, `x & x == x` and `x | x == x` for every `int` `x`. */
  lemma SelfCombined(x: int)
    requires IsInt(x)
    ensures Xor(x, x) == 0 && And(x, x) == x && Or(x, x) == x
  {
    Pow2Is32Bits();
    BitwiseSelf(Pattern(x), 32);
  }

  /** `a & b == b & a`, and likewise for `|` and `^`. */
  lemma Commutes(op: BitOp, a: int, b: int)
    ensures Apply(op, a, b) == Apply(op, b, a)
  {
    BitwiseCommutes(op, Pattern(a), Pattern(b), 32);
  }

  lemma {:induction false} BitwiseCommutes(op: BitOp, x: nat, y: nat, width: nat)
    ensures Bitwise(op, x, y, width) == Bitwise(op, y, x, width)
  {
    if width > 0 {
      BitwiseCommutes(op, x / 2, y / 2, width - 1);
    }
  }

  /** `-1` (all bits set) and `0` are the identities: `x & -1`, `x | 0` and `x ^ 0` are `x`, and `x & 0` is `0`. */
  lemma Identities(x: int)
    requires IsInt(x)
    ensures And(x, -1) == x && Or(x, 0) == x && Xor(x, 0) == x && And(x, 0) == 0
  {
    Pow2Is32Bits();
    BitwiseOnes(Pattern(x), 32);
    BitwiseZero(Pattern(x), 32);
  }

  lemma {:induction false} BitwiseOnes(u: nat, width: nat)
    requires u < Pow2(width)
    ensures Bitwise(AndBits, u, Pow2(width) - 1, width) == u
  {
    if width > 0 {
      var ones := Pow2(width) - 1;
      assert ones == 2 * (Pow2(width - 1) - 1) + 1;
      assert ones % 2 == 1 && ones / 2 == Pow2(width - 1) - 1;
      BitwiseOnes(u / 2, width - 1);
    }
  }

  lemma {:induction false} BitwiseZero(u: nat, width: nat)
    requires u < Pow2(width)
    ensures Bitwise(OrBits, u, 0, width) == u && Bitwise(XorBits, u, 0, width) == u
    ensures Bitwise(AndBits, u, 0, width) == 0
  {
    if width > 0 {
      BitwiseZero(u / 2, width - 1);
    }
  }

  lemma {:induction false} BitwiseSelf(u: nat, width: nat)
    requires u < Pow2(width)
    ensures Bitwise(XorBits, u, u, width) == 0
    ensures Bitwise(AndBits, u, u, width) == u && Bitwise(OrBits, u, u, width) == u
  {
    if width > 0 {
      BitwiseSelf(u / 2, width - 1);
    }
  }
}
