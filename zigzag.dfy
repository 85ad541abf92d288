/**
 * Zigzag conversion between signed and unsigned integers, on Python's
 * unbounded integers: `<<` doubles, `>>` divides rounding down (Dafny's `/`
 * by a positive divisor does the same), `&` with 1 is the non-negative
 * remainder, and `^` is exclusive or on infinite two's-complement patterns.
 */
module Zigzag {

  /** Distance from the nearest of the two fixed points 0 and -1 of `>> 1`. */
  function Mag(x: int): nat
  {
    if x < 0 then -x - 1 else x
  }

  /** Python's `a ^ b` for arbitrary (possibly negative) integers, bit by bit. */
  function Xor(a: int, b: int): (r: int)
    ensures r < 0 <==> ((a < 0) != (b < 0))
    decreases Mag(a) + Mag(b)
  {
    if (a == 0 || a == -1) && (b == 0 || b == -1) then
      (if a == b then 0 else -1)
    else
      2 * Xor(a / 2, b / 2) + (if a % 2 == b % 2 then 0 else 1)
  }

  /** `long_to_zigzag`: `(num << 1) ^ (num >> 63)`. */
  function LongToZigzag(num: int): (r: int)
    ensures r >= 0
  {
    Xor(2 * num, num / 0x8000_0000_0000_0000)
  }

  /** `int_to_zigzag`: `(num << 1) ^ (num >> 31)`. */
  function IntToZigzag(num: int): (r: int)
    ensures r >= 0
  {
    Xor(2 * num, num / 0x8000_0000)
  }

  /** `zigzag_to_int`: `(num >> 1) ^ -(num & 1)`. */
  function ZigzagToInt(num: int): (r: int)
    ensures num >= 0 ==> (r < 0 <==> num % 2 == 1)
  {
    Xor(num / 2, -(num % 2))
  }

  /** The arithmetic form of zigzag: 2n for n >= 0, -2n-1 for n < 0. */
  function ZigzagValue(n: int): nat
  {
    if n >= 0 then 2 * n else -2 * n - 1
  }

  lemma {:induction false} XorZero(x: int)
    ensures Xor(x, 0) == x
    decreases Mag(x)
  {
    if x != 0 && x != -1 {
      XorZero(x / 2);
    }
  }

  lemma {:induction false} XorMinusOne(x: int)
    ensures Xor(x, -1) == -x - 1
    decreases Mag(x)
  {
    if x != 0 && x != -1 {
      XorMinusOne(x / 2);
    }
  }

  /** In the 32-bit range, `int_to_zigzag` is the arithmetic zigzag and lands in [0, 2^32). */
  lemma IntToZigzagIn32(n: int)
    requires -0x8000_0000 <= n < 0x8000_0000
    ensures IntToZigzag(n) == ZigzagValue(n)
    ensures 0 <= IntToZigzag(n) < 0x1_0000_0000
  {
    if n >= 0 {
      XorZero(2 * n);
    } else {
      assert n / 0x8000_0000 == -1;
      XorMinusOne(2 * n);
    }
  }

  /** In the 64-bit range, `long_to_zigzag` is the arithmetic zigzag and lands in [0, 2^64). */
  lemma LongToZigzagIn64(n: int)
    requires -0x8000_0000_0000_0000 <= n < 0x8000_0000_0000_0000
    ensures LongToZigzag(n) == ZigzagValue(n)
    ensures 0 <= LongToZigzag(n) < 0x1_0000_0000_0000_0000
  {
    if n >= 0 {
      XorZero(2 * n);
    } else {
      assert n / 0x8000_0000_0000_0000 == -1;
      XorMinusOne(2 * n);
    }
  }

  /** `zigzag_to_int` undoes the arithmetic zigzag of every integer. */
  lemma ZigzagToIntOfValue(n: int)
    ensures ZigzagToInt(ZigzagValue(n)) == n
  {
    if n >= 0 {
      assert ZigzagValue(n) / 2 == n && ZigzagValue(n) % 2 == 0;
      XorZero(n);
    } else {
      assert ZigzagValue(n) / 2 == -n - 1 && ZigzagValue(n) % 2 == 1;
      XorMinusOne(-n - 1);
    }
  }

  /** Every non-negative integer is the arithmetic zigzag of `zigzag_to_int` of it. */
  lemma ValueOfZigzagToInt(u: nat)
    ensures ZigzagValue(ZigzagToInt(u)) == u
    ensures u % 2 == 0 ==> ZigzagToInt(u) == u / 2
    ensures u % 2 == 1 ==> ZigzagToInt(u) == -(u / 2) - 1
  {
    if u % 2 == 0 {
      XorZero(u / 2);
    } else {
      XorMinusOne(u / 2);
    }
  }

  lemma IntZigzagRoundTrip(n: int)
    requires -0x8000_0000 <= n < 0x8000_0000
    ensures ZigzagToInt(IntToZigzag(n)) == n
  {
    IntToZigzagIn32(n);
    ZigzagToIntOfValue(n);
  }

  lemma LongZigzagRoundTrip(n: int)
    requires -0x8000_0000_0000_0000 <= n < 0x8000_0000_0000_0000
    ensures ZigzagToInt(LongToZigzag(n)) == n
  {
    LongToZigzagIn64(n);
    ZigzagToIntOfValue(n);
  }

  /** On [0, 2^32) the decoding lands in the 32-bit range and `int_to_zigzag` undoes it. */
  lemma IntZigzagOnto(u: nat)
    requires u < 0x1_0000_0000
    ensures -0x8000_0000 <= ZigzagToInt(u) < 0x8000_0000
    ensures IntToZigzag(ZigzagToInt(u)) == u
  {
    ValueOfZigzagToInt(u);
    IntToZigzagIn32(ZigzagToInt(u));
  }

  /** On [0, 2^64) the decoding lands in the 64-bit range and `long_to_zigzag` undoes it. */
  lemma LongZigzagOnto(u: nat)
    requires u < 0x1_0000_0000_0000_0000
    ensures -0x8000_0000_0000_0000 <= ZigzagToInt(u) < 0x8000_0000_0000_0000
    ensures LongToZigzag(ZigzagToInt(u)) == u
  {
    ValueOfZigzagToInt(u);
    LongToZigzagIn64(ZigzagToInt(u));
  }
}
