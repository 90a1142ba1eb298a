/** Byte-level vocabulary of the driver: Go's uint8 and uint16, the little-endian
    16-bit field layout, and the eight-bit bitwise operators. */
module Bytes {

  /** Go's `uint8`/`byte`. */
  type uint8 = x: int | 0 <= x < 0x100

  /** Go's `uint16`. */
  type uint16 = x: int | 0 <= x < 0x1_0000

  /** The two bytes `binary.LittleEndian.PutUint16` writes for `v`: low byte first. */
  function PutUint16(v: uint16): (b: seq<uint8>)
    ensures |b| == 2 && Uint16(b) == v
  {
    [v % 0x100, v / 0x100]
  }

  /** The value a little-endian reader gets back from two bytes. */
  function Uint16(b: seq<uint8>): uint16
    requires |b| == 2
  {
    b[0] as int + 0x100 * (b[1] as int)
  }

  /** Reading then writing a 16-bit field gives back the same two bytes, so the
      layout is a bijection between uint16 values and two-byte sequences. */
  lemma PutUint16OfUint16(b: seq<uint8>)
    requires |b| == 2
    ensures PutUint16(Uint16(b)) == b
  {
    assert Uint16(b) % 0x100 == b[0];
  }

  /** 2 to the power `n`. */
  function Pow2(n: nat): (p: nat)
    ensures p >= 1
  {
    if n == 0 then 1 else 2 * Pow2(n - 1)
  }

  /** Bitwise OR of two naturals, one bit at a time from the lowest. */
  function OrBits(a: nat, b: nat): nat
    decreases a + b
  {
    if a == 0 then b
    else if b == 0 then a
    else 2 * OrBits(a / 2, b / 2) + (if a % 2 == 1 || b % 2 == 1 then 1 else 0)
  }

  /** Bitwise AND of two naturals: never more than either operand. */
  function AndBits(a: nat, b: nat): (r: nat)
    ensures r <= a && r <= b
  {
    if a == 0 || b == 0 then 0
    else 2 * AndBits(a / 2, b / 2) + (if a % 2 == 1 && b % 2 == 1 then 1 else 0)
  }

  /** OR keeps values of `n` bits within `n` bits. */
  lemma {:induction false} OrBitsBelow(a: nat, b: nat, n: nat)
    requires a < Pow2(n) && b < Pow2(n)
    ensures OrBits(a, b) < Pow2(n)
    decreases n
  {
    if a != 0 && b != 0 {
      OrBitsBelow(a / 2, b / 2, n - 1);
    }
  }

  /** OR of a value of `n` bits with a multiple of 2^n is their sum: the two
      occupy disjoint bits. */
  lemma {:induction false} OrDisjoint(low: nat, high: nat, n: nat)
    requires low < Pow2(n)
    ensures OrBits(low, high * Pow2(n)) == low + high * Pow2(n)
    decreases n
  {
    if low != 0 && high != 0 {
      var h := high * Pow2(n - 1);
      assert high * Pow2(n) == 2 * h;
      OrDisjoint(low / 2, high, n - 1);
    }
  }

  /** Masking twice is masking once. */
  lemma {:induction false} AndBitsIdempotent(a: nat, m: nat)
    ensures AndBits(AndBits(a, m), m) == AndBits(a, m)
  {
    if a != 0 && m != 0 {
      AndBitsIdempotent(a / 2, m / 2);
    }
  }

  /** Go's `|` on two uint8 values. */
  function BitOr(a: uint8, b: uint8): uint8 {
    OrBitsBelow(a, b, 8);
    OrBits(a, b)
  }

  /** Go's `&` on two uint8 values. */
  function BitAnd(a: uint8, b: uint8): uint8 {
    AndBits(a, b)
  }
}
