/**
 Integer and bit arithmetic as the driver uses it on Python integers:
 right shifts, 16-bit masks, bitwise or, and the split of a 64-bit value
 into four 16-bit slices and back.
 */
module Bits {

  /** A 32-bit word, the unit `mem32` reads and writes. */
  type Word = x: nat | x < 0x1_0000_0000

  /** A 16-bit field, the payload of a password-qualified write. */
  type Half = x: nat | x < 0x1_0000

  const TWO_16: nat := 0x1_0000
  const TWO_32: nat := 0x1_0000_0000
  const TWO_48: nat := 0x1_0000_0000_0000
  const TWO_64: nat := 0x1_0000_0000_0000_0000

  function Pow2(n: nat): (r: nat)
    ensures r > 0
  {
    if n == 0 then 1 else 2 * Pow2(n - 1)
  }

  lemma {:induction false} Pow2Add(a: nat, b: nat)
    ensures Pow2(a + b) == Pow2(a) * Pow2(b)
  {
    if a > 0 {
      Pow2Add(a - 1, b);
    }
  }

  lemma Pow2Values()
    ensures Pow2(16) == TWO_16 && Pow2(32) == TWO_32 && Pow2(48) == TWO_48
  {
    assert Pow2(2) == 4;
    Pow2Add(2, 2);
    Pow2Add(4, 4);
    Pow2Add(8, 8);
    Pow2Add(16, 16);
    Pow2Add(32, 16);
  }

  /** Python's `x >> n` on an int: division rounding towards minus infinity,
      which is what Dafny's `/` does for a positive divisor. */
  function ShiftRight(x: int, n: nat): int
  {
    x / Pow2(n)
  }

  /** Python's `x << n` on a non-negative int. */
  function ShiftLeft(x: nat, n: nat): nat
  {
    x * Pow2(n)
  }

  /** Python's `x & 0xFFFF` on an int (also a negative one, in two's
      complement): the remainder modulo 2^16, never negative. */
  function Low16(x: int): Half
  {
    x % TWO_16
  }

  /** Python's `a | b` on non-negative ints, computed bit by bit from the
      least significant bit upwards. */
  function Or(a: nat, b: nat): nat
    decreases a + b
  {
    if a == 0 then b
    else if b == 0 then a
    else 2 * Or(a / 2, b / 2) + (if a % 2 == 1 || b % 2 == 1 then 1 else 0)
  }

  /** Or-ing a value below 2^n into a value shifted left by n bits adds it:
      the two have no bit in common. */
  lemma {:induction false} OrDisjoint(hi: nat, lo: nat, n: nat)
    requires lo < Pow2(n)
    ensures Or(ShiftLeft(hi, n), lo) == ShiftLeft(hi, n) + lo
  {
    if hi == 0 || lo == 0 {
    } else {
      var p := Pow2(n - 1);
      var a := hi * Pow2(n);
      assert a == 2 * (hi * p);
      assert a / 2 == hi * p && a % 2 == 0;
      OrDisjoint(hi, lo / 2, n - 1);
    }
  }

  /** The k-th 16-bit slice of v: `v & 0xFFFF` for the lowest one and
      `(v >> 16k) & 0xFFFF` for the others. */
  function Slice(v: int, k: nat): Half
  {
    if k == 0 then Low16(v) else Low16(ShiftRight(v, 16 * k))
  }

  /** The 64-bit value whose four 16-bit slices, least significant first,
      are f0, f1, f2 and f3. */
  function Join(f0: Half, f1: Half, f2: Half, f3: Half): (r: nat)
    ensures r < TWO_64
  {
    f0 + f1 * TWO_16 + f2 * TWO_32 + f3 * TWO_48
  }

  /** Writing the four slices of any integer and reading them back as one
      64-bit value gives the integer modulo 2^64. */
  lemma JoinSlices(v: int)
    ensures Join(Slice(v, 0), Slice(v, 1), Slice(v, 2), Slice(v, 3)) == v % TWO_64
  {
    Pow2Values();
    var q1 := v / TWO_16;
    var q2 := q1 / TWO_16;
    var q3 := q2 / TWO_16;
    assert v / TWO_32 == q2;
    assert v / TWO_48 == q3;
  }

  /** Slicing a joined value gives back each of the four fields. */
  lemma SlicesOfJoin(f0: Half, f1: Half, f2: Half, f3: Half)
    ensures Slice(Join(f0, f1, f2, f3), 0) == f0
    ensures Slice(Join(f0, f1, f2, f3), 1) == f1
    ensures Slice(Join(f0, f1, f2, f3), 2) == f2
    ensures Slice(Join(f0, f1, f2, f3), 3) == f3
  {
    Pow2Values();
    var v := Join(f0, f1, f2, f3);
    var u1 := f1 + f2 * TWO_16 + f3 * TWO_32;
    var u2 := f2 + f3 * TWO_16;
    assert v == f0 + u1 * TWO_16;
    assert v / TWO_16 == u1;
    assert v == (f0 + f1 * TWO_16) + u2 * TWO_32;
    assert v / TWO_32 == u2;
    assert v == (f0 + f1 * TWO_16 + f2 * TWO_32) + f3 * TWO_48;
    assert v / TWO_48 == f3;
  }
}
