/** Bit-level arithmetic behind the Barnes-Hut grid's cell numbering: the x86
    BMI2 `pdep` instruction, bitwise OR, and the Morton (Z-order) interleaving
    they compute together, all over unbounded naturals. */
module Bits {

  function Pow2(k: nat): (r: nat)
    ensures r >= 1
  {
    if k == 0 then 1 else 2 * Pow2(k - 1)
  }

  function Pow4(k: nat): (r: nat)
    ensures r >= 1
  {
    if k == 0 then 1 else 4 * Pow4(k - 1)
  }

  /** `0x5555_5555_5555_5555`: every even bit position of a 64-bit word. */
  const EVEN_MASK: nat := 6148914691236517205
  /** `0xAAAA_AAAA_AAAA_AAAA`: every odd bit position of a 64-bit word. */
  const ODD_MASK: nat := 12297829382473034410

  /** Parallel bit deposit: the low-order bits of `x` are written, in order,
      to the positions where `mask` has a one; every other position is zero.
      Bits of `x` beyond the number of ones in `mask` are dropped. */
  function Pdep(x: nat, mask: nat): nat
    decreases mask
  {
    if mask == 0 then 0
    else if mask % 2 == 1 then x % 2 + 2 * Pdep(x / 2, mask / 2)
    else 2 * Pdep(x, mask / 2)
  }

  /** Bitwise OR of two naturals. */
  function BitOr(a: nat, b: nat): nat
    decreases a + b
  {
    if a == 0 && b == 0 then 0
    else (if a % 2 == 1 || b % 2 == 1 then 1 else 0) + 2 * BitOr(a / 2, b / 2)
  }

  /** Moves bit i of `x` to bit 2i. */
  function Spread(x: nat): nat
  {
    if x == 0 then 0 else x % 2 + 4 * Spread(x / 2)
  }

  /** Moves bit 2i of `n` to bit i, dropping the odd bits: the inverse of Spread. */
  function Compact(n: nat): nat
  {
    if n == 0 then 0 else n % 2 + 2 * Compact(n / 4)
  }

  /** Morton code of a cell: row bits at the odd positions, column bits at the
      even positions. */
  function Interleave(row: nat, col: nat): nat
  {
    2 * Spread(row) + Spread(col)
  }

  /** The mask with ones at the k lowest even positions. */
  function EvenBits(k: nat): nat
  {
    if k == 0 then 0 else 1 + 4 * EvenBits(k - 1)
  }

  lemma EvenMaskIs32EvenBits()
    ensures EvenBits(32) == EVEN_MASK
    ensures ODD_MASK == 2 * EVEN_MASK
  {
    assert EvenBits(1) == 1;
    assert EvenBits(2) == 5;
    assert EvenBits(3) == 21;
    assert EvenBits(4) == 85;
    assert EvenBits(5) == 341;
    assert EvenBits(6) == 1365;
    assert EvenBits(7) == 5461;
    assert EvenBits(8) == 21845;
    assert EvenBits(9) == 87381;
    assert EvenBits(10) == 349525;
    assert EvenBits(11) == 1398101;
    assert EvenBits(12) == 5592405;
    assert EvenBits(13) == 22369621;
    assert EvenBits(14) == 89478485;
    assert EvenBits(15) == 357913941;
    assert EvenBits(16) == 1431655765;
    assert EvenBits(17) == 5726623061;
    assert EvenBits(18) == 22906492245;
    assert EvenBits(19) == 91625968981;
    assert EvenBits(20) == 366503875925;
    assert EvenBits(21) == 1466015503701;
    assert EvenBits(22) == 5864062014805;
    assert EvenBits(23) == 23456248059221;
    assert EvenBits(24) == 93824992236885;
    assert EvenBits(25) == 375299968947541;
    assert EvenBits(26) == 1501199875790165;
    assert EvenBits(27) == 6004799503160661;
    assert EvenBits(28) == 24019198012642645;
    assert EvenBits(29) == 96076792050570581;
    assert EvenBits(30) == 384307168202282325;
    assert EvenBits(31) == 1537228672809129301;
    assert EvenBits(32) == 6148914691236517205;
  }

  lemma {:induction false} SpreadStep(x: nat)
    ensures Spread(x) == x % 2 + 4 * Spread(x / 2)
  {
  }

  /** With a mask of k even positions, pdep spreads any k-bit number. */
  lemma {:induction false} PdepEvenBits(x: nat, k: nat)
    requires x < Pow2(k)
    ensures Pdep(x, EvenBits(k)) == Spread(x)
  {
    if k > 0 {
      var m := EvenBits(k - 1);
      assert (1 + 4 * m) / 2 == 2 * m;
      PdepEvenBits(x / 2, k - 1);
      if m == 0 {
        assert Pdep(x / 2, 2 * m) == 2 * Pdep(x / 2, m);
      }
      SpreadStep(x);
    }
  }

  /** `pdep(x, 0x5555…)` and `pdep(x, 0xAAAA…)` put the bits of a 32-bit `x`
      at the even, respectively odd, positions. */
  lemma PdepMasks(x: nat)
    requires x < Pow2(32)
    ensures Pdep(x, EVEN_MASK) == Spread(x)
    ensures Pdep(x, ODD_MASK) == 2 * Spread(x)
  {
    EvenMaskIs32EvenBits();
    PdepEvenBits(x, 32);
  }

  /** Halving `d + 2q` for a bit d. */
  lemma Halve(d: nat, q: nat)
    requires d < 2
    ensures (d + 2 * q) % 2 == d && (d + 2 * q) / 2 == q
  {
  }

  lemma BitOrStep(a: nat, b: nat)
    ensures BitOr(a, b) == (if a % 2 == 1 || b % 2 == 1 then 1 else 0) + 2 * BitOr(a / 2, b / 2)
  {
  }

  /** The two halves of a Morton code have no bit in common, so OR adds them. */
  lemma {:induction false} BitOrInterleave(row: nat, col: nat)
    ensures BitOr(2 * Spread(row), Spread(col)) == Interleave(row, col)
    decreases row + col
  {
    if row != 0 || col != 0 {
      SpreadStep(row);
      SpreadStep(col);
      var r0, c0, sr, sc := row % 2, col % 2, Spread(row / 2), Spread(col / 2);
      var a, b := 2 * Spread(row), Spread(col);
      assert a == 0 + 2 * (r0 + 2 * (2 * sr));
      assert b == c0 + 2 * (2 * sc);
      Halve(0, r0 + 2 * (2 * sr));
      Halve(c0, 2 * sc);
      BitOrStep(a, b);
      assert BitOr(a, b) == c0 + 2 * BitOr(r0 + 2 * (2 * sr), 0 + 2 * sc);
      Halve(r0, 2 * sr);
      Halve(0, sc);
      BitOrStep(r0 + 2 * (2 * sr), 0 + 2 * sc);
      assert BitOr(r0 + 2 * (2 * sr), 0 + 2 * sc) == r0 + 2 * BitOr(2 * sr, sc);
      BitOrInterleave(row / 2, col / 2);
    }
  }

  /** A k-bit row and column interleave to a 2k-bit code. */
  lemma {:induction false} InterleaveBound(row: nat, col: nat, k: nat)
    requires row < Pow2(k) && col < Pow2(k)
    ensures Interleave(row, col) < Pow4(k)
  {
    if k > 0 {
      SpreadStep(row);
      SpreadStep(col);
      InterleaveBound(row / 2, col / 2, k - 1);
    }
  }

  /** Compact recovers the column from the even bits of a Morton code. */
  lemma {:induction false} CompactInterleave(row: nat, col: nat)
    ensures Compact(Interleave(row, col)) == col
    decreases row + col
  {
    if row != 0 || col != 0 {
      SpreadStep(row);
      SpreadStep(col);
      var n, m := Interleave(row, col), Interleave(row / 2, col / 2);
      var c0, r0 := col % 2, row % 2;
      assert n == c0 + 2 * (r0 + 2 * m);
      Halve(c0, r0 + 2 * m);
      Halve(r0, m);
      assert n % 2 == c0 && n / 4 == n / 2 / 2 == m;
      CompactInterleave(row / 2, col / 2);
    }
  }

  /** Decoding a Morton code gives back its row and column. */
  lemma DecodeInterleave(row: nat, col: nat)
    ensures Compact(Interleave(row, col) / 2) == row
    ensures Compact(Interleave(row, col)) == col
  {
    CompactInterleave(row, col);
    SpreadStep(col);
    assert Interleave(row, col) / 2 == Interleave(col / 2, row);
    CompactInterleave(col / 2, row);
  }

  /** `Spread(2^k - 1)` is `1 + 4 + … + 4^(k-1)`, that is `(4^k - 1) / 3`. */
  lemma {:induction false} SpreadOnes(k: nat)
    ensures 3 * Spread(Pow2(k) - 1) + 1 == Pow4(k)
  {
    if k > 0 {
      SpreadStep(Pow2(k) - 1);
      assert (Pow2(k) - 1) / 2 == Pow2(k - 1) - 1;
      SpreadOnes(k - 1);
    }
  }

  lemma {:induction false} Pow2Monotone(a: nat, b: nat)
    requires a <= b
    ensures Pow2(a) <= Pow2(b)
  {
    if a < b {
      Pow2Monotone(a, b - 1);
    }
  }

  lemma {:induction false} Pow4IsPow2Squared(k: nat)
    ensures Pow4(k) == Pow2(k) * Pow2(k)
  {
    if k > 0 {
      Pow4IsPow2Squared(k - 1);
    }
  }
}
