/** Lengths as C integers: the bit pattern of a natural number, and back. */
module Lengths {

  const INT_MAX := 0x7FFF_FFFF

  function Pow2(k: nat): nat {
    if k == 0 then 1 else 2 * Pow2(k - 1)
  }

  /** The bit pattern of `n`. */
  function Bits(n: nat): bv32 {
    if n == 0 then 0 else Append(Bits(n / 2), n % 2 == 1)
  }

  function Append(x: bv32, bit: bool): bv32 {
    (x << 1) | (if bit then 1 else 0)
  }

  /** The number in the lowest `k` bits. */
  function Number(b: bv32, k: nat): nat {
    if k == 0 then 0 else 2 * Number(b >> 1, k - 1) + (if b & 1 == 1 then 1 else 0)
  }

  function Ones(k: nat): bv32 {
    if k == 0 then 0 else (Ones(k - 1) << 1) | 1
  }

  predicate FitsIn(x: bv32, ones: bv32) { x & !ones == 0 }

  lemma {:induction false} BitsFit(n: nat, k: nat)
    requires n < Pow2(k)
    ensures FitsIn(Bits(n), Ones(k))
  {
    if n == 0 {
      assert Bits(n) == 0;
    } else {
      BitsFit(n / 2, k - 1);
      AppendWithin(Bits(n / 2), Ones(k - 1), n % 2 == 1);
    }
  }

  lemma AppendWithin(x: bv32, ones: bv32, bit: bool)
    requires FitsIn(x, ones)
    ensures FitsIn(Append(x, bit), (ones << 1) | 1)
  {
    if bit { AppendOne(x, ones); } else { AppendZero(x, ones); }
  }

  lemma ShiftedFits(x: bv32, ones: bv32)
    requires FitsIn(x, ones)
    ensures (x << 1) & !(ones << 1) == 0
  {
    assert x == x & ones;
    assert (x & ones) << 1 == (x << 1) & (ones << 1);
  }

  lemma AppendOne(x: bv32, ones: bv32)
    requires FitsIn(x, ones)
    ensures FitsIn((x << 1) | 1, (ones << 1) | 1)
  {
    ShiftedFits(x, ones);
  }

  lemma AppendZero(x: bv32, ones: bv32)
    requires FitsIn(x, ones)
    ensures FitsIn((x << 1) | 0, (ones << 1) | 1)
  {
    ShiftedFits(x, ones);
  }

  lemma AppendTwice(x: bv32, bit: bool)
    requires x & 0x8000_0000 == 0
    ensures Append(x, bit) >> 1 == x && (Append(x, bit) & 1 == 1 <==> bit)
  {}

  lemma Powers()
    ensures Pow2(31) == 0x8000_0000 && Ones(31) == 0x7FFF_FFFF
  {
    assert Pow2(8) == 0x100 && Pow2(16) == 0x1_0000 && Pow2(24) == 0x100_0000;
    assert Ones(8) == 0xFF && Ones(16) == 0xFFFF && Ones(24) == 0xFF_FFFF;
  }

  lemma NoSign(x: bv32)
    requires FitsIn(x, 0x7FFF_FFFF)
    ensures x & 0x8000_0000 == 0
  {}

  /** A length that fits in a C int is not negative as one. */
  lemma BitsNotNegative(n: nat)
    requires n <= INT_MAX
    ensures Bits(n) & 0x8000_0000 == 0
  {
    Powers();
    BitsFit(n, 31);
    NoSign(Bits(n));
  }

  lemma {:induction false} NumberOfZero(k: nat)
    ensures Number(0, k) == 0
  {
    if k > 0 {
      NumberOfZero(k - 1);
    }
  }

  lemma NumberAppended(x: bv32, bit: bool, k: nat)
    requires x & 0x8000_0000 == 0 && k > 0
    ensures Number(Append(x, bit), k) == 2 * Number(x, k - 1) + if bit then 1 else 0
  {
    AppendTwice(x, bit);
  }

  lemma {:induction false} NumberOfBits(n: nat, k: nat)
    requires n < Pow2(k) && n <= INT_MAX
    ensures Number(Bits(n), k) == n
  {
    if n == 0 {
      NumberOfZero(k);
    } else {
      NumberOfBits(n / 2, k - 1);
      BitsNotNegative(n / 2);
      NumberAppended(Bits(n / 2), n % 2 == 1, k);
    }
  }

  /** The length of a C int that is not negative. */
  function ToLength(b: bv32): nat {
    Number(b, 31)
  }

  lemma LengthRoundTrip(n: nat)
    requires n <= INT_MAX
    ensures ToLength(Bits(n)) == n
  {
    Powers();
    NumberOfBits(n, 31);
  }

  // ---------- the largest length ----------

  lemma BitsStep(n: nat)
    requires n > 0
    ensures Bits(n) == Append(Bits(n / 2), n % 2 == 1)
  {}

  function OneAt(k: nat): bv32 {
    if k == 0 then 1 else Append(OneAt(k - 1), false)
  }

  lemma Halved(k: nat)
    requires k > 0
    ensures Pow2(k) > 0 && Pow2(k) / 2 == Pow2(k - 1) && Pow2(k) % 2 == 0
    ensures Pow2(k) - 1 > 0 && (Pow2(k) - 1) / 2 == Pow2(k - 1) - 1 && (Pow2(k) - 1) % 2 == 1
  {
    PowIsPositive(k - 1);
  }

  lemma {:induction false} PowIsPositive(k: nat)
    ensures Pow2(k) > 0
  {
    if k > 0 { PowIsPositive(k - 1); }
  }

  lemma {:induction false} PowerBits(k: nat)
    ensures Pow2(k) > 0 && Bits(Pow2(k)) == OneAt(k) && Bits(Pow2(k) - 1) == AllOnes(k)
  {
    if k > 0 {
      hide Bits, Append, Pow2;
      PowerBits(k - 1);
      Halved(k);
      BitsStep(Pow2(k));
      BitsStep(Pow2(k) - 1);
    } else {
      Smallest();
    }
  }

  function AllOnes(k: nat): bv32 {
    if k == 0 then 0 else Append(AllOnes(k - 1), true)
  }

  lemma Smallest()
    ensures Bits(0) == 0 && Bits(1) == 1
  {
    assert Bits(0) == 0;
  }

  /** The largest length is the largest number that is not negative as a C int. */
  lemma LargestLength()
    ensures Bits(INT_MAX) == 0x7FFF_FFFF && Bits(INT_MAX + 1) == 0x8000_0000
  {
    hide Bits;
    Powers();
    PowerBits(31);
    InFigures();
  }

  lemma InFigures()
    ensures OneAt(31) == 0x8000_0000 && AllOnes(31) == 0x7FFF_FFFF
  {
    assert OneAt(8) == 0x100 && OneAt(16) == 0x1_0000 && OneAt(24) == 0x100_0000;
    assert AllOnes(8) == 0xFF && AllOnes(16) == 0xFFFF && AllOnes(24) == 0xFF_FFFF;
  }
}
