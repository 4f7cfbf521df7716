/** Allocation bitmaps: bit i is bit i % 8 of byte i / 8. */
module Bitmap {

  type Bits = seq<bv8>

  /** `1 << k` for a bit position inside a byte. */
  function Mask(k: nat): bv8 {
    if k == 0 then 1 else if k == 1 then 2 else if k == 2 then 4 else if k == 3 then 8
    else if k == 4 then 16 else if k == 5 then 32 else if k == 6 then 64 else 128
  }

  predicate TestBit(b: Bits, i: nat) {
    i / 8 < |b| && b[i / 8] & Mask(i % 8) != 0
  }

  function SetBit(b: Bits, i: nat): (r: Bits)
    requires i / 8 < |b|
    ensures |r| == |b|
  {
    b[i / 8 := b[i / 8] | Mask(i % 8)]
  }

  function ResetBit(b: Bits, i: nat): (r: Bits)
    requires i / 8 < |b|
    ensures |r| == |b|
  {
    b[i / 8 := b[i / 8] & !Mask(i % 8)]
  }

  lemma MaskBits(x: bv8, j: nat, k: nat)
    requires j < 8 && k < 8
    ensures (x | Mask(j)) & Mask(k) != 0 <==> j == k || x & Mask(k) != 0
    ensures (x & !Mask(j)) & Mask(k) != 0 <==> j != k && x & Mask(k) != 0
    ensures x & Mask(j) == 0 ==> (x | Mask(j)) & !Mask(j) == x
  {
  }

  /** set_bit turns on the one bit it names. */
  lemma SetBitTest(b: Bits, i: nat, j: nat)
    requires i / 8 < |b|
    ensures TestBit(SetBit(b, i), j) <==> i == j || TestBit(b, j)
  {
    hide Mask;
    if i / 8 == j / 8 {
      MaskBits(b[i / 8], i % 8, j % 8);
    }
  }

  /** reset_bit turns off the one bit it names. */
  lemma ResetBitTest(b: Bits, i: nat, j: nat)
    requires i / 8 < |b|
    ensures TestBit(ResetBit(b, i), j) <==> i != j && TestBit(b, j)
  {
    hide Mask;
    if i / 8 == j / 8 {
      MaskBits(b[i / 8], i % 8, j % 8);
    }
  }

  /** Setting a clear bit and resetting it again gives back the bitmap byte for byte. */
  lemma SetThenReset(b: Bits, i: nat)
    requires i / 8 < |b| && !TestBit(b, i)
    ensures ResetBit(SetBit(b, i), i) == b
  {
    hide Mask;
    MaskBits(b[i / 8], i % 8, i % 8);
  }

  // ---- bits as numbers ----

  /** 2^k */
  function TwoTo(k: nat): (r: nat)
    ensures r > 0
  {
    if k == 0 then 1 else 2 * TwoTo(k - 1)
  }

  lemma TwoToValues()
    ensures TwoTo(0) == 1 && TwoTo(1) == 2 && TwoTo(2) == 4 && TwoTo(3) == 8
    ensures TwoTo(4) == 16 && TwoTo(5) == 32 && TwoTo(6) == 64 && TwoTo(7) == 128
  {
  }

  /** m is a mask for the digit of t in byte x. */
  ghost predicate Digit(x: bv8, m: bv8, t: nat) {
    && t > 0
    && (x & m != 0 <==> x as int / t % 2 == 1)
    && (x & m == 0 ==> (x | m) as int == x as int + t)
    && (x & m != 0 ==> (x & !m) as int == x as int - t)
  }

  lemma BitOne(x: bv8)
    ensures Digit(x, 1, 1)
  {
  }

  lemma BitTwo(x: bv8)
    ensures Digit(x, 2, 2)
  {
  }

  lemma BitFour(x: bv8)
    ensures Digit(x, 4, 4)
  {
  }

  lemma BitEight(x: bv8)
    ensures Digit(x, 8, 8)
  {
  }

  lemma BitSixteen(x: bv8)
    ensures Digit(x, 16, 16)
  {
  }

  lemma BitThirtyTwo(x: bv8)
    ensures Digit(x, 32, 32)
  {
  }

  lemma BitSixtyFour(x: bv8)
    ensures Digit(x, 64, 64)
  {
  }

  lemma BitOneTwentyEight(x: bv8)
    ensures Digit(x, 128, 128)
  {
  }

  lemma MaskDigit(x: bv8, k: nat)
    requires k < 8
    ensures Digit(x, Mask(k), TwoTo(k))
  {
    TwoToValues();
    hide TwoTo, Digit;
    if k == 0 {
      BitOne(x);
    } else if k == 1 {
      BitTwo(x);
    } else if k == 2 {
      BitFour(x);
    } else if k == 3 {
      BitEight(x);
    } else if k == 4 {
      BitSixteen(x);
    } else if k == 5 {
      BitThirtyTwo(x);
    } else if k == 6 {
      BitSixtyFour(x);
    } else {
      BitOneTwentyEight(x);
    }
  }

  /** Bit i counts from the low end: it is the digit of 2^(i % 8) in byte i / 8. */
  lemma BitIsDigit(b: Bits, i: nat)
    requires i / 8 < |b|
    ensures TestBit(b, i) <==> b[i / 8] as int / TwoTo(i % 8) % 2 == 1
  {
    hide Mask, TwoTo;
    MaskDigit(b[i / 8], i % 8);
  }

  /** From b to b' byte i / 8 has grown by 2^(i % 8), and no other byte has changed. */
  ghost predicate BitAdded(b: Bits, b': Bits, i: nat) {
    && i / 8 < |b| == |b'| && b'[i / 8] as int == b[i / 8] as int + TwoTo(i % 8)
    && forall j | 0 <= j < |b| && j != i / 8 :: b'[j] == b[j]
  }

  lemma SetBitAdds(b: Bits, i: nat)
    requires i / 8 < |b| && !TestBit(b, i)
    ensures BitAdded(b, SetBit(b, i), i)
  {
    hide Mask, TwoTo;
    MaskDigit(b[i / 8], i % 8);
  }

  lemma ResetBitTakes(b: Bits, i: nat)
    requires TestBit(b, i)
    ensures BitAdded(ResetBit(b, i), b, i)
  {
    hide Mask, TwoTo;
    MaskDigit(b[i / 8], i % 8);
  }

  /** The inner scan of both allocators: the first clear bit of [first, last]. */
  method FindClearBit(b: Bits, first: nat, last: int) returns (found: bool, bit: nat)
    ensures found ==> first <= bit <= last && !TestBit(b, bit) && forall i | first <= i < bit :: TestBit(b, i)
    ensures !found ==> forall i | first <= i <= last :: TestBit(b, i)
  {
    bit := first;
    while bit <= last
      invariant first <= bit
      invariant forall i | first <= i < bit :: TestBit(b, i)
      decreases last + 1 - bit
    {
      if !TestBit(b, bit) {
        return true, bit;
      }
      bit := bit + 1;
    }
    found := false;
  }
}
