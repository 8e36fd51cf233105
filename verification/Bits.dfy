/** `u32` seen as its 32 bits, lowest first, for the code that works on single bits. */
module Bits {
  import opened Numbers

  type Word = w: seq<bool> | |w| == 32 witness seq(32, i requires 0 <= i < 32 => false)

  /** The word 0. */
  function Zero(): Word { seq(32, i requires 0 <= i < 32 => false) }

  /** The word 1. */
  function One(): Word { seq(32, i requires 0 <= i < 32 => i == 0) }

  /** `a | b` */
  function Or(a: Word, b: Word): Word { seq(32, i requires 0 <= i < 32 => a[i] || b[i]) }

  /** `a & b` */
  function And(a: Word, b: Word): Word { seq(32, i requires 0 <= i < 32 => a[i] && b[i]) }

  /** `w << k` */
  function Shl(w: Word, k: nat): Word { seq(32, i requires 0 <= i < 32 => k <= i && w[i - k]) }

  /** `w >> k` */
  function Shr(w: Word, k: nat): Word { seq(32, i requires 0 <= i < 32 => i + k < 32 && w[i + k]) }

  /** `w & 1 == 1` tests the lowest bit. */
  lemma TestLowBit(w: Word)
    ensures And(w, One()) == One() <==> w[0]
  {
    assert And(w, One())[0] == w[0];
  }

  /** `w & (1 << i) != 0` tests bit `i`. */
  lemma TestBit(w: Word, i: nat)
    requires i < 32
    ensures And(w, Shl(One(), i)) != Zero() <==> w[i]
  {
    assert Shl(One(), i)[i];
    assert And(w, Shl(One(), i))[i] == w[i];
  }

  lemma ShrShr(w: Word, k: nat)
    ensures Shr(Shr(w, k), 1) == Shr(w, k + 1)
  {
  }

  lemma ShrNone(w: Word)
    ensures Shr(w, 0) == w
  {
  }

  // ----- the number a word stands for -----

  function Pow2(n: nat): (p: nat)
    ensures p > 0
  {
    if n == 0 then 1 else 2 * Pow2(n - 1)
  }

  lemma Pow32()
    ensures Pow2(32) == 0x1_0000_0000
  {
    assert Pow2(8) == 0x100;
    assert Pow2(16) == 0x1_0000;
    assert Pow2(24) == 0x100_0000;
  }

  function Value(bits: seq<bool>): (v: nat)
    ensures v < Pow2(|bits|)
  {
    if bits == [] then 0 else (if bits[0] then 1 else 0) + 2 * Value(bits[1..])
  }

  function Digits(v: nat, n: nat): (bits: seq<bool>)
    ensures |bits| == n
    decreases n
  {
    if n == 0 then [] else [v % 2 == 1] + Digits(v / 2, n - 1)
  }

  function ToU32(w: Word): u32 { Pow32(); Value(w) }

  function FromU32(v: u32): Word { Digits(v, 32) }

  lemma {:induction false} DigitsOfValue(bits: seq<bool>)
    ensures Digits(Value(bits), |bits|) == bits
  {
    if bits != [] {
      DigitsOfValue(bits[1..]);
      assert bits == [bits[0]] + bits[1..];
    }
  }

  lemma {:induction false} ValueOfDigits(v: nat, n: nat)
    requires v < Pow2(n)
    ensures Value(Digits(v, n)) == v
    decreases n
  {
    if n > 0 {
      ValueOfDigits(v / 2, n - 1);
      assert Digits(v, n)[1..] == Digits(v / 2, n - 1);
    }
  }

  /** Words and 32-bit numbers correspond one to one. */
  lemma WordsAreNumbers(w: Word, v: u32)
    ensures FromU32(ToU32(w)) == w
    ensures ToU32(FromU32(v)) == v
  {
    DigitsOfValue(w);
    Pow32();
    ValueOfDigits(v, 32);
  }
}
