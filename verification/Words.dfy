/** 64-bit words as the scan kernels use them: single bits, shifts and population counts.

    A shift by a run-time amount is written as repeated halving, so that `Bit(w, i)` is
    the low bit of `w >> i`. The inductions `hide` the bit-vector definitions and use
    only the one-step lemmas about them. */
module Words {

  predicate Low(w: bv64) {
    w & 1 == 1
  }

  function Half(w: bv64): bv64 {
    w >> 1
  }

  /** `w >> n` */
  function Shr(w: bv64, n: nat): bv64
    decreases n
  {
    if n == 0 then w else Shr(Half(w), n - 1)
  }

  /** `(w >> i) & 1` */
  predicate Bit(w: bv64, i: nat)
    decreases i
  {
    if i == 0 then Low(w) else Bit(Half(w), i - 1)
  }

  function Double(w: bv64): bv64 {
    w << 1
  }

  /** `std::uint64_t{1} << i` */
  function One(i: nat): bv64 {
    if i == 0 then 1 else Double(One(i - 1))
  }

  function ToInt(b: bool): nat {
    if b then 1 else 0
  }

  /** The number of set bits among the `n` lowest. */
  function Count(w: bv64, n: nat): nat
    decreases n
  {
    if n == 0 then 0 else ToInt(Low(w)) + Count(Half(w), n - 1)
  }

  // --- Single bits ------------------------------------------------------------------------

  lemma {:induction false} ShrBit(w: bv64, n: nat, i: nat)
    ensures Bit(Shr(w, n), i) == Bit(w, n + i)
    decreases n
  {
    hide Low, Half;
    if n == 0 {
    } else {
      ShrBit(Half(w), n - 1, i);
    }
  }

  lemma {:induction false} ZeroBit(i: nat)
    ensures !Bit(0, i)
  {
    if i == 0 {
    } else {
      ZeroBit(i - 1);
    }
  }

  predicate IsOr(a: bv64, b: bv64, c: bv64) {
    c == a | b
  }

  predicate IsAnd(a: bv64, b: bv64, c: bv64) {
    c == a & b
  }

  predicate IsXor(a: bv64, b: bv64, c: bv64) {
    c == a ^ b
  }

  lemma {:induction false} OrStep(a: bv64, b: bv64, c: bv64)
    requires IsOr(a, b, c)
    ensures IsOr(Half(a), Half(b), Half(c)) && Low(c) == (Low(a) || Low(b))
  {}

  lemma {:induction false} AndStep(a: bv64, b: bv64, c: bv64)
    requires IsAnd(a, b, c)
    ensures IsAnd(Half(a), Half(b), Half(c)) && Low(c) == (Low(a) && Low(b))
  {}

  lemma {:induction false} XorStep(a: bv64, b: bv64, c: bv64)
    requires IsXor(a, b, c)
    ensures IsXor(Half(a), Half(b), Half(c)) && Low(c) == (Low(a) != Low(b))
  {}

  lemma {:induction false} OrBit(a: bv64, b: bv64, c: bv64, i: nat)
    requires IsOr(a, b, c)
    ensures Bit(c, i) == (Bit(a, i) || Bit(b, i))
    decreases i
  {
    hide Low, Half, IsOr;
    OrStep(a, b, c);
    if i == 0 {
    } else {
      OrBit(Half(a), Half(b), Half(c), i - 1);
    }
  }

  lemma {:induction false} AndBit(a: bv64, b: bv64, c: bv64, i: nat)
    requires IsAnd(a, b, c)
    ensures Bit(c, i) == (Bit(a, i) && Bit(b, i))
    decreases i
  {
    hide Low, Half, IsAnd;
    AndStep(a, b, c);
    if i == 0 {
    } else {
      AndBit(Half(a), Half(b), Half(c), i - 1);
    }
  }

  lemma {:induction false} XorBit(a: bv64, b: bv64, c: bv64, i: nat)
    requires IsXor(a, b, c)
    ensures Bit(c, i) == (Bit(a, i) != Bit(b, i))
    decreases i
  {
    hide Low, Half, IsXor;
    XorStep(a, b, c);
    if i == 0 {
    } else {
      XorBit(Half(a), Half(b), Half(c), i - 1);
    }
  }

  // `One(i)` keeps its bit up to the top of the word: were it lost earlier, `One(63)`
  // would be zero.

  lemma {:induction false} OneTop()
    ensures One(63) == 0x8000_0000_0000_0000
  {
    assert One(8) == 0x100;
    assert One(16) == 0x1_0000;
    assert One(24) == 0x100_0000;
    assert One(32) == 0x1_0000_0000;
    assert One(40) == 0x100_0000_0000;
    assert One(48) == 0x1_0000_0000_0000;
    assert One(56) == 0x100_0000_0000_0000;
  }

  lemma {:induction false} ZeroStays(i: nat, n: nat)
    requires i <= n && One(i) == 0
    ensures One(n) == 0
    decreases n
  {
    if i < n {
      ZeroStays(i, n - 1);
    }
  }

  predicate Single(w: bv64) {
    w & (w - 1) == 0
  }

  lemma {:induction false} DoubleSingle(w: bv64)
    requires Single(w)
    ensures Single(Double(w)) && !Low(Double(w))
    ensures Double(w) != 0 ==> Half(Double(w)) == w
  {}

  lemma {:induction false} SingleBit(i: nat)
    ensures Single(One(i))
  {
    if i == 0 {
    } else {
      SingleBit(i - 1);
      DoubleSingle(One(i - 1));
    }
  }

  lemma {:induction false} OneNonZero(i: nat)
    requires i < 64
    ensures One(i) != 0
  {
    OneTop();
    if One(i) == 0 {
      ZeroStays(i, 63);
    }
  }

  lemma {:induction false} OneBit(i: nat, j: nat)
    requires i < 64
    ensures Bit(One(i), j) == (i == j)
  {
    if i == 0 {
      if j > 0 {
        ZeroBit(j - 1);
      }
    } else {
      hide Low, Half, Double, Single;
      SingleBit(i - 1);
      DoubleSingle(One(i - 1));
      OneNonZero(i);
      if j > 0 {
        OneBit(i - 1, j - 1);
      }
    }
  }

  /** Setting bit `i` of a word, as `w |= 1 << i` does. */
  lemma {:induction false} SetBit(w: bv64, i: nat, c: bv64, j: nat)
    requires i < 64 && IsOr(w, One(i), c)
    ensures Bit(c, j) == (Bit(w, j) || i == j)
  {
    hide Low, Half, Double, IsOr;
    OrBit(w, One(i), c, j);
    OneBit(i, j);
  }

  // --- Population count -------------------------------------------------------------------

  lemma {:induction false} CountSnoc(w: bv64, n: nat)
    ensures Count(w, n + 1) == Count(w, n) + ToInt(Bit(w, n))
    decreases n
  {
    hide Low, Half;
    if n == 0 {
    } else {
      CountSnoc(Half(w), n - 1);
    }
  }

  /** `popcount_lut`: the number of set bits of a nibble. */
  function Lut(x: bv64): nat {
    if x == 0 then 0
    else if x == 1 || x == 2 || x == 4 || x == 8 then 1
    else if x == 3 || x == 5 || x == 6 || x == 9 || x == 10 || x == 12 then 2
    else if x == 15 then 4
    else 3
  }

  function Nibble(w: bv64): bv64 {
    w & 0xF
  }

  function Byte(w: bv64): bv64 {
    w & 0xFF
  }

  function Shr4(w: bv64): bv64 {
    w >> 4
  }

  function Shr8(w: bv64): bv64 {
    w >> 8
  }

  function NibbleMask(w: bv64): bv64 {
    w & 0x0F0F_0F0F_0F0F_0F0F
  }

  /** `_mm512_sad_epu8` after the two table look-ups, over the `n` low bytes of one lane. */
  function SumBytes(lo: bv64, hi: bv64, n: nat): nat
    decreases n
  {
    if n == 0 then 0 else Lut(Byte(lo)) + Lut(Byte(hi)) + SumBytes(Shr8(lo), Shr8(hi), n - 1)
  }

  /** One lane of `popcount_bytes_to_u64`. `_mm512_srli_epi16` shifts each 16-bit group
      separately, which drops the bits that cross into the group below. */
  function PopcountLane(value: bv64): nat {
    SumBytes(NibbleMask(value), NibbleMask(Shr4(value) & 0x0FFF_0FFF_0FFF_0FFF), 8)
  }

  lemma {:induction false} FourHalves(w: bv64)
    ensures Half(Half(Half(Half(w)))) == Shr4(w)
  {}

  lemma {:induction false} LutFour(w: bv64)
    ensures Lut(Nibble(w))
         == ToInt(Low(w)) + ToInt(Low(Half(w))) + ToInt(Low(Half(Half(w)))) + ToInt(Low(Half(Half(Half(w)))))
  {}

  /** Four bits of a count, by the table. */
  lemma {:induction false} CountNibble(w: bv64, n: nat)
    ensures Count(w, n + 4) == Lut(Nibble(w)) + Count(Shr4(w), n)
  {
    FourHalves(w);
    LutFour(w);
    hide Low, Half, Lut, Nibble, Shr4;
    assert Count(w, n + 4) == ToInt(Low(w)) + ToInt(Low(Half(w))) + Count(Half(Half(w)), n + 2);
  }

  predicate Nibbles(v: bv64, lo: bv64, hi: bv64) {
    lo == NibbleMask(v) && hi == NibbleMask(Shr4(v))
  }

  lemma {:induction false} NextLow(v: bv64)
    ensures Shr8(NibbleMask(v)) == NibbleMask(Shr8(v))
    ensures Byte(NibbleMask(v)) == Nibble(v)
  {}

  lemma {:induction false} ShrTwice(v: bv64)
    ensures Shr4(Shr4(v)) == Shr8(v)
    ensures Shr4(Shr8(v)) == Shr8(Shr4(v))
  {}

  lemma {:induction false} NextByte(v: bv64, lo: bv64, hi: bv64)
    requires Nibbles(v, lo, hi)
    ensures Nibbles(Shr8(v), Shr8(lo), Shr8(hi))
    ensures Byte(lo) == Nibble(v) && Byte(hi) == Nibble(Shr4(v))
  {
    hide Nibble, Byte, Shr4, Shr8, NibbleMask;
    NextLow(v);
    NextLow(Shr4(v));
    ShrTwice(v);
  }

  lemma {:induction false} SumBytesCount(v: bv64, lo: bv64, hi: bv64, n: nat)
    requires Nibbles(v, lo, hi)
    ensures SumBytes(lo, hi, n) == Count(v, 8 * n)
    decreases n
  {
    hide Lut, Nibbles, Nibble, Byte, Shr4, Shr8, Low, Half;
    NextByte(v, lo, hi);
    ShrTwice(v);
    if n == 0 {
    } else {
      CountNibble(v, 8 * n - 4);
      CountNibble(Shr4(v), 8 * n - 8);
      SumBytesCount(Shr8(v), Shr8(lo), Shr8(hi), n - 1);
    }
  }

  lemma {:induction false} LanewiseShift(v: bv64)
    ensures NibbleMask(Shr4(v) & 0x0FFF_0FFF_0FFF_0FFF) == NibbleMask(Shr4(v))
  {}

  /** The nibble-table kernel counts exactly the set bits of its lane. */
  lemma {:induction false} PopcountIsCount(v: bv64)
    ensures PopcountLane(v) == Count(v, 64)
  {
    LanewiseShift(v);
    assert Nibbles(v, NibbleMask(v), NibbleMask(Shr4(v)));
    hide Lut, Nibbles, NibbleMask, Shr4, SumBytes;
    SumBytesCount(v, NibbleMask(v), NibbleMask(Shr4(v)), 8);
  }
}
