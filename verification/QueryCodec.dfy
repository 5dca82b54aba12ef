/** Query preparation: the one-bit code and the integer codes written as two's-complement
    bit planes. Lengths are 64 * words; `bits` is the template parameter of the integer codec. */
module QueryCodec {
  import opened Arith
  import opened Rounding
  import opened Vectors
  import opened Signs
  import opened Hadamard

  // --- Rounding and codes -------------------------------------------------------------------

  function MaxAbs(q: Vec, n: nat): (m: real)
    requires n <= |q|
    ensures m >= 0.0 && forall i :: 0 <= i < n ==> Abs(q[i]) <= m
    decreases n
  {
    if n == 0 then 0.0
    else var m := MaxAbs(q, n - 1); if m < Abs(q[n - 1]) then Abs(q[n - 1]) else m
  }

  function QMax(bits: nat): (m: int)
    requires bits >= 2
    ensures m > 0
  {
    Pow2(bits - 1) - 1
  }

  function ScaleOf(q: Vec, bits: nat): (s: real)
    requires bits >= 2
    ensures s > 0.0
  {
    var m := MaxAbs(q, |q|);
    if m > 0.0 then m / QMax(bits) as real else 1.0
  }

  function Clamp(c: int, m: int): int {
    if c < -m then -m else if c > m then m else c
  }

  function CodeOf(v: real, scale: real, bits: nat): int
    requires bits >= 2 && scale > 0.0
  {
    Clamp(RoundHalfEven(v / scale), QMax(bits))
  }

  function CodesOf(q: Vec, scale: real, bits: nat): (codes: seq<int>)
    requires bits >= 2 && scale > 0.0
    ensures |codes| == |q| && forall i :: 0 <= i < |q| ==> codes[i] == CodeOf(q[i], scale, bits)
    decreases |q|
  {
    if q == [] then [] else [CodeOf(q[0], scale, bits)] + CodesOf(q[1..], scale, bits)
  }

  /** The integer codes of a query. */
  function QueryCodes(q: Vec, bits: nat): (codes: seq<int>)
    requires bits >= 2
    ensures |codes| == |q|
  {
    CodesOf(q, ScaleOf(q, bits), bits)
  }

  lemma {:induction false} RoundInRange(r: real, m: int)
    requires -(m as real) <= r <= m as real
    ensures -m <= RoundHalfEven(r) <= m
  {
    var n := RoundHalfEven(r);
    assert n as real <= m as real + 0.5 && n as real >= -(m as real) - 0.5;
  }

  lemma {:induction false} SignOfFactor(x: real, scale: real)
    requires scale > 0.0
    ensures x >= 0.0 <==> x * scale >= 0.0
  {}

  lemma {:induction false} QuotientBounds(v: real, scale: real, m: int)
    requires scale > 0.0 && Abs(v) <= scale * m as real
    ensures -(m as real) <= v / scale <= m as real
  {
    var r := v / scale;
    assert r * scale == v;
    SignOfFactor(m as real - r, scale);
    SignOfFactor(m as real + r, scale);
  }

  lemma {:induction false} ErrorBound(v: real, scale: real, n: int)
    requires scale > 0.0 && -0.5 <= v / scale - n as real <= 0.5
    ensures -(scale / 2.0) <= v - Times(scale, n as real) <= scale / 2.0
  {
    var e := v / scale - n as real;
    assert v / scale * scale == v;
    assert v - scale * n as real == e * scale;
    SignOfFactor(e + 0.5, scale);
    SignOfFactor(0.5 - e, scale);
  }

  lemma {:induction false} ScaleTimesQMax(m: real, qmax: int)
    requires qmax > 0
    ensures (m / qmax as real) * qmax as real == m
  {}

  /** The clamp never acts, and no coordinate moves by more than half a step. */
  lemma {:induction false} CodeError(q: Vec, bits: nat, i: nat)
    requires bits >= 2 && i < |q|
    ensures var scale := ScaleOf(q, bits); var r := RoundHalfEven(q[i] / scale);
            && -QMax(bits) <= r <= QMax(bits)
            && CodeOf(q[i], scale, bits) == r
            && -(scale / 2.0) <= q[i] - Times(scale, r as real) <= scale / 2.0
  {
    hide MaxAbs, Pow2, RoundHalfEven;
    var scale, m := ScaleOf(q, bits), MaxAbs(q, |q|);
    assert Abs(q[i]) <= m;
    if m > 0.0 {
      ScaleTimesQMax(m, QMax(bits));
    }
    QuotientBounds(q[i], scale, QMax(bits));
    RoundInRange(q[i] / scale, QMax(bits));
    ErrorBound(q[i], scale, RoundHalfEven(q[i] / scale));
  }

  predicate CodesInRange(codes: seq<int>, bits: nat)
    requires bits >= 2
  {
    forall i :: 0 <= i < |codes| ==> -QMax(bits) <= codes[i] <= QMax(bits)
  }

  lemma {:induction false} CodesOfInRange(q: Vec, bits: nat)
    requires bits >= 2
    ensures CodesInRange(CodesOf(q, ScaleOf(q, bits), bits), bits)
  {
    hide CodesOf, CodeOf, ScaleOf, QMax;
    forall i | 0 <= i < |q|
      ensures -QMax(bits) <= CodesOf(q, ScaleOf(q, bits), bits)[i] <= QMax(bits)
    {
      CodeError(q, bits, i);
    }
  }

  // --- Which scale, and which codes -----------------------------------------------------------

  /** `code` times `scale` is a nearest multiple to v, the even one of two. */
  predicate IsNearestCode(v: real, scale: real, code: int) {
    && -(scale / 2.0) <= v - Times(scale, code as real) <= scale / 2.0
    && (Abs(v - Times(scale, code as real)) == scale / 2.0 ==> code % 2 == 0)
  }

  predicate AllZero(q: Vec) {
    forall i :: 0 <= i < |q| ==> q[i] == 0.0
  }

  /** The largest coordinate is the scale times the largest code there is; a zero query has scale one. */
  ghost predicate IsScale(q: Vec, scale: real, bits: nat)
    requires bits >= 2
  {
    if AllZero(q) then scale == 1.0
    else
      && (forall i :: 0 <= i < |q| ==> Abs(q[i]) <= Times(scale, (Pow2(bits - 1) - 1) as real))
      && exists i :: 0 <= i < |q| && Abs(q[i]) == Times(scale, (Pow2(bits - 1) - 1) as real)
  }

  /** The scale and the codes of a query. */
  ghost predicate FitsQuery(q: Vec, scale: real, codes: seq<int>, bits: nat)
    requires bits >= 2
  {
    && scale > 0.0 && IsScale(q, scale, bits) && |codes| == |q|
    && forall i :: 0 <= i < |q| ==> IsNearestCode(q[i], scale, codes[i])
  }

  lemma {:induction false} MaxAbsReached(q: Vec, n: nat)
    requires n <= |q|
    ensures if MaxAbs(q, n) == 0.0 then forall i :: 0 <= i < n ==> q[i] == 0.0
            else exists i :: 0 <= i < n && Abs(q[i]) == MaxAbs(q, n)
    decreases n
  {
    if n == 0 {
    } else {
      MaxAbsReached(q, n - 1);
      assert MaxAbs(q, n) != MaxAbs(q, n - 1) ==> Abs(q[n - 1]) == MaxAbs(q, n);
    }
  }

  lemma {:induction false} ScaleValue(q: Vec, bits: nat)
    requires bits >= 2
    ensures var scale, m := ScaleOf(q, bits), MaxAbs(q, |q|);
      if m > 0.0 then Times(scale, (Pow2(bits - 1) - 1) as real) == m else scale == 1.0
  {
    hide MaxAbs, Pow2;
    ScaleTimesQMax(MaxAbs(q, |q|), QMax(bits));
  }

  lemma {:induction false} ScaleIs(q: Vec, bits: nat)
    requires bits >= 2
    ensures IsScale(q, ScaleOf(q, bits), bits)
  {
    ScaleValue(q, bits);
    hide MaxAbs, Pow2, ScaleOf, Times;
    MaxAbsReached(q, |q|);
    if MaxAbs(q, |q|) > 0.0 {
      var i :| 0 <= i < |q| && Abs(q[i]) == MaxAbs(q, |q|);
      assert q[i] != 0.0;
    }
  }

  /** Multiplying by a positive number keeps the order. */
  lemma {:induction false} SameOrder(a: real, b: real, s: real)
    requires s > 0.0
    ensures a <= b <==> a * s <= b * s
    ensures a == b <==> a * s == b * s
  {
    SignOfFactor(b - a, s);
    SignOfFactor(a - b, s);
  }

  lemma {:induction false} TieIsHalf(v: real, scale: real, n: int)
    requires scale > 0.0 && Abs(v - Times(scale, n as real)) == scale / 2.0
    ensures v / scale - n as real == 0.5 || v / scale - n as real == -0.5
  {
    var d := v / scale - n as real;
    assert v / scale * scale == v;
    assert v - scale * n as real == d * scale;
    SameOrder(d, 0.5, scale);
    SameOrder(d, -0.5, scale);
  }

  lemma {:induction false} NearestCode(q: Vec, bits: nat, i: nat)
    requires bits >= 2 && i < |q|
    ensures IsNearestCode(q[i], ScaleOf(q, bits), QueryCodes(q, bits)[i])
  {
    CodeError(q, bits, i);
    var scale, c := ScaleOf(q, bits), QueryCodes(q, bits)[i];
    assert c == RoundHalfEven(q[i] / scale);
    hide CodesOf, CodeOf, ScaleOf, Times, QueryCodes;
    if Abs(q[i] - Times(scale, c as real)) == scale / 2.0 {
      TieIsHalf(q[i], scale, c);
    }
  }

  /** Every query is coded by its scale and its nearest codes. */
  lemma {:induction false} QueryFits(q: Vec, bits: nat)
    requires bits >= 2
    ensures FitsQuery(q, ScaleOf(q, bits), QueryCodes(q, bits), bits)
  {
    ScaleIs(q, bits);
    hide ScaleOf, QueryCodes, IsNearestCode, IsScale;
    forall i | 0 <= i < |q| ensures IsNearestCode(q[i], ScaleOf(q, bits), QueryCodes(q, bits)[i]) {
      NearestCode(q, bits, i);
    }
  }

  lemma {:induction false} CodeOfMultiple(v: real, scale: real, n: int, c: int)
    requires scale > 0.0 && v == Times(scale, n as real) && IsNearestCode(v, scale, c)
    ensures c == n
  {
    var d := (n - c) as real;
    assert v - Times(scale, c as real) == d * scale;
    SameOrder(d, 0.5, scale);
    SameOrder(-0.5, d, scale);
  }

  lemma {:induction false} TimesMinus(s: real, n: int)
    ensures Times(s, (-n) as real) == -Times(s, n as real)
  {}

  /** Unless the query is zero, the largest code of either sign is used. */
  lemma {:induction false} LargestCode(q: Vec, scale: real, codes: seq<int>, bits: nat)
    requires bits >= 2 && FitsQuery(q, scale, codes, bits) && !AllZero(q)
    ensures exists i :: 0 <= i < |q| && (codes[i] == Pow2(bits - 1) - 1 || codes[i] == -(Pow2(bits - 1) - 1))
  {
    hide Pow2, Times, IsNearestCode, AllZero;
    var most := Pow2(bits - 1) - 1;
    var i :| 0 <= i < |q| && Abs(q[i]) == Times(scale, most as real);
    assert IsNearestCode(q[i], scale, codes[i]);
    TimesMinus(scale, most);
    if q[i] >= 0.0 {
      CodeOfMultiple(q[i], scale, most, codes[i]);
    } else {
      CodeOfMultiple(q[i], scale, -most, codes[i]);
    }
  }

  /** Half a step, by the magnitude of the query: with coordinates of at most m, at most m over twice the largest
      code. */
  lemma {:induction false} HalfStep(q: Vec, scale: real, codes: seq<int>, bits: nat, m: real, i: nat)
    requires bits >= 2 && FitsQuery(q, scale, codes, bits) && i < |q|
    requires m >= 0.0 && forall j :: 0 <= j < |q| ==> Abs(q[j]) <= m
    ensures Pow2(bits - 1) >= 2
    ensures var e := m / (2 * (Pow2(bits - 1) - 1)) as real; -e <= q[i] - Times(scale, codes[i] as real) <= e
  {
    var most := Pow2(bits - 1) - 1;
    assert IsNearestCode(q[i], scale, codes[i]);
    if AllZero(q) {
      CodeOfMultiple(0.0, scale, 0, codes[i]);
      ZeroShare(m, most);
    } else {
      var j :| 0 <= j < |q| && Abs(q[j]) == Times(scale, most as real);
      HalfShare(scale, m, most);
    }
  }

  lemma {:induction false} ZeroShare(m: real, most: int)
    requires m >= 0.0 && most >= 1
    ensures m / (2 * most) as real >= 0.0
  {}

  lemma {:induction false} HalfShare(scale: real, m: real, most: int)
    requires scale > 0.0 && most >= 1 && Times(scale, most as real) <= m
    ensures scale / 2.0 <= m / (2 * most) as real
  {
    var w := (2 * most) as real;
    assert w == 2.0 * most as real;
    assert m / w * w == m;
    SameOrder(scale / 2.0, m / w, w);
  }

  /** The error of the dot product by the magnitude of the query: with n coordinates of at most m it is at most
      n m / (2 (2^(bits-1) - 1)), for every sign vector. */
  lemma {:induction false} DotErrorByMagnitude(x: Bits, q: Vec, scale: real, codes: seq<int>, bits: nat, m: real)
    requires bits >= 2 && |x| == |q| && FitsQuery(q, scale, codes, bits)
    requires m >= 0.0 && forall i :: 0 <= i < |q| ==> Abs(q[i]) <= m
    ensures Pow2(bits - 1) >= 2
    ensures var n, e := |q|, m / (2 * (Pow2(bits - 1) - 1)) as real;
      -Times(n as real, e) <= SignDot(x, q, n) - Times(scale, IntegerDot(x, codes, n) as real) <= Times(n as real, e)
  {
    assert Pow2(bits - 1) == 2 * Pow2(bits - 2);
    var n, r := |q|, IntegerQuery(codes, scale);
    var e := m / (2 * (Pow2(bits - 1) - 1)) as real;
    hide SignDot, IntegerDot, Times, FitsQuery, Pow2;
    forall i | 0 <= i < n ensures -e <= q[i] - r[i] <= e {
      HalfStep(q, scale, codes, bits, m, i);
    }
    DotError(x, q, r, e, n);
    IntegerSums(x, codes, scale, n);
  }

  /** The integer dot product, scaled back, is within n * scale / 2 of the real one. */
  lemma {:induction false} IntegerDotError(x: Bits, q: Vec, bits: nat)
    requires bits >= 2 && |x| == |q|
    ensures var n, scale := |q|, ScaleOf(q, bits);
            var exact, approx := SignDot(x, q, n), Times(scale, IntegerDot(x, CodesOf(q, scale, bits), n) as real);
            -Times(n as real, scale / 2.0) <= exact - approx <= Times(n as real, scale / 2.0)
  {
    hide CodeOf, ScaleOf, SignDot, IntegerDot, Times;
    var n, scale := |q|, ScaleOf(q, bits);
    var codes := CodesOf(q, scale, bits);
    var r := IntegerQuery(codes, scale);
    forall i | 0 <= i < n ensures -(scale / 2.0) <= q[i] - r[i] <= scale / 2.0 {
      CodeError(q, bits, i);
    }
    DotError(x, q, r, scale / 2.0, n);
    IntegerSums(x, codes, scale, n);
  }

  // --- Two's complement -----------------------------------------------------------------------

  /** `static_cast<std::uint8_t>(static_cast<std::int8_t>(code))` */
  function Encoded(code: int): (e: nat)
    ensures e < 256
  {
    code % 256
  }

  /** `(n >> p) & 1` */
  predicate BitOf(n: nat, p: nat) {
    (n / Pow2(p)) % 2 == 1
  }

  /** The number written by the `m` low bits of `n`. */
  function LowBits(n: nat, m: nat): nat {
    if m == 0 then 0 else LowBits(n, m - 1) + if BitOf(n, m - 1) then Pow2(m - 1) else 0
  }

  lemma {:induction false} SplitMod(n: nat, w: nat)
    requires w > 0
    ensures n % (2 * w) == n % w + if (n / w) % 2 == 1 then w else 0
  {
    var h, x := n / w, n % w;
    var a, b := h / 2, h % 2;
    assert n == h * w + x;
    assert h == 2 * a + b;
    MulAdd(2 * a, b, w);
    assert (2 * a) * w == a * (2 * w);
    assert 0 <= b * w + x < 2 * w by {
      if b == 0 {} else { assert b == 1; }
    }
    DivModUnique(a, b * w + x, 2 * w);
  }

  lemma {:induction false} LowBitsIsMod(n: nat, m: nat)
    ensures LowBits(n, m) == n % Pow2(m)
    decreases m
  {
    if m == 0 {
    } else {
      LowBitsIsMod(n, m - 1);
      SplitMod(n, Pow2(m - 1));
    }
  }

  /** The weight of plane `p`: the top plane counts negative. */
  function Weight(bits: nat, p: nat): int {
    var w: int := Pow2(p);
    if p + 1 == bits then -w else w
  }

  /** The sum of the weighted bits of `code` over the planes below `p`. */
  function Partial(bits: nat, code: int, p: nat): int
    decreases p
  {
    if p == 0 then 0 else Partial(bits, code, p - 1) + if BitOf(Encoded(code), p - 1) then Weight(bits, p - 1) else 0
  }

  lemma {:induction false} PartialLow(bits: nat, code: int, p: nat)
    requires p < bits
    ensures Partial(bits, code, p) == LowBits(Encoded(code), p)
    decreases p
  {
    if p == 0 {
    } else {
      PartialLow(bits, code, p - 1);
    }
  }

  lemma {:induction false} WrapNegative(code: int, w: nat, k: nat)
    requires k * w == 256 && 0 <= code + w && code < 0
    ensures 0 <= code + 256 < 256 && (code % 256) % w == code + w
  {
    if k == 0 {
    } else {
      MulAdd(k - 1, 1, w);
      MulNonneg(k - 1, w);
      DivModUnique(k - 1, code + w, w);
      assert code % 256 == code + 256;
    }
  }

  lemma {:induction false} EncodedMod(bits: nat, code: int)
    requires 2 <= bits <= 8 && -QMax(bits) <= code <= QMax(bits)
    ensures Encoded(code) % Pow2(bits) == if code >= 0 then code else code + Pow2(bits)
  {
    var w, k := Pow2(bits), Pow2(8 - bits);
    assert w == 2 * Pow2(bits - 1);
    Pow2Eight();
    Pow2Add(8 - bits, bits);
    hide Pow2;
    if code < 0 {
      WrapNegative(code, w, k);
    } else {
      DivModUnique(0, code, w);
    }
  }

  lemma {:induction false} Pow2Eight()
    ensures Pow2(8) == 256
  {
    assert Pow2(2) == 4;
    assert Pow2(4) == 16;
    assert Pow2(6) == 64;
  }

  /** The bit planes read with a negative top plane give the code back. */
  lemma {:induction false} PlanesDecode(bits: nat, code: int)
    requires 2 <= bits <= 8 && -QMax(bits) <= code <= QMax(bits)
    ensures Partial(bits, code, bits) == code
  {
    EncodedMod(bits, code);
    PartialLow(bits, code, bits - 1);
    LowBitsIsMod(Encoded(code), bits - 1);
    SplitMod(Encoded(code), Pow2(bits - 1));
  }

  lemma {:induction false} PartialBound(bits: nat, code: int, p: nat)
    requires 2 <= bits <= 8 && -QMax(bits) <= code <= QMax(bits) && p <= bits
    ensures -QMax(bits) <= Partial(bits, code, p) <= QMax(bits)
  {
    PlanesDecode(bits, code);
    if p < bits {
      PartialLow(bits, code, p);
      LowBitsIsMod(Encoded(code), p);
      Pow2Monotone(p, bits - 1);
    }
  }
}
