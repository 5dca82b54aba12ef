/** Writing bit planes: `make_integer_query`, the one-bit part of `prepare_query`, and
    `decode_query_code` reading them back. */
module BitPlanes {
  import opened Arith
  import opened Words
  import opened Vectors
  import opened Signs
  import opened Database
  import opened Hadamard
  import opened QueryCodec
  import opened Rounding

  /** Every word of a plane holds its 64 bits of `x` as far as coordinate `upto`, and zeros after. */
  ghost predicate Filled(plane: seq<bv64>, x: Bits, upto: nat)
    requires |x| == 64 * |plane|
  {
    forall w, j {:trigger Bit(plane[w], j)} :: 0 <= w < |plane| && 0 <= j < 64 ==>
      Bit(plane[w], j) == (64 * w + j < upto && x[64 * w + j])
  }

  /** The whole plane holds the bit vector `x`. */
  ghost predicate PlaneHolds(plane: seq<bv64>, x: Bits) {
    |x| == 64 * |plane| && Filled(plane, x, |x|)
  }

  lemma {:induction false} FilledZero(plane: seq<bv64>, x: Bits)
    requires |x| == 64 * |plane| && forall w :: 0 <= w < |plane| ==> plane[w] == 0
    ensures Filled(plane, x, 0)
  {
    hide Bit;
    forall w, j {:trigger Bit(plane[w], j)} | 0 <= w < |plane| && 0 <= j < 64 ensures !Bit(plane[w], j) {
      ZeroBit(j);
    }
  }

  /** Setting bit i extends the filled part past a true coordinate. */
  lemma {:induction false} FillTrue(plane: seq<bv64>, x: Bits, i: nat, word: bv64, after: seq<bv64>)
    requires |x| == 64 * |plane| && i < |x| && Filled(plane, x, i) && x[i]
    requires IsOr(plane[i / 64], One(i % 64), word) && after == plane[i / 64 := word]
    ensures Filled(after, x, i + 1)
  {
    var v, b := i / 64, i % 64;
    hide Bit, One, IsOr;
    forall w, j {:trigger Bit(after[w], j)} | 0 <= w < |after| && 0 <= j < 64
      ensures Bit(after[w], j) == (64 * w + j < i + 1 && x[64 * w + j])
    {
      assert Bit(plane[w], j) == (64 * w + j < i && x[64 * w + j]);
      if w == v {
        SetBit(plane[v], b, after[v], j);
      }
    }
  }

  lemma {:induction false} FillFalse(plane: seq<bv64>, x: Bits, i: nat)
    requires |x| == 64 * |plane| && i < |x| && Filled(plane, x, i) && !x[i]
    ensures Filled(plane, x, i + 1)
  {
    hide Bit;
  }

  // --- One-bit query ------------------------------------------------------------------------

  function AbsSum(q: Vec, n: nat): real
    requires n <= |q|
    decreases n
  {
    if n == 0 then 0.0 else AbsSum(q, n - 1) + Abs(q[n - 1])
  }

  /** The bit of one coordinate. */
  method SetSign(b1: array<bv64>, q: Vec, i: nat)
    requires |q| == 64 * b1.Length && i < |q| && Filled(b1[..], SignBits(q), i)
    modifies b1
    ensures Filled(b1[..], SignBits(q), i + 1)
  {
    hide Filled, One, OrWord, IsOr;
    ghost var before := b1[..];
    if q[i] > 0.0 {
      var word := OrWord(b1[i / 64], One(i % 64));
      b1[i / 64] := word;
      FillTrue(before, SignBits(q), i, word, b1[..]);
    } else {
      FillFalse(before, SignBits(q), i);
    }
  }

  /** The loop over the coordinates. */
  method SetSigns(b1: array<bv64>, q: Vec) returns (absSum: real)
    requires |q| == 64 * b1.Length && Filled(b1[..], SignBits(q), 0)
    modifies b1
    ensures PlaneHolds(b1[..], SignBits(q)) && absSum == AbsSum(q, |q|)
  {
    hide Filled, SignBits, Abs;
    absSum := 0.0;
    var i := 0;
    while i < |q|
      invariant i <= |q| && Filled(b1[..], SignBits(q), i) && absSum == AbsSum(q, i)
    {
      SetSign(b1, q, i);
      absSum := absSum + Abs(q[i]);
      i := i + 1;
    }
    FilledAll(b1[..], SignBits(q));
  }

  lemma {:induction false} FilledAll(plane: seq<bv64>, x: Bits)
    requires |x| == 64 * |plane| && Filled(plane, x, |x|)
    ensures PlaneHolds(plane, x)
  {
    hide Bit;
  }

  /** The one-bit part of `prepare_query`. */
  method MakeOneBitQuery(q: Vec, words: nat) returns (b1: array<bv64>, scale: real, constant: real)
    requires |q| == 64 * words > 0
    ensures fresh(b1) && PlaneHolds(b1[..], SignBits(q))
    ensures scale == AbsSum(q, |q|) / |q| as real
    ensures constant == |q| as real * (1.0 + scale * scale)
  {
    hide Filled, PlaneHolds, SignBits, AbsSum;
    b1 := new bv64[words](_ => 0);
    FilledZero(b1[..], SignBits(q));
    var absSum := SetSigns(b1, q);
    scale := absSum / |q| as real;
    constant := |q| as real * (1.0 + scale * scale);
  }

  // --- Integer query ------------------------------------------------------------------------

  /** The bit vector that plane `p` holds. */
  function PlaneBits(codes: seq<int>, p: nat): (x: Bits)
    ensures |x| == |codes|
    ensures forall i :: 0 <= i < |x| ==> x[i] == BitOf(Encoded(codes[i]), p)
    decreases |codes|
  {
    if codes == [] then [] else [BitOf(Encoded(codes[0]), p)] + PlaneBits(codes[1..], p)
  }

  /** Where plane `p` starts. */
  function Base(words: nat, p: nat): nat {
    p * words
  }

  lemma {:induction false} BaseFits(words: nat, bits: nat, p: nat)
    requires p < bits
    ensures Base(words, p) + words <= Base(words, bits)
  {
    MulLess(p, bits, words);
  }

  function Plane(planes: seq<bv64>, words: nat, p: nat): (plane: seq<bv64>)
    requires Base(words, p) + words <= |planes|
    ensures |plane| == words
  {
    planes[Base(words, p)..Base(words, p) + words]
  }

  /** Plane `p` is filled as far as coordinate `upto`. */
  ghost predicate PlaneFilled(planes: seq<bv64>, words: nat, codes: seq<int>, p: nat, upto: nat)
    requires |codes| == 64 * words
  {
    && Base(words, p) + words <= |planes|
    && Filled(Plane(planes, words, p), PlaneBits(codes, p), upto)
  }

  /** All the planes hold the codes. */
  ghost predicate PlanesHold(planes: seq<bv64>, words: nat, bits: nat, codes: seq<int>) {
    && 2 <= bits <= 8 && |planes| == Base(words, bits) && |codes| == 64 * words && CodesInRange(codes, bits)
    && forall p :: 0 <= p < bits ==> PlaneFilled(planes, words, codes, p, |codes|)
  }

  /** Planes below `p` are filled as far as coordinate i, the rest as far as i - 1. */
  ghost predicate Filling(planes: seq<bv64>, words: nat, bits: nat, codes: seq<int>, i: nat, p: nat)
    requires |codes| == 64 * words
  {
    var next := i + 1;
    && |planes| == Base(words, bits)
    && (forall p' :: 0 <= p' < p && p' < bits ==> PlaneFilled(planes, words, codes, p', next))
    && (forall p' :: p <= p' < bits ==> PlaneFilled(planes, words, codes, p', i))
  }

  lemma {:induction false} PlaneUpdate(planes: seq<bv64>, words: nat, p: nat, w: nat, v: bv64, after: seq<bv64>)
    requires w < words && Base(words, p) + words <= |planes| && after == planes[Base(words, p) + w := v]
    ensures Plane(after, words, p) == Plane(planes, words, p)[w := v]
    ensures forall p' :: 0 <= p' && p' != p && Base(words, p') + words <= |planes| ==>
      Plane(after, words, p') == Plane(planes, words, p')
  {
    forall p' | 0 <= p' && p' != p && Base(words, p') + words <= |planes|
      ensures Plane(after, words, p') == Plane(planes, words, p')
    {
      if p' < p {
        BaseFits(words, p, p');
      } else {
        BaseFits(words, p', p);
      }
    }
  }

  lemma {:induction false} FillingStart(planes: seq<bv64>, words: nat, bits: nat, codes: seq<int>)
    requires |codes| == 64 * words
    requires |planes| == Base(words, bits) && forall k :: 0 <= k < |planes| ==> planes[k] == 0
    ensures Filling(planes, words, bits, codes, 0, 0)
  {
    hide Base, Filled, PlaneBits;
    forall p | 0 <= p < bits ensures PlaneFilled(planes, words, codes, p, 0) {
      BaseFits(words, bits, p);
      FilledZero(Plane(planes, words, p), PlaneBits(codes, p));
    }
  }

  lemma {:induction false} FillingStep(before: seq<bv64>, after: seq<bv64>, words: nat, bits: nat, codes: seq<int>,
                                       i: nat, p: nat, word: bv64)
    requires |codes| == 64 * words && i < |codes| && p < bits
    requires Filling(before, words, bits, codes, i, p) && Base(words, p) + i / 64 < |before|
    requires var k := Base(words, p) + i / 64;
             if PlaneBits(codes, p)[i] then IsOr(before[k], One(i % 64), word) && after == before[k := word]
             else after == before
    ensures Filling(after, words, bits, codes, i, p + 1)
  {
    hide Base, Filled, PlaneBits, One, IsOr;
    assert PlaneFilled(before, words, codes, p, i);
    PlaneFillStep(before, after, words, codes, i, p, word);
    hide Plane;
    var next := i + 1;
    forall p' | 0 <= p' < p ensures PlaneFilled(after, words, codes, p', next) {
      assert PlaneFilled(before, words, codes, p', next);
    }
    forall p' | p < p' < bits ensures PlaneFilled(after, words, codes, p', i) {
      assert PlaneFilled(before, words, codes, p', i);
    }
  }

  lemma {:induction false} PlaneFillStep(before: seq<bv64>, after: seq<bv64>, words: nat, codes: seq<int>,
                                         i: nat, p: nat, word: bv64)
    requires |codes| == 64 * words && i < |codes|
    requires PlaneFilled(before, words, codes, p, i)
    requires var k := Base(words, p) + i / 64;
             if PlaneBits(codes, p)[i] then IsOr(before[k], One(i % 64), word) && after == before[k := word]
             else after == before
    ensures |after| == |before| && PlaneFilled(after, words, codes, p, i + 1)
    ensures forall p' :: 0 <= p' && p' != p && Base(words, p') + words <= |before| ==>
      Plane(after, words, p') == Plane(before, words, p')
  {
    hide Base, Filled, PlaneBits, One, IsOr;
    var x, plane, w := PlaneBits(codes, p), Plane(before, words, p), i / 64;
    if x[i] {
      PlaneUpdate(before, words, p, w, word, after);
      assert plane[w] == before[Base(words, p) + w];
      FillTrue(plane, x, i, word, Plane(after, words, p));
    } else {
      FillFalse(plane, x, i);
    }
  }

  lemma {:induction false} FillingNext(planes: seq<bv64>, words: nat, bits: nat, codes: seq<int>, i: nat)
    requires |codes| == 64 * words
    requires Filling(planes, words, bits, codes, i, bits)
    ensures Filling(planes, words, bits, codes, i + 1, 0)
  {
    hide PlaneFilled, Base;
  }

  lemma {:induction false} FillingDone(planes: seq<bv64>, words: nat, bits: nat, codes: seq<int>)
    requires 2 <= bits <= 8 && |codes| == 64 * words && CodesInRange(codes, bits)
    requires Filling(planes, words, bits, codes, |codes|, 0)
    ensures PlanesHold(planes, words, bits, codes)
  {
    hide PlaneFilled, Base;
  }

  function OrWord(a: bv64, b: bv64): (c: bv64)
    ensures IsOr(a, b, c)
  {
    a | b
  }

  /** The loop over the planes of one code. */
  method WriteCode(planes: array<bv64>, words: nat, bits: nat, i: nat, code: int, ghost codes: seq<int>)
    requires |codes| == 64 * words
    requires i < |codes| && codes[i] == code && planes.Length == Base(words, bits)
    requires Filling(planes[..], words, bits, codes, i, 0)
    modifies planes
    ensures Filling(planes[..], words, bits, codes, i + 1, 0)
  {
    var encoded := Encoded(code);
    hide Base, Filling, One, Encoded, BitOf, QMax, Pow2, IsOr, OrWord;
    var p := 0;
    while p < bits
      invariant p <= bits && planes.Length == Base(words, bits)
      invariant Filling(planes[..], words, bits, codes, i, p)
    {
      BaseFits(words, bits, p);
      ghost var before := planes[..];
      var k := Base(words, p) + i / 64;
      var word := OrWord(planes[k], One(i % 64));
      if BitOf(encoded, p) {
        planes[k] := word;
      }
      FillingStep(before, planes[..], words, bits, codes, i, p, word);
      p := p + 1;
    }
    FillingNext(planes[..], words, bits, codes, i);
  }

  /** The first loop of `make_integer_query`. */
  method FindMaxAbs(q: Vec) returns (maxAbs: real)
    ensures maxAbs == MaxAbs(q, |q|)
  {
    maxAbs := 0.0;
    var i := 0;
    while i < |q|
      invariant i <= |q| && maxAbs == MaxAbs(q, i)
    {
      maxAbs := if maxAbs < Abs(q[i]) then Abs(q[i]) else maxAbs;
      i := i + 1;
    }
  }

  /** The second loop: sums of the codes, and their planes. */
  method WriteCodes(q: Vec, words: nat, bits: nat, scale: real, planes: array<bv64>)
    returns (codeSum: int, codeNorm2: int)
    requires |q| == 64 * words && 2 <= bits <= 8 && scale == ScaleOf(q, bits)
    requires planes.Length == Base(words, bits) && forall k :: 0 <= k < planes.Length ==> planes[k] == 0
    modifies planes
    ensures var codes := CodesOf(q, scale, bits);
            && PlanesHold(planes[..], words, bits, codes)
            && codeSum == CodeSum(codes, |q|) && codeNorm2 == CodeNorm2(codes, |q|)
  {
    ghost var codes := CodesOf(q, scale, bits);
    CodesOfInRange(q, bits);
    codeSum, codeNorm2 := 0, 0;
    FillingStart(planes[..], words, bits, codes);
    hide Base, Filling, CodesOf, ScaleOf, PlanesHold, RoundHalfEven, Clamp;
    var i := 0;
    while i < |q|
      invariant i <= |q|
      invariant Filling(planes[..], words, bits, codes, i, 0)
      invariant codeSum == CodeSum(codes, i) && codeNorm2 == CodeNorm2(codes, i)
    {
      var code := Clamp(RoundHalfEven(q[i] / scale), QMax(bits));
      codeSum := codeSum + code;
      codeNorm2 := codeNorm2 + code * code;
      WriteCode(planes, words, bits, i, code, codes);
      i := i + 1;
    }
    FillingDone(planes[..], words, bits, codes);
  }

  /** A query in integer codes, as a scan needs it: bit planes, the sum of the codes, and the constant. */
  ghost predicate IsCode(planes: seq<bv64>, scale: real, constant: real, codeSum: int, codes: seq<int>, words: nat,
                         bits: nat)
    requires bits >= 2
  {
    && PlanesHold(planes, words, bits, codes) && codeSum == CodeSum(codes, |codes|)
    && constant == |codes| as real + Times(scale * scale, CodeNorm2(codes, |codes|) as real)
  }

  lemma {:induction false} CodeIs(planes: seq<bv64>, scale: real, constant: real, codeSum: int, codes: seq<int>,
                                  words: nat, bits: nat)
    requires bits >= 2 && PlanesHold(planes, words, bits, codes) && codeSum == CodeSum(codes, |codes|)
    requires constant == |codes| as real + Times(scale * scale, CodeNorm2(codes, |codes|) as real)
    ensures IsCode(planes, scale, constant, codeSum, codes, words, bits)
  {}

  lemma {:induction false} QueryCodesAre(q: Vec, bits: nat)
    requires bits >= 2
    ensures QueryCodes(q, bits) == CodesOf(q, ScaleOf(q, bits), bits)
  {}

  /** `make_integer_query` */
  method MakeIntegerQuery(q: Vec, words: nat, bits: nat)
    returns (planes: array<bv64>, scale: real, constant: real, codeSum: int)
    requires |q| == 64 * words && 2 <= bits <= 8
    ensures fresh(planes) && scale == ScaleOf(q, bits)
    ensures FitsQuery(q, scale, QueryCodes(q, bits), bits)
    ensures IsCode(planes[..], scale, constant, codeSum, QueryCodes(q, bits), words, bits)
  {
    QueryCodesAre(q, bits);
    QueryFits(q, bits);
    hide FitsQuery, Base, CodesOf, QueryCodes, PlanesHold, Times, MaxAbs, IsCode, CodeSum, CodeNorm2;
    var maxAbs := FindMaxAbs(q);
    scale := if maxAbs > 0.0 then maxAbs / QMax(bits) as real else 1.0;
    planes := new bv64[Base(words, bits)](_ => 0);
    var codeNorm2;
    codeSum, codeNorm2 := WriteCodes(q, words, bits, scale, planes);
    constant := |q| as real + Times(scale * scale, codeNorm2 as real);
    CodeIs(planes[..], scale, constant, codeSum, QueryCodes(q, bits), words, bits);
  }

  /** `decode_query_code`: gather the bits of one coordinate, then extend the sign. */
  method DecodeQueryCode(planes: seq<bv64>, words: nat, bits: nat, dim: nat, ghost codes: seq<int>) returns (code: int)
    requires PlanesHold(planes, words, bits, codes) && dim < |codes|
    ensures code == codes[dim]
  {
    ghost var e := codes[dim];
    assert 2 <= bits <= 8 && -QMax(bits) <= e <= QMax(bits);
    EncodedMod(bits, e);
    hide Base, PlanesHold, Bit, BitOf, Encoded;
    var value: nat := 0;
    var p := 0;
    while p < bits
      invariant p <= bits
      invariant value == LowBits(Encoded(e), p)
    {
      ReadBit(planes, words, bits, codes, p, dim);
      if Bit(planes[Base(words, p) + dim / 64], dim % 64) {
        value := value + Pow2(p);
      }
      p := p + 1;
    }
    LowBitsIsMod(Encoded(e), bits);
    code := if value >= Pow2(bits - 1) then value - Pow2(bits) else value;
  }

  /** What `(planes[p * kWords + dim / 64] >> (dim % 64)) & 1` reads. */
  lemma {:induction false} ReadBit(planes: seq<bv64>, words: nat, bits: nat, codes: seq<int>, p: nat, dim: nat)
    requires PlanesHold(planes, words, bits, codes) && p < bits && dim < |codes|
    ensures Base(words, p) + dim / 64 < |planes| 
    ensures Bit(planes[Base(words, p) + dim / 64], dim % 64) == BitOf(Encoded(codes[dim]), p)
  {
    hide Base, Bit, PlaneBits;
    BaseFits(words, bits, p);
    var plane := Plane(planes, words, p);
    assert PlaneFilled(planes, words, codes, p, |codes|);
    assert plane[dim / 64] == planes[Base(words, p) + dim / 64];
    assert Bit(plane[dim / 64], dim % 64) == PlaneBits(codes, p)[64 * (dim / 64) + dim % 64];
  }
}
