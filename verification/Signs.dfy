/** What a scan computes: the squared distance from a +1/-1 vector, held as bits, to a query,
    and the three cheaper expressions the kernels evaluate instead. */
module Signs {
  import opened Vectors

  type Bits = seq<bool>

  function Sgn(b: bool): real {
    if b then 1.0 else -1.0
  }

  /** The plain meaning of every scan: sum over i < n of (sign_i - q_i)^2. */
  function Distance(x: Bits, q: Vec, n: nat): real
    requires n <= |x| && n <= |q|
    decreases n
  {
    if n == 0 then 0.0
    else Distance(x, q, n - 1) + Times(Sgn(x[n - 1]) - q[n - 1], Sgn(x[n - 1]) - q[n - 1])
  }

  function SignDot(x: Bits, q: Vec, n: nat): real
    requires n <= |x| && n <= |q|
    decreases n
  {
    if n == 0 then 0.0 else SignDot(x, q, n - 1) + if x[n - 1] then q[n - 1] else -q[n - 1]
  }

  /** The sum of the query over the set bits. */
  function Selected(x: Bits, q: Vec, n: nat): real
    requires n <= |x| && n <= |q|
    decreases n
  {
    if n == 0 then 0.0 else Selected(x, q, n - 1) + if x[n - 1] then q[n - 1] else 0.0
  }

  function SumOf(q: Vec, n: nat): real
    requires n <= |q|
    decreases n
  {
    if n == 0 then 0.0 else SumOf(q, n - 1) + q[n - 1]
  }

  function Norm2(q: Vec, n: nat): real
    requires n <= |q|
    decreases n
  {
    if n == 0 then 0.0 else Norm2(q, n - 1) + Times(q[n - 1], q[n - 1])
  }

  lemma {:induction false} SquareExpand(b: bool, v: real)
    ensures Times(Sgn(b) - v, Sgn(b) - v) == 1.0 + Times(v, v) - 2.0 * (if b then v else -v)
  {}

  lemma {:induction false} DistanceByDot(x: Bits, q: Vec, n: nat)
    requires n <= |x| && n <= |q|
    ensures Distance(x, q, n) == n as real + Norm2(q, n) - 2.0 * SignDot(x, q, n)
    decreases n
  {
    if n == 0 {
    } else {
      SquareExpand(x[n - 1], q[n - 1]);
      hide Times;
      DistanceByDot(x, q, n - 1);
    }
  }

  lemma {:induction false} DotBySelected(x: Bits, q: Vec, n: nat)
    requires n <= |x| && n <= |q|
    ensures SignDot(x, q, n) == 2.0 * Selected(x, q, n) - SumOf(q, n)
    decreases n
  {
    if n == 0 {
    } else {
      DotBySelected(x, q, n - 1);
    }
  }

  // --- One-bit queries --------------------------------------------------------------------

  /** The query a one-bit code stands for: every coordinate is plus or minus `s`. */
  function OneBitQuery(y: Bits, s: real): (q: Vec)
    ensures |q| == |y| && forall i :: 0 <= i < |q| ==> q[i] == if y[i] then s else -s
    decreases |y|
  {
    if y == [] then [] else [if y[0] then s else -s] + OneBitQuery(y[1..], s)
  }

  function Mismatches(x: Bits, y: Bits, n: nat): nat
    requires n <= |x| && n <= |y|
    decreases n
  {
    if n == 0 then 0 else Mismatches(x, y, n - 1) + if x[n - 1] != y[n - 1] then 1 else 0
  }

  lemma {:induction false} OneBitStep(s: real, t: real)
    ensures Times(s, t + 1.0) == Times(s, t) + s && Times(s, t - 1.0) == Times(s, t) - s
    ensures Times(t + 1.0, Times(s, s)) == Times(t, Times(s, s)) + Times(s, s)
    ensures Times(-s, -s) == Times(s, s)
  {}

  /** One coordinate more. */
  lemma {:induction false} OneBitNext(x: Bits, y: Bits, s: real, n: nat)
    requires 0 < n <= |x| && n <= |y|
    ensures var q, more := OneBitQuery(y, s), if x[n - 1] == y[n - 1] then s else -s;
      && SignDot(x, q, n) == SignDot(x, q, n - 1) + more
      && Norm2(q, n) == Norm2(q, n - 1) + Times(s, s)
      && Mismatches(x, y, n) == Mismatches(x, y, n - 1) + if x[n - 1] == y[n - 1] then 0 else 1
  {
    var q := OneBitQuery(y, s);
    assert q[n - 1] == if y[n - 1] then s else -s;
    OneBitStep(s, 0.0);
    hide OneBitQuery, Times;
    assert Times(q[n - 1], q[n - 1]) == Times(s, s);
  }

  lemma {:induction false} OneBitSums(x: Bits, y: Bits, s: real, n: nat)
    requires n <= |x| && n <= |y|
    ensures SignDot(x, OneBitQuery(y, s), n) == Times(s, n as real - 2.0 * Mismatches(x, y, n) as real)
    ensures Norm2(OneBitQuery(y, s), n) == Times(n as real, Times(s, s))
    decreases n
  {
    if n == 0 {
      assert Times(s, 0.0) == 0.0 && Times(0.0, Times(s, s)) == 0.0;
    } else {
      hide OneBitQuery, Times, SignDot, Norm2, Mismatches;
      var t := (n - 1) as real - 2.0 * Mismatches(x, y, n - 1) as real;
      OneBitSums(x, y, s, n - 1);
      OneBitNext(x, y, s, n);
      OneBitStep(s, t);
      OneBitStep(s, (n - 1) as real);
      assert n as real - 2.0 * Mismatches(x, y, n) as real == if x[n - 1] == y[n - 1] then t + 1.0 else t - 1.0;
      assert n as real == (n - 1) as real + 1.0;
    }
  }

  /** The scan's one-bit formula. */
  lemma {:induction false} OneBitDistance(x: Bits, y: Bits, s: real, n: nat)
    requires n <= |x| && n <= |y|
    ensures var signedDot := n as real - 2.0 * Mismatches(x, y, n) as real;
            Distance(x, OneBitQuery(y, s), n) == n as real * (1.0 + s * s) - 2.0 * s * signedDot
  {
    hide Distance, OneBitQuery, Norm2, SignDot, Mismatches;
    DistanceByDot(x, OneBitQuery(y, s), n);
    OneBitSums(x, y, s, n);
  }

  // --- Integer queries ----------------------------------------------------------------------

  function IntegerQuery(codes: seq<int>, scale: real): (q: Vec)
    ensures |q| == |codes| && forall i :: 0 <= i < |q| ==> q[i] == Times(scale, codes[i] as real)
    decreases |codes|
  {
    if codes == [] then [] else [Times(scale, codes[0] as real)] + IntegerQuery(codes[1..], scale)
  }

  function SelectedCodes(x: Bits, codes: seq<int>, n: nat): int
    requires n <= |x| && n <= |codes|
    decreases n
  {
    if n == 0 then 0 else SelectedCodes(x, codes, n - 1) + if x[n - 1] then codes[n - 1] else 0
  }

  function CodeSum(codes: seq<int>, n: nat): int
    requires n <= |codes|
    decreases n
  {
    if n == 0 then 0 else CodeSum(codes, n - 1) + codes[n - 1]
  }

  function CodeNorm2(codes: seq<int>, n: nat): int
    requires n <= |codes|
    decreases n
  {
    if n == 0 then 0 else CodeNorm2(codes, n - 1) + codes[n - 1] * codes[n - 1]
  }

  function IntegerDot(x: Bits, codes: seq<int>, n: nat): int
    requires n <= |x| && n <= |codes|
  {
    2 * SelectedCodes(x, codes, n) - CodeSum(codes, n)
  }

  lemma {:induction false} ScaledStep(scale: real, d: int, c: int)
    ensures Times(scale, (d + c) as real) == Times(scale, d as real) + Times(scale, c as real)
    ensures Times(scale, (d - c) as real) == Times(scale, d as real) - Times(scale, c as real)
  {}

  lemma {:induction false} ScaledSquare(scale: real, n: int, c: int)
    ensures Times(scale * scale, (n + c * c) as real)
         == Times(scale * scale, n as real) + Times(Times(scale, c as real), Times(scale, c as real))
  {
    assert (c * c) as real == c as real * c as real;
    assert (scale * scale) * (n as real + c as real * c as real)
        == (scale * scale) * n as real + (scale * c as real) * (scale * c as real);
  }

  lemma {:induction false} IntegerSums(x: Bits, codes: seq<int>, scale: real, n: nat)
    requires n <= |x| && n <= |codes|
    ensures SignDot(x, IntegerQuery(codes, scale), n) == Times(scale, IntegerDot(x, codes, n) as real)
    ensures Norm2(IntegerQuery(codes, scale), n) == Times(scale * scale, CodeNorm2(codes, n) as real)
    decreases n
  {
    hide IntegerQuery;
    if n == 0 {
    } else {
      IntegerSums(x, codes, scale, n - 1);
      var d, c := IntegerDot(x, codes, n - 1), codes[n - 1];
      assert IntegerDot(x, codes, n) == if x[n - 1] then d + c else d - c;
      ScaledStep(scale, d, c);
      ScaledSquare(scale, CodeNorm2(codes, n - 1), c);
    }
  }

  /** The scan's integer formula. */
  lemma {:induction false} IntegerDistance(x: Bits, codes: seq<int>, scale: real, n: nat)
    requires n <= |x| && n <= |codes|
    ensures Distance(x, IntegerQuery(codes, scale), n)
         == n as real + Times(scale * scale, CodeNorm2(codes, n) as real)
          - 2.0 * Times(scale, IntegerDot(x, codes, n) as real)
  {
    hide Distance, IntegerQuery, Norm2, SignDot, Times;
    DistanceByDot(x, IntegerQuery(codes, scale), n);
    IntegerSums(x, codes, scale, n);
  }

  // --- Error of a rounded query ---------------------------------------------------------------

  lemma {:induction false} OneMore(n: nat, e: real)
    requires n > 0
    ensures Times(n as real, e) == Times((n - 1) as real, e) + e
  {}

  /** If every coordinate is off by at most `e`, every signed dot product is off by at most n * e. */
  lemma {:induction false} DotError(x: Bits, q: Vec, r: Vec, e: real, n: nat)
    requires n <= |x| && n <= |q| == |r|
    requires forall i :: 0 <= i < |q| ==> -e <= q[i] - r[i] <= e
    ensures -Times(n as real, e) <= SignDot(x, q, n) - SignDot(x, r, n) <= Times(n as real, e)
    decreases n
  {
    if n == 0 {
    } else {
      DotError(x, q, r, e, n - 1);
      OneMore(n, e);
      hide Times;
    }
  }
}
