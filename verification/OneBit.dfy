/** Why the one-bit query is its signs and its mean magnitude: no other signs and scale are nearer to the query. */
module OneBit {
  import opened Arith
  import opened Vectors
  import opened Signs
  import opened Database
  import opened BitPlanes

  /** The squared distance of two vectors over their first n coordinates. */
  function Gap(q: Vec, r: Vec, n: nat): real
    requires n <= |q| && n <= |r|
    decreases n
  {
    if n == 0 then 0.0 else Gap(q, r, n - 1) + Times(q[n - 1] - r[n - 1], q[n - 1] - r[n - 1])
  }

  lemma {:induction false} GapStep(v: real, s: real, b: bool)
    ensures var r := if b then s else -s;
      Times(v - r, v - r) == Times(v, v) - 2.0 * Times(s, if b then v else -v) + Times(s, s)
  {}

  lemma {:induction false} Split(s: real, a: real, b: real)
    ensures Times(s, a + b) == Times(s, a) + Times(s, b) && Times(s, 0.0) == 0.0
  {}

  lemma {:induction false} OneShareMore(n: nat, u: real)
    requires n > 0
    ensures Times(n as real, u) == Times((n - 1) as real, u) + u && Times(0.0, u) == 0.0
  {}

  lemma {:induction false} GapOneBit(q: Vec, y: Bits, s: real, n: nat)
    requires n <= |q| && n <= |y|
    ensures Gap(q, OneBitQuery(y, s), n)
      == Norm2(q, n) - 2.0 * Times(s, SignDot(y, q, n)) + Times(n as real, Times(s, s))
    decreases n
  {
    hide OneBitQuery, Times;
    Split(s, 0.0, 0.0);
    if n == 0 {
      OneShareMore(1, Times(s, s));
    } else {
      GapOneBit(q, y, s, n - 1);
      GapStep(q[n - 1], s, y[n - 1]);
      Split(s, SignDot(y, q, n - 1), if y[n - 1] then q[n - 1] else -q[n - 1]);
      OneShareMore(n, Times(s, s));
    }
  }

  /** No signs agree with the query more than its own. */
  lemma {:induction false} SignDotMost(x: Bits, q: Vec, n: nat)
    requires n <= |x| && n <= |q|
    ensures -AbsSum(q, n) <= SignDot(x, q, n) <= AbsSum(q, n)
    ensures SignDot(SignBits(q), q, n) == AbsSum(q, n)
    decreases n
  {
    hide SignBits;
    if n == 0 {
    } else {
      SignDotMost(x, q, n - 1);
    }
  }

  lemma {:induction false} GapSquare(n: real, u: real, s: real)
    requires n > 0.0
    ensures Times(n, Times(u, u)) - 2.0 * Times(u, s * n) + Times(n, Times(s, s)) >= 0.0
  {
    var d := u - s;
    assert d * d == u * u - 2.0 * (u * s) + s * s;
    assert n * (d * d) == n * (u * u) - 2.0 * (u * (s * n)) + n * (s * s);
    assert d * d >= 0.0;
    assert n * (d * d) >= 0.0;
  }

  lemma {:induction false} ShareBound(a: real, d: real, t: real)
    requires -a <= d <= a
    ensures Times(t, d) <= Times(Abs(t), a) && Times(t, t) == Times(Abs(t), Abs(t))
  {
    if t < 0.0 {
      assert (-t) * (a + d) >= 0.0;
    } else {
      assert t * (a - d) >= 0.0;
    }
  }

  lemma {:induction false} BestScale(a: real, d: real, t: real, n: real)
    requires n > 0.0 && -a <= d <= a
    ensures var s := a / n;
      -2.0 * Times(s, a) + Times(n, Times(s, s)) <= -2.0 * Times(t, d) + Times(n, Times(t, t))
  {
    var s := a / n;
    assert a == s * n;
    assert Times(s, a) == Times(n, Times(s, s));
    GapSquare(n, Abs(t), s);
    ShareBound(a, d, t);
    hide Times;
  }

  /** The one-bit query is a nearest one. */
  lemma {:induction false} NearestOneBit(q: Vec, y: Bits, t: real)
    requires |q| == |y| > 0
    ensures var n, s := |q|, AbsSum(q, |q|) / |q| as real;
      Gap(q, OneBitQuery(SignBits(q), s), n) <= Gap(q, OneBitQuery(y, t), n)
  {
    var n, s := |q|, AbsSum(q, |q|) / |q| as real;
    GapOneBit(q, SignBits(q), s, n);
    GapOneBit(q, y, t, n);
    SignDotMost(y, q, n);
    hide Gap, OneBitQuery, SignBits, AbsSum, SignDot, Norm2, Times;
    BestScale(AbsSum(q, n), SignDot(y, q, n), t, n as real);
  }
}
