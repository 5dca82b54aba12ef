/** Facts about products that the layouts need, and absolute values. */
module Arith {

  function Abs(r: real): real {
    if r < 0.0 then -r else r
  }

  lemma {:induction false} MulAdd(a: int, b: int, w: int)
    ensures (a + b) * w == a * w + b * w
  {}

  lemma {:induction false} MulNonneg(a: int, w: int)
    requires a >= 0 && w >= 0
    ensures a * w >= 0
  {}

  lemma {:induction false} MulMono(a: int, b: int, w: int)
    requires a <= b && w >= 0
    ensures a * w <= b * w
  {
    MulAdd(a, b - a, w);
    MulNonneg(b - a, w);
  }

  /** Whole groups of `w` below the b-th end at or before its start. */
  lemma {:induction false} MulLess(a: int, b: int, w: int)
    requires a < b && w >= 0
    ensures a * w + w <= b * w
  {
    MulMono(a + 1, b, w);
    MulAdd(a, 1, w);
  }

  /** A number has one quotient and remainder. */
  lemma {:induction false} PairUnique(a: int, x: int, b: int, y: int, w: int)
    requires 0 <= x < w && 0 <= y < w && a * w + x == b * w + y
    ensures a == b && x == y
  {
    if a < b {
      MulLess(a, b, w);
    } else if b < a {
      MulLess(b, a, w);
    }
  }

  lemma {:induction false} DivModUnique(a: int, x: int, w: int)
    requires 0 <= x < w
    ensures (a * w + x) / w == a && (a * w + x) % w == x
  {
    var n := a * w + x;
    assert n == w * (n / w) + n % w;
    PairUnique(a, x, n / w, n % w, w);
  }
}
