/** Real vectors: pointwise operations, inner products and squared distances. */
module Vectors {

  type Vec = seq<real>

  /** A named product, so that proofs by congruence can `hide` the multiplication. */
  function Times(x: real, y: real): real {
    x * y
  }

  function Add(a: Vec, b: Vec): (r: Vec)
    requires |a| == |b|
    ensures |r| == |a| && forall i :: 0 <= i < |r| ==> r[i] == a[i] + b[i]
    decreases |a|
  {
    if a == [] then [] else [a[0] + b[0]] + Add(a[1..], b[1..])
  }

  function Sub(a: Vec, b: Vec): (r: Vec)
    requires |a| == |b|
    ensures |r| == |a| && forall i :: 0 <= i < |r| ==> r[i] == a[i] - b[i]
    decreases |a|
  {
    if a == [] then [] else [a[0] - b[0]] + Sub(a[1..], b[1..])
  }

  function Scale(c: real, a: Vec): (r: Vec)
    ensures |r| == |a| && forall i :: 0 <= i < |r| ==> r[i] == Times(c, a[i])
    decreases |a|
  {
    if a == [] then [] else [Times(c, a[0])] + Scale(c, a[1..])
  }

  function Dot(a: Vec, b: Vec): real
    requires |a| == |b|
    decreases |a|
  {
    if a == [] then 0.0 else Times(a[0], b[0]) + Dot(a[1..], b[1..])
  }

  /** The squared Euclidean distance. */
  function SqDist(a: Vec, b: Vec): real
    requires |a| == |b|
  {
    Dot(Sub(a, b), Sub(a, b))
  }

  lemma {:induction false} DotCons(a: Vec, b: Vec)
    requires |a| == |b| > 0
    ensures Dot(a, b) == Times(a[0], b[0]) + Dot(a[1..], b[1..])
  {}

  lemma {:induction false} AddSubTail(a: Vec, b: Vec)
    requires |a| == |b| > 0
    ensures Add(a, b)[1..] == Add(a[1..], b[1..]) && Sub(a, b)[1..] == Sub(a[1..], b[1..])
  {}

  lemma {:induction false} DotAdds(a: Vec, b: Vec, c: Vec, d: Vec)
    requires |a| == |b| == |c| == |d| > 0
    ensures Dot(Add(a, b), Add(c, d)) == Times(a[0] + b[0], c[0] + d[0]) + Dot(Add(a[1..], b[1..]), Add(c[1..], d[1..]))
    ensures Dot(Sub(a, b), Sub(c, d)) == Times(a[0] - b[0], c[0] - d[0]) + Dot(Sub(a[1..], b[1..]), Sub(c[1..], d[1..]))
  {
    hide Add, Sub, Dot, Times;
    DotCons(Add(a, b), Add(c, d));
    DotCons(Sub(a, b), Sub(c, d));
    AddSubTail(a, b);
    AddSubTail(c, d);
  }

  lemma {:induction false} DotConcat(a: Vec, b: Vec, c: Vec, d: Vec)
    requires |a| == |c| && |b| == |d|
    ensures Dot(a + b, c + d) == Dot(a, c) + Dot(b, d)
    decreases |a|
  {
    hide Times;
    if a == [] {
      assert a + b == b && c + d == d;
    } else {
      assert (a + b)[1..] == a[1..] + b && (c + d)[1..] == c[1..] + d;
      DotConcat(a[1..], b, c[1..], d);
    }
  }

  lemma {:induction false} Parallelogram(a: real, b: real, c: real, d: real)
    ensures Times(a + b, c + d) + Times(a - b, c - d) == 2.0 * Times(a, c) + 2.0 * Times(b, d)
  {}

  /** The polarised parallelogram law. */
  lemma {:induction false} DotButterfly(a: Vec, b: Vec, c: Vec, d: Vec)
    requires |a| == |b| == |c| == |d|
    ensures Dot(Add(a, b), Add(c, d)) + Dot(Sub(a, b), Sub(c, d)) == 2.0 * Dot(a, c) + 2.0 * Dot(b, d)
    decreases |a|
  {
    if a == [] {
      return;
    }
    hide Add, Sub, Dot, Times;
    DotAdds(a, b, c, d);
    DotCons(a, c);
    DotCons(b, d);
    Parallelogram(a[0], b[0], c[0], d[0]);
    DotButterfly(a[1..], b[1..], c[1..], d[1..]);
  }

  // --- Pointwise identities -------------------------------------------------------------------

  lemma {:induction false} AddSubConcat(a: Vec, b: Vec, c: Vec, d: Vec)
    requires |a| == |c| && |b| == |d|
    ensures Add(a + b, c + d) == Add(a, c) + Add(b, d)
    ensures Sub(a + b, c + d) == Sub(a, c) + Sub(b, d)
  {
    hide Add, Sub;
    assert Add(a + b, c + d) == Add(a, c) + Add(b, d);
    assert Sub(a + b, c + d) == Sub(a, c) + Sub(b, d);
  }

  lemma {:induction false} ScaleConcat(k: real, a: Vec, b: Vec)
    ensures Scale(k, a + b) == Scale(k, a) + Scale(k, b)
  {
    hide Scale, Times;
    assert Scale(k, a + b) == Scale(k, a) + Scale(k, b);
  }

  lemma {:induction false} Interchange(a: Vec, b: Vec, c: Vec, d: Vec)
    requires |a| == |b| == |c| == |d|
    ensures Add(Add(a, b), Add(c, d)) == Add(Add(a, c), Add(b, d))
    ensures Sub(Add(a, b), Add(c, d)) == Add(Sub(a, c), Sub(b, d))
    ensures Add(Sub(a, b), Sub(c, d)) == Sub(Add(a, c), Add(b, d))
    ensures Sub(Sub(a, b), Sub(c, d)) == Sub(Sub(a, c), Sub(b, d))
  {
    hide Add, Sub;
  }

  lemma {:induction false} SumAndDifference(a: Vec, b: Vec)
    requires |a| == |b|
    ensures Add(Add(a, b), Sub(a, b)) == Scale(2.0, a)
    ensures Sub(Add(a, b), Sub(a, b)) == Scale(2.0, b)
  {
    hide Add, Sub, Scale;
  }

  lemma {:induction false} ScaleTwice(c: real, d: real, a: Vec)
    ensures Scale(c, Scale(d, a)) == Scale(Times(c, d), a)
  {
    hide Scale;
    forall i | 0 <= i < |a| ensures Times(c, Times(d, a[i])) == Times(Times(c, d), a[i]) {}
  }
}
