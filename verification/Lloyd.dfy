/** Lloyd iterations: what an assignment costs, and why moving centres to means never costs more. */
module Lloyd {
  import opened Vectors

  /** `samples` and `centers` are lists of vectors of one length. */
  predicate Shaped(xs: seq<Vec>, dim: nat) {
    forall i :: 0 <= i < |xs| ==> |xs[i]| == dim
  }

  function Square(r: real): real {
    r * r
  }

  /** The squared distance over the first n coordinates. */
  function D(x: Vec, c: Vec, n: nat): real
    requires n <= |x| && n <= |c|
    decreases n
  {
    if n == 0 then 0.0 else D(x, c, n - 1) + Square(x[n - 1] - c[n - 1])
  }

  function Dist(x: Vec, c: Vec): real
    requires |x| == |c|
  {
    D(x, c, |x|)
  }

  /** No center is nearer to x than center `a`. */
  predicate IsNearest(x: Vec, cs: seq<Vec>, a: nat)
    requires Shaped(cs, |x|)
  {
    a < |cs| && forall c :: 0 <= c < |cs| ==> Dist(x, cs[a]) <= Dist(x, cs[c])
  }

  /** The first nearest of the first n centers. */
  function Argmin(x: Vec, cs: seq<Vec>, n: nat): (a: nat)
    requires Shaped(cs, |x|) && 1 <= n <= |cs|
    ensures a < n
    ensures forall c :: 0 <= c < n ==> Dist(x, cs[a]) <= Dist(x, cs[c])
    ensures forall c :: 0 <= c < a ==> Dist(x, cs[a]) < Dist(x, cs[c])
    decreases n
  {
    if n == 1 then 0
    else
      var b := Argmin(x, cs, n - 1);
      if Dist(x, cs[n - 1]) < Dist(x, cs[b]) then n - 1 else b
  }

  /** Every sample with its nearest center. */
  function Assign(xs: seq<Vec>, cs: seq<Vec>, dim: nat): (a: seq<nat>)
    requires Shaped(xs, dim) && Shaped(cs, dim) && cs != []
    ensures NearestAssignment(xs, a, cs, dim)
    ensures forall i :: 0 <= i < |xs| ==> a[i] == Argmin(xs[i], cs, |cs|)
    decreases |xs|
  {
    if xs == [] then [] else [Argmin(xs[0], cs, |cs|)] + Assign(xs[1..], cs, dim)
  }

  /** The distance from x to its nearest center. */
  function MinDist(x: Vec, cs: seq<Vec>, n: nat): real
    requires Shaped(cs, |x|) && 1 <= n <= |cs|
    decreases n
  {
    var d := Dist(x, cs[n - 1]);
    if n == 1 then d
    else
      var m := MinDist(x, cs, n - 1); if m <= d then m else d
  }

  /** The k-means objective over the first n samples. */
  function Objective(xs: seq<Vec>, cs: seq<Vec>, dim: nat, n: nat): real
    requires Shaped(xs, dim) && Shaped(cs, dim) && cs != [] && n <= |xs|
    decreases n
  {
    if n == 0 then 0.0 else Objective(xs, cs, dim, n - 1) + MinDist(xs[n - 1], cs, |cs|)
  }

  predicate Assignment(a: seq<nat>, n: nat, k: nat) {
    |a| == n && forall i :: 0 <= i < n ==> a[i] < k
  }

  /** The cost of a given assignment. */
  function Cost(xs: seq<Vec>, a: seq<nat>, cs: seq<Vec>, dim: nat, n: nat): real
    requires Shaped(xs, dim) && Shaped(cs, dim) && Assignment(a, |xs|, |cs|) && n <= |xs|
    decreases n
  {
    if n == 0 then 0.0 else Cost(xs, a, cs, dim, n - 1) + Dist(xs[n - 1], cs[a[n - 1]])
  }

  lemma {:induction false} MinDistBelow(x: Vec, cs: seq<Vec>, n: nat, c: nat)
    requires Shaped(cs, |x|) && c < n <= |cs|
    ensures MinDist(x, cs, n) <= Dist(x, cs[c])
    decreases n
  {
    hide Dist;
    if c < n - 1 {
      MinDistBelow(x, cs, n - 1, c);
    }
  }

  lemma {:induction false} MinDistReached(x: Vec, cs: seq<Vec>, n: nat, a: nat)
    requires Shaped(cs, |x|) && 1 <= n <= |cs| && a < |cs|
    requires forall c :: 0 <= c < |cs| ==> Dist(x, cs[a]) <= Dist(x, cs[c])
    ensures Dist(x, cs[a]) <= MinDist(x, cs, n)
    decreases n
  {
    hide Dist;
    if n > 1 {
      MinDistReached(x, cs, n - 1, a);
    }
  }

  /** The objective is the cheapest any assignment can be. */
  lemma {:induction false} ObjectiveBelowCost(xs: seq<Vec>, a: seq<nat>, cs: seq<Vec>, dim: nat, n: nat)
    requires Shaped(xs, dim) && Shaped(cs, dim) && cs != [] && Assignment(a, |xs|, |cs|) && n <= |xs|
    ensures Objective(xs, cs, dim, n) <= Cost(xs, a, cs, dim, n)
    decreases n
  {
    hide Dist, MinDist;
    if n == 0 {
    } else {
      ObjectiveBelowCost(xs, a, cs, dim, n - 1);
      MinDistBelow(xs[n - 1], cs, |cs|, a[n - 1]);
    }
  }

  predicate NearestAssignment(xs: seq<Vec>, a: seq<nat>, cs: seq<Vec>, dim: nat)
    requires Shaped(xs, dim) && Shaped(cs, dim)
  {
    Assignment(a, |xs|, |cs|) && forall i :: 0 <= i < |xs| ==> IsNearest(xs[i], cs, a[i])
  }

  /** And a nearest assignment attains it. */
  lemma {:induction false} NearestAttains(xs: seq<Vec>, a: seq<nat>, cs: seq<Vec>, dim: nat, n: nat)
    requires Shaped(xs, dim) && Shaped(cs, dim) && cs != [] && NearestAssignment(xs, a, cs, dim) && n <= |xs|
    ensures Objective(xs, cs, dim, n) == Cost(xs, a, cs, dim, n)
    decreases n
  {
    hide Dist, MinDist;
    if n == 0 {
    } else {
      NearestAttains(xs, a, cs, dim, n - 1);
      var x := xs[n - 1];
      assert IsNearest(x, cs, a[n - 1]);
      MinDistBelow(x, cs, |cs|, a[n - 1]);
      MinDistReached(x, cs, |cs|, a[n - 1]);
    }
  }

  // --- Means ------------------------------------------------------------------------------------

  function Count(a: seq<nat>, c: nat, n: nat): nat
    requires n <= |a|
    decreases n
  {
    if n == 0 then 0 else Count(a, c, n - 1) + if a[n - 1] == c then 1 else 0
  }

  /** The sum of coordinate j over the members of cluster c. */
  function Sum(xs: seq<Vec>, a: seq<nat>, dim: nat, c: nat, j: nat, n: nat): real
    requires Shaped(xs, dim) && |a| == |xs| && j < dim && n <= |xs|
    decreases n
  {
    if n == 0 then 0.0 else Sum(xs, a, dim, c, j, n - 1) + if a[n - 1] == c then xs[n - 1][j] else 0.0
  }

  /** What cluster c pays in coordinate j for a center coordinate v. */
  function Pay(xs: seq<Vec>, a: seq<nat>, dim: nat, c: nat, j: nat, v: real, n: nat): real
    requires Shaped(xs, dim) && |a| == |xs| && j < dim && n <= |xs|
    decreases n
  {
    if n == 0 then 0.0
    else Pay(xs, a, dim, c, j, v, n - 1) + if a[n - 1] == c then Square(xs[n - 1][j] - v) else 0.0
  }

  lemma {:induction false} SquareShift(x: real, v: real, w: real)
    ensures Square(x - v) - Square(x - w) == Times(w - v, x) * 2.0 + Times(v - w, v + w)
  {}

  lemma {:induction false} TimesAdd(t: real, x: real, y: real)
    ensures Times(t, x + y) == Times(t, x) + Times(t, y)
    ensures Times(x + y, t) == Times(x, t) + Times(y, t)
    ensures Times(0.0, t) == 0.0 && Times(t, 0.0) == 0.0 && Times(1.0, t) == t
  {}

  /** How the price changes between two centers, by the sum and the size of the cluster. */
  lemma {:induction false} PayShift(xs: seq<Vec>, a: seq<nat>, dim: nat, c: nat, j: nat, v: real, w: real, n: nat)
    requires Shaped(xs, dim) && |a| == |xs| && j < dim && n <= |xs|
    ensures Pay(xs, a, dim, c, j, v, n) - Pay(xs, a, dim, c, j, w, n)
         == Times(w - v, Sum(xs, a, dim, c, j, n)) * 2.0 + Times(Count(a, c, n) as real, Times(v - w, v + w))
    decreases n
  {
    hide Square, Times;
    TimesAdd(w - v, 0.0, 0.0);
    TimesAdd(Times(v - w, v + w), 0.0, 0.0);
    if n == 0 {
    } else {
      PayShift(xs, a, dim, c, j, v, w, n - 1);
      SquareShift(xs[n - 1][j], v, w);
      TimesAdd(w - v, Sum(xs, a, dim, c, j, n - 1), xs[n - 1][j]);
      TimesAdd(Times(v - w, v + w), Count(a, c, n - 1) as real, 1.0);
    }
  }

  /** How far a center at w is from the best, by its distance from the mean v. */
  lemma {:induction false} MeanAlgebra(s: real, n: real, v: real, w: real)
    requires n > 0.0 && v == s / n
    ensures Times(w - v, s) * 2.0 + Times(n, Times(v - w, v + w)) == -Times(n, Square(w - v))
    ensures Times(n, Square(w - v)) >= 0.0 && (Times(n, Square(w - v)) == 0.0 <==> w == v)
  {
    assert s == n * v;
    assert (w - v) * s * 2.0 + n * ((v - w) * (v + w)) == -(n * ((w - v) * (w - v)));
    PositiveProduct(n, w - v);
  }

  lemma {:induction false} PositiveProduct(n: real, d: real)
    requires n > 0.0
    ensures Times(n, Square(d)) >= 0.0 && (Times(n, Square(d)) == 0.0 <==> d == 0.0)
  {
    var e := if d < 0.0 then -d else d;
    assert Square(d) == Times(e, e);
    if e > 0.0 {
      TimesPositive(e, e);
      hide Times;
      TimesPositive(n, Times(e, e));
    }
  }

  lemma {:induction false} TimesPositive(a: real, b: real)
    requires a > 0.0 && b > 0.0
    ensures Times(a, b) > 0.0
  {}

  /** The mean is the cheapest center. */
  lemma {:induction false} MeanIsBest(xs: seq<Vec>, a: seq<nat>, dim: nat, c: nat, j: nat, w: real)
    requires Shaped(xs, dim) && |a| == |xs| && j < dim && Count(a, c, |xs|) > 0
    ensures var mean := Sum(xs, a, dim, c, j, |xs|) / Count(a, c, |xs|) as real;
            Pay(xs, a, dim, c, j, mean, |xs|) <= Pay(xs, a, dim, c, j, w, |xs|)
  {
    hide Pay, Sum, Count;
    var s, n := Sum(xs, a, dim, c, j, |xs|), Count(a, c, |xs|) as real;
    PayShift(xs, a, dim, c, j, s / n, w, |xs|);
    MeanAlgebra(s, n, s / n, w);
  }

  // --- Moving one coordinate of one center ----------------------------------------------------------

  function Move(cs: seq<Vec>, c: nat, j: nat, v: real): (r: seq<Vec>)
    requires c < |cs| && j < |cs[c]|
    ensures |r| == |cs| && |r[c]| == |cs[c]|
  {
    cs[c := cs[c][j := v]]
  }

  lemma {:induction false} DistMove(x: Vec, c: Vec, j: nat, v: real, n: nat)
    requires n <= |x| == |c| && j < |c|
    ensures D(x, c[j := v], n) == D(x, c, n) + if j < n then Square(x[j] - v) - Square(x[j] - c[j]) else 0.0
    decreases n
  {
    hide Square;
    if n == 0 {
    } else {
      DistMove(x, c, j, v, n - 1);
    }
  }

  lemma {:induction false} CostMove(xs: seq<Vec>, a: seq<nat>, cs: seq<Vec>, dim: nat, c: nat, j: nat, v: real, n: nat)
    requires Shaped(xs, dim) && Shaped(cs, dim) && Assignment(a, |xs|, |cs|) && n <= |xs| && c < |cs| && j < dim
    ensures Shaped(Move(cs, c, j, v), dim)
    ensures Cost(xs, a, Move(cs, c, j, v), dim, n)
         == Cost(xs, a, cs, dim, n) + Pay(xs, a, dim, c, j, v, n) - Pay(xs, a, dim, c, j, cs[c][j], n)
    decreases n
  {
    hide Square, D;
    if n == 0 {
    } else {
      CostMove(xs, a, cs, dim, c, j, v, n - 1);
      if a[n - 1] == c {
        DistMove(xs[n - 1], cs[c], j, v, dim);
      }
    }
  }

  /** Moving one coordinate to its cluster's mean never raises the cost. */
  lemma {:induction false} MoveToMean(xs: seq<Vec>, a: seq<nat>, cs: seq<Vec>, dim: nat, c: nat, j: nat)
    requires Shaped(xs, dim) && Shaped(cs, dim) && Assignment(a, |xs|, |cs|) && c < |cs| && j < dim
    requires Count(a, c, |xs|) > 0
    ensures var mean := Sum(xs, a, dim, c, j, |xs|) / Count(a, c, |xs|) as real;
            && Shaped(Move(cs, c, j, mean), dim)
            && Cost(xs, a, Move(cs, c, j, mean), dim, |xs|) <= Cost(xs, a, cs, dim, |xs|)
  {
    hide Pay, Cost, Sum, Count, Move;
    var mean := Sum(xs, a, dim, c, j, |xs|) / Count(a, c, |xs|) as real;
    CostMove(xs, a, cs, dim, c, j, mean, |xs|);
    MeanIsBest(xs, a, dim, c, j, cs[c][j]);
  }

  // --- One iteration ------------------------------------------------------------------------------

  lemma {:induction false} CountZero(a: seq<nat>, c: nat, n: nat)
    requires n <= |a|
    ensures Count(a, c, n) == 0 <==> c !in a[..n]
    decreases n
  {
    if n == 0 {
    } else {
      CountZero(a, c, n - 1);
      assert a[..n] == a[..n - 1] + [a[n - 1]];
    }
  }

  /** A coordinate of a center after an iteration: no other value is cheaper for the samples assigned to the center;
      without such samples it stays what it was. */
  ghost predicate IsBest(xs: seq<Vec>, a: seq<nat>, dim: nat, c: nat, j: nat, before: real, after: real)
    requires Shaped(xs, dim) && |a| == |xs| && j < dim
  {
    if c in a then forall w :: Pay(xs, a, dim, c, j, after, |xs|) <= Pay(xs, a, dim, c, j, w, |xs|)
    else after == before
  }

  /** All coordinates of all centers. */
  ghost predicate AllBest(xs: seq<Vec>, a: seq<nat>, before: seq<Vec>, after: seq<Vec>, dim: nat)
    requires Shaped(xs, dim) && |a| == |xs|
  {
    && Shaped(before, dim) && Shaped(after, dim) && |after| == |before|
    && forall c, j {:trigger after[c][j]} :: 0 <= c < |after| && 0 <= j < dim ==>
         IsBest(xs, a, dim, c, j, before[c][j], after[c][j])
  }

  /** `after` is what one iteration makes of `before`: with every sample at its nearest center, every center is best
      for its samples. */
  ghost predicate IsStep(xs: seq<Vec>, before: seq<Vec>, after: seq<Vec>, dim: nat)
    requires Shaped(xs, dim) && Shaped(before, dim) && before != []
  {
    AllBest(xs, Assign(xs, before, dim), before, after, dim)
  }

  /** The mean of a non-empty cluster; an empty one keeps its center. */
  function NewCoordinate(xs: seq<Vec>, a: seq<nat>, cs: seq<Vec>, dim: nat, c: nat, j: nat): real
    requires Shaped(xs, dim) && Shaped(cs, dim) && |a| == |xs| && c < |cs| && j < dim
  {
    var n := Count(a, c, |xs|);
    if n == 0 then cs[c][j] else Sum(xs, a, dim, c, j, |xs|) / n as real
  }

  /** The best coordinate is the mean of the cluster, and nothing but the mean is best. */
  lemma {:induction false} BestIsMean(xs: seq<Vec>, a: seq<nat>, cs: seq<Vec>, dim: nat, c: nat, j: nat, v: real)
    requires Shaped(xs, dim) && Shaped(cs, dim) && |a| == |xs| && c < |cs| && j < dim
    ensures IsBest(xs, a, dim, c, j, cs[c][j], v) <==> v == NewCoordinate(xs, a, cs, dim, c, j)
  {
    CountZero(a, c, |xs|);
    assert a[..|xs|] == a;
    hide Pay, Sum, Count;
    if c in a {
      var s, n := Sum(xs, a, dim, c, j, |xs|), Count(a, c, |xs|) as real;
      forall w ensures Pay(xs, a, dim, c, j, s / n, |xs|) <= Pay(xs, a, dim, c, j, w, |xs|) {
        MeanIsBest(xs, a, dim, c, j, w);
      }
      if IsBest(xs, a, dim, c, j, cs[c][j], v) {
        PayShift(xs, a, dim, c, j, s / n, v, |xs|);
        MeanAlgebra(s, n, s / n, v);
      }
    }
  }
}
