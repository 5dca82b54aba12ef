/** `_kmeans_1d`: Lloyd iterations on a line, with the assignment read off sorted midpoints. */
module KMeans1D {
  import opened Arith
  import opened Collections
  import opened Vectors
  import opened Lloyd

  predicate Ascending(q: seq<real>) {
    forall i, j :: 0 <= i <= j < |q| ==> q[i] <= q[j]
  }

  lemma {:induction false} AscendingSteps(q: seq<real>, n: nat)
    requires n <= |q| && forall i :: 0 <= i < |q| - 1 ==> q[i] <= q[i + 1]
    ensures forall i, j :: 0 <= i <= j < n ==> q[i] <= q[j]
    decreases n
  {
    if n > 1 {
      AscendingSteps(q, n - 1);
      assert q[n - 2] <= q[(n - 2) + 1];
    }
  }

  // --- The starting centers ---------------------------------------------------------------------

  /** `np.interp` at position p of the sorted values: linear between neighbours. */
  function Interp(v: seq<real>, p: real): real
    requires 0.0 <= p < (|v| - 1) as real
  {
    var i := p.Floor;
    v[i] + Times(v[i + 1] - v[i], p - i as real)
  }

  lemma {:induction false} ScaleByFraction(d: real, f: real, g: real)
    requires d >= 0.0 && 0.0 <= f <= g <= 1.0
    ensures 0.0 <= Times(d, f) <= Times(d, g) <= d
  {
    assert d * (g - f) >= 0.0 && d * (1.0 - g) >= 0.0 && d * f >= 0.0;
  }

  lemma {:induction false} InterpMonotone(v: seq<real>, p: real, q: real)
    requires Ascending(v) && 0.0 <= p <= q < (|v| - 1) as real
    ensures Interp(v, p) <= Interp(v, q)
  {
    var i, j := p.Floor, q.Floor;
    var f, g := p - i as real, q - j as real;
    ScaleByFraction(v[i + 1] - v[i], f, if i == j then g else 1.0);
    ScaleByFraction(v[j + 1] - v[j], 0.0, g);
    hide Times;
    if i < j {
      assert v[i + 1] <= v[j];
    }
  }

  /** The position of the i-th of k interior quantiles. */
  function Quantile(i: nat, k: nat, n: nat): real {
    (i + 1) as real * (n - 1) as real / (k + 1) as real
  }

  /** The quantiles cut the positions into k + 1 equal parts. */
  lemma {:induction false} QuantilesEven(i: nat, k: nat, n: nat)
    requires i < k && n >= 1
    ensures var part := Quantile(0, k, n);
      && Times(part, (k + 1) as real) == (n - 1) as real
      && Quantile(i, k, n) == Times(part, (i + 1) as real)
      && (i + 1 < k ==> Quantile(i + 1, k, n) - Quantile(i, k, n) == part)
  {
    var w, d := (n - 1) as real, (k + 1) as real;
    assert w / d * d == w;
    assert (i + 1) as real * w / d == w / d * (i + 1) as real;
    assert (i + 2) as real * w / d == w / d * (i + 2) as real;
    assert w / d * (i + 2) as real == w / d * (i + 1) as real + w / d;
  }

  /** Between two positions the interpolation is on the line through their values. */
  lemma {:induction false} InterpLine(v: seq<real>, i: nat, f: real)
    requires i + 1 < |v| && 0.0 <= f < 1.0
    ensures Interp(v, i as real + f) == v[i] + Times(f, v[i + 1] - v[i])
  {
    assert (i as real + f).Floor == i;
  }

  lemma {:induction false} QuantileInside(i: nat, k: nat, n: nat)
    requires i < k && n >= 2
    ensures 0.0 <= Quantile(i, k, n) < (n - 1) as real
  {
    var a, m, d := (i + 1) as real, (n - 1) as real, (k + 1) as real;
    assert a * m >= 0.0;
    assert (d - a) * m > 0.0;
    assert a * m < d * m;
    DivideOrder(a * m, d * m, d);
    assert d * m / d == m;
  }

  lemma {:induction false} DivideOrder(x: real, y: real, d: real)
    requires d > 0.0
    ensures x < y ==> x / d < y / d
    ensures x <= y ==> x / d <= y / d
  {}

  lemma {:induction false} QuantileRises(i: nat, k: nat, n: nat)
    requires n >= 1
    ensures Quantile(i, k, n) <= Quantile(i + 1, k, n)
  {
    var a, m := (i + 1) as real, (n - 1) as real;
    assert (a + 1.0) * m == a * m + m;
    DivideOrder(a * m, (a + 1.0) * m, (k + 1) as real);
  }

  /** The k centers sit at the interior quantiles. */
  predicate AtQuantiles(v: seq<real>, centers: seq<real>, k: nat) {
    |centers| == k && forall i :: 0 <= i < k ==> IsQuantile(v, centers[i], i, k)
  }

  predicate IsQuantile(v: seq<real>, c: real, i: nat, k: nat) {
    0.0 <= Quantile(i, k, |v|) < (|v| - 1) as real && c == Interp(v, Quantile(i, k, |v|))
  }

  method InitialCenters(v: seq<real>, k: nat) returns (centers: seq<real>)
    requires Ascending(v) && |v| >= 2
    ensures AtQuantiles(v, centers, k) && Ascending(centers)
  {
    hide Quantile, Interp;
    centers := [];
    while |centers| < k
      invariant |centers| <= k
      invariant forall i :: 0 <= i < |centers| ==> IsQuantile(v, centers[i], i, k)
    {
      QuantileInside(|centers|, k, |v|);
      centers := centers + [Interp(v, Quantile(|centers|, k, |v|))];
    }
    forall i | 0 <= i < k - 1 ensures centers[i] <= centers[i + 1] {
      assert IsQuantile(v, centers[i], i, k) && IsQuantile(v, centers[i + 1], i + 1, k);
      QuantileRises(i, k, |v|);
      InterpMonotone(v, Quantile(i, k, |v|), Quantile(i + 1, k, |v|));
    }
    AscendingSteps(centers, k);
  }

  // --- Assignment by midpoints ---------------------------------------------------------------------

  function Midpoints(c: seq<real>): (m: seq<real>)
    ensures |m| == if |c| == 0 then 0 else |c| - 1
    ensures forall i :: 0 <= i < |m| ==> m[i] == (c[i] + c[i + 1]) / 2.0
    decreases |c|
  {
    if |c| <= 1 then [] else Midpoints(c[..|c| - 1]) + [(c[|c| - 2] + c[|c| - 1]) / 2.0]
  }

  /** `r` splits the ascending `m`: everything before it is at most x, the rest is above. */
  predicate Splits(m: seq<real>, x: real, r: nat) {
    && r <= |m|
    && (forall i :: 0 <= i < r ==> m[i] <= x)
    && (forall i :: r <= i < |m| ==> x < m[i])
  }

  /** `np.searchsorted(m, x, side="right")` */
  method SearchSorted(m: seq<real>, x: real) returns (r: nat)
    requires Ascending(m)
    ensures Splits(m, x, r)
  {
    var lo, hi := 0, |m|;
    while lo < hi
      invariant lo <= hi <= |m|
      invariant forall i :: 0 <= i < lo ==> m[i] <= x
      invariant forall i :: hi <= i < |m| ==> x < m[i]
    {
      var mid := (lo + hi) / 2;
      if x < m[mid] {
        hi := mid;
      } else {
        lo := mid + 1;
      }
    }
    r := lo;
  }

  lemma {:induction false} MidpointsAscend(c: seq<real>)
    requires Ascending(c)
    ensures Ascending(Midpoints(c))
    ensures forall i :: 0 <= i < |c| - 1 ==> c[i] <= Midpoints(c)[i] <= c[i + 1]
  {
    hide Midpoints;
    forall i | 0 <= i < |c| - 1 ensures c[i] <= Midpoints(c)[i] <= c[i + 1] {
      assert c[i] <= c[i + 1];
    }
    forall i, j | 0 <= i <= j < |Midpoints(c)| ensures Midpoints(c)[i] <= Midpoints(c)[j] {
      assert c[i] <= c[j] && c[i + 1] <= c[j + 1];
    }
  }

  /** One-dimensional vectors, so that the general facts apply. */
  function Column(q: seq<real>): (r: seq<Vec>)
    ensures |r| == |q| && forall i :: 0 <= i < |q| ==> r[i] == [q[i]]
    ensures Shaped(r, 1)
    decreases |q|
  {
    if q == [] then [] else [[q[0]]] + Column(q[1..])
  }

  lemma {:induction false} DistOnLine(x: real, c: real)
    ensures Dist([x], [c]) == Square(x - c)
  {
    assert D([x], [c], 1) == D([x], [c], 0) + Square(x - c);
  }

  lemma {:induction false} SquareOrder(d: real, e: real)
    requires -e <= d <= e
    ensures Square(d) <= Square(e) && Square(-e) == Square(e)
  {
    assert (e - d) * (e + d) >= 0.0;
    assert (e - d) * (e + d) == e * e - d * d;
  }

  /** The midpoint rule finds a nearest center. */
  lemma {:induction false} SplitIsNearest(c: seq<real>, x: real, r: nat)
    requires Ascending(c) && c != [] && Splits(Midpoints(c), x, r)
    ensures IsNearest([x], Column(c), r)
  {
    hide Midpoints, Column, Square, Dist;
    var m := Midpoints(c);
    assert r < |c|;
    forall j | 0 <= j < |c| ensures Dist([x], Column(c)[r]) <= Dist([x], Column(c)[j]) {
      DistOnLine(x, c[r]);
      DistOnLine(x, c[j]);
      if j < r {
        assert m[r - 1] <= x && c[j] <= c[r - 1] && m[r - 1] == (c[r - 1] + c[(r - 1) + 1]) / 2.0;
        SquareOrder(x - c[r], x - c[j]);
      } else if r < j {
        assert x < m[r] && c[r + 1] <= c[j];
        SquareOrder(x - c[r], c[j] - x);
        SquareOrder(c[j] - x, c[j] - x);
      }
    }
  }

  /** No center is nearer, and of two different centers equally near it is the upper one. */
  predicate TakesUpper(x: real, c: seq<real>, a: nat) {
    a < |c|
    && forall j :: 0 <= j < |c| ==>
         Abs(x - c[a]) < Abs(x - c[j]) || (Abs(x - c[a]) == Abs(x - c[j]) && c[j] <= c[a])
  }

  /** Searching from the right breaks ties upwards. */
  lemma {:induction false} SplitTakesUpper(c: seq<real>, x: real, r: nat)
    requires Ascending(c) && c != [] && Splits(Midpoints(c), x, r)
    ensures TakesUpper(x, c, r)
  {
    hide Midpoints;
    var m := Midpoints(c);
    forall j | 0 <= j < |c|
      ensures Abs(x - c[r]) < Abs(x - c[j]) || (Abs(x - c[r]) == Abs(x - c[j]) && c[j] <= c[r])
    {
      if j < r {
        assert m[r - 1] <= x && c[j] <= c[r - 1] <= c[r] && m[r - 1] == (c[r - 1] + c[(r - 1) + 1]) / 2.0;
      } else if r < j {
        assert x < m[r] && c[r] <= c[r + 1] <= c[j];
      }
    }
  }

  predicate SplitAssignment(v: seq<real>, c: seq<real>, a: seq<nat>, n: nat) {
    |a| == n <= |v| && forall i :: 0 <= i < n ==> Splits(Midpoints(c), v[i], a[i])
  }

  method AssignByMidpoints(v: seq<real>, c: seq<real>) returns (a: seq<nat>)
    requires Ascending(c) && c != []
    ensures SplitAssignment(v, c, a, |v|)
  {
    var midpoints := Midpoints(c);
    MidpointsAscend(c);
    hide Midpoints, Splits, Ascending;
    a := [];
    while |a| < |v|
      invariant SplitAssignment(v, c, a, |a|)
    {
      var r := SearchSorted(midpoints, v[|a|]);
      a := a + [r];
    }
  }

  lemma {:induction false} SplitsAreNearest(v: seq<real>, c: seq<real>, a: seq<nat>)
    requires Ascending(c) && c != [] && SplitAssignment(v, c, a, |v|)
    ensures NearestAssignment(Column(v), a, Column(c), 1)
  {
    hide Splits, Column, Midpoints, IsNearest;
    forall i | 0 <= i < |v| ensures IsNearest(Column(v)[i], Column(c), a[i]) && a[i] < |c| {
      SplitIsNearest(c, v[i], a[i]);
      NearestInRange([v[i]], Column(c), a[i]);
    }
  }

  lemma {:induction false} NearestInRange(x: Vec, cs: seq<Vec>, a: nat)
    requires Shaped(cs, |x|) && IsNearest(x, cs, a)
    ensures a < |cs|
  {}

  // --- The new centers -----------------------------------------------------------------------------

  /** The sum of values that all lie between lo and hi. */
  lemma {:induction false} SumBetween(v: seq<real>, a: seq<nat>, c: nat, lo: real, hi: real, n: nat)
    requires |a| == |v| && n <= |v|
    requires forall i :: 0 <= i < n && a[i] == c ==> lo <= v[i] <= hi
    ensures var count, sum := Count(a, c, n) as real, Sum(Column(v), a, 1, c, 0, n);
            Times(count, lo) <= sum <= Times(count, hi)
    decreases n
  {
    hide Times, Column;
    TimesAdd(lo, 0.0, 0.0);
    TimesAdd(hi, 0.0, 0.0);
    if n == 0 {
    } else {
      SumBetween(v, a, c, lo, hi, n - 1);
      TimesAdd(lo, Count(a, c, n - 1) as real, 1.0);
      TimesAdd(hi, Count(a, c, n - 1) as real, 1.0);
    }
  }

  lemma {:induction false} MeanBetween(sum: real, count: real, lo: real, hi: real)
    requires count > 0.0 && Times(count, lo) <= sum <= Times(count, hi)
    ensures lo <= sum / count <= hi
  {
    DivideOrder(count * lo, sum, count);
    DivideOrder(sum, count * hi, count);
    assert count * lo / count == lo && count * hi / count == hi;
  }

  /** The new value of center c: the mean of its cluster, or itself when the cluster is empty. */
  function NewCenter(v: seq<real>, a: seq<nat>, centers: seq<real>, c: nat): real
    requires |a| == |v| && c < |centers|
  {
    NewCoordinate(Column(v), a, Column(centers), 1, c, 0)
  }

  /** Center c stays between the midpoints on either side of it. */
  lemma {:induction false} NewCenterBetween(v: seq<real>, a: seq<nat>, centers: seq<real>, c: nat)
    requires Ascending(centers) && SplitAssignment(v, centers, a, |v|) && c < |centers|
    ensures c > 0 ==> Midpoints(centers)[c - 1] <= NewCenter(v, a, centers, c)
    ensures c < |centers| - 1 ==> NewCenter(v, a, centers, c) <= Midpoints(centers)[c]
  {
    MidpointsAscend(centers);
    hide Midpoints, Column, Count, Sum;
    var m := Midpoints(centers);
    var count, sum := Count(a, c, |v|), Sum(Column(v), a, 1, c, 0, |v|);
    if count > 0 {
      if c > 0 {
        MeanAbove(v, a, c, m, m[c - 1]);
      }
      if c < |centers| - 1 {
        MeanBelow(v, a, c, m, m[c]);
      }
    } else if c > 0 {
      assert m[c - 1] <= centers[(c - 1) + 1];
    }
  }

  lemma {:induction false} MeanAbove(v: seq<real>, a: seq<nat>, c: nat, m: seq<real>, lo: real)
    requires |a| == |v| && forall i :: 0 <= i < |v| ==> Splits(m, v[i], a[i])
    requires 0 < c <= |m| && lo == m[c - 1] && Count(a, c, |v|) > 0
    ensures lo <= Sum(Column(v), a, 1, c, 0, |v|) / Count(a, c, |v|) as real
  {
    hide Column, Count, Sum;
    var hi := Largest(v, lo);
    SumBetween(v, a, c, lo, hi, |v|);
    MeanBetween(Sum(Column(v), a, 1, c, 0, |v|), Count(a, c, |v|) as real, lo, hi);
  }

  lemma {:induction false} MeanBelow(v: seq<real>, a: seq<nat>, c: nat, m: seq<real>, hi: real)
    requires |a| == |v| && forall i :: 0 <= i < |v| ==> Splits(m, v[i], a[i])
    requires c < |m| && hi == m[c] && Count(a, c, |v|) > 0
    ensures Sum(Column(v), a, 1, c, 0, |v|) / Count(a, c, |v|) as real <= hi
  {
    hide Column, Count, Sum;
    var lo := Smallest(v, hi);
    SumBetween(v, a, c, lo, hi, |v|);
    MeanBetween(Sum(Column(v), a, 1, c, 0, |v|), Count(a, c, |v|) as real, lo, hi);
  }

  function Largest(v: seq<real>, floor: real): (m: real)
    ensures floor <= m && forall i :: 0 <= i < |v| ==> v[i] <= m
    decreases |v|
  {
    if v == [] then floor
    else
      var r := Largest(v[1..], floor); if r < v[0] then v[0] else r
  }

  function Smallest(v: seq<real>, ceiling: real): (m: real)
    ensures m <= ceiling && forall i :: 0 <= i < |v| ==> m <= v[i]
    decreases |v|
  {
    if v == [] then ceiling
    else
      var r := Smallest(v[1..], ceiling); if v[0] < r then v[0] else r
  }

  /** Centers stay in order, empty clusters included. */
  lemma {:induction false} NewCentersAscend(v: seq<real>, a: seq<nat>, centers: seq<real>, now: seq<real>)
    requires Ascending(centers) && SplitAssignment(v, centers, a, |v|)
    requires |now| == |centers| && forall c :: 0 <= c < |now| ==> now[c] == NewCenter(v, a, centers, c)
    ensures Ascending(now)
  {
    hide NewCenter, SplitAssignment, Midpoints;
    assert |a| == |v| by {
      SplitLength(v, centers, a);
    }
    forall c | 0 <= c < |now| - 1 ensures now[c] <= now[c + 1] {
      NewCenterBetween(v, a, centers, c);
      NewCenterBetween(v, a, centers, c + 1);
      assert now[c] == NewCenter(v, a, centers, c) && now[c + 1] == NewCenter(v, a, centers, c + 1);
    }
    AscendingSteps(now, |now|);
  }

  lemma {:induction false} SplitLength(v: seq<real>, c: seq<real>, a: seq<nat>)
    requires SplitAssignment(v, c, a, |v|)
    ensures |a| == |v|
  {}

  // --- The objective ---------------------------------------------------------------------------------

  /** The total squared distance of the values to their nearest centers. */
  function Spread(v: seq<real>, centers: seq<real>): real
    requires centers != []
  {
    Objective(Column(v), Column(centers), 1, |v|)
  }

  lemma {:induction false} ColumnMove(q: seq<real>, c: nat, x: real)
    requires c < |q|
    ensures Column(q[c := x]) == Move(Column(q), c, 0, x)
  {
    hide Column;
    assert [q[c]][0 := x] == [x];
  }

  /** Replacing the first c centers by their new values never costs more. */
  lemma {:induction false} PartCost(v: seq<real>, a: seq<nat>, centers: seq<real>, now: seq<real>, c: nat)
    requires Assignment(a, |v|, |centers|) && |now| == |centers| && c <= |centers|
    requires forall b :: 0 <= b < |now| ==> now[b] == NewCenter(v, a, centers, b)
    ensures Cost(Column(v), a, Column(now[..c] + centers[c..]), 1, |v|) <= Cost(Column(v), a, Column(centers), 1, |v|)
    decreases c
  {
    hide Cost, Column, Count, Sum;
    if c == 0 {
      assert now[..0] + centers[0..] == centers;
    } else {
      var before, after := now[..c - 1] + centers[c - 1..], now[..c] + centers[c..];
      PartCost(v, a, centers, now, c - 1);
      assert after == before[c - 1 := now[c - 1]];
      ColumnMove(before, c - 1, now[c - 1]);
      if Count(a, c - 1, |v|) > 0 {
        MoveToMean(Column(v), a, Column(before), 1, c - 1, 0);
      } else {
        assert after == before;
      }
    }
  }

  /** One iteration's centers never spread more. */
  lemma {:induction false} SpreadFalls(v: seq<real>, a: seq<nat>, centers: seq<real>, now: seq<real>)
    requires Ascending(centers) && centers != [] && SplitAssignment(v, centers, a, |v|)
    requires |a| == |v| && |now| == |centers| && forall b :: 0 <= b < |now| ==> now[b] == NewCenter(v, a, centers, b)
    ensures Spread(v, now) <= Spread(v, centers)
  {
    hide Column, Objective, Cost, SplitAssignment, NewCenter;
    SplitsAreNearest(v, centers, a);
    NearestAttains(Column(v), a, Column(centers), 1, |v|);
    PartCost(v, a, centers, now, |now|);
    assert now[..|now|] + centers[|now|..] == now;
    ObjectiveBelowCost(Column(v), a, Column(now), 1, |v|);
  }

  // --- The loops ---------------------------------------------------------------------------------------

  /** `sel.mean() if sel.size else centers[c]` */
  method ClusterMean(v: seq<real>, a: seq<nat>, centers: seq<real>, c: nat) returns (r: real)
    requires |a| == |v| && c < |centers|
    ensures r == NewCenter(v, a, centers, c)
  {
    hide Column;
    var sum, size := 0.0, 0;
    var i := 0;
    while i < |v|
      invariant i <= |v| && size == Count(a, c, i) && sum == Sum(Column(v), a, 1, c, 0, i)
    {
      if a[i] == c {
        sum, size := sum + v[i], size + 1;
      }
      i := i + 1;
    }
    r := if size > 0 then sum / size as real else centers[c];
  }

  method NewCenters(v: seq<real>, a: seq<nat>, centers: seq<real>) returns (now: seq<real>)
    requires |a| == |v|
    ensures |now| == |centers| && forall c :: 0 <= c < |now| ==> now[c] == NewCenter(v, a, centers, c)
  {
    hide NewCenter;
    now := [];
    while |now| < |centers|
      invariant |now| <= |centers|
      invariant forall c :: 0 <= c < |now| ==> now[c] == NewCenter(v, a, centers, c)
    {
      var m := ClusterMean(v, a, centers, |now|);
      now := now + [m];
    }
  }

  /** `np.allclose` with its default tolerances. */
  predicate AllClose(a: seq<real>, b: seq<real>)
    requires |a| == |b|
  {
    forall i :: 0 <= i < |a| ==> Abs(a[i] - b[i]) <= 0.00000001 + 0.00001 * Abs(b[i])
  }

  /** Every value is with a nearest center, the upper one of two, and every center is best for its values. */
  ghost predicate StepBy(v: seq<real>, before: seq<real>, after: seq<real>, a: seq<nat>) {
    && SplitAssignment(v, before, a, |v|) && (forall i :: 0 <= i < |v| ==> TakesUpper(v[i], before, a[i]))
    && AllBest(Column(v), a, Column(before), Column(after), 1)
  }

  /** One iteration. */
  ghost predicate IsStep(v: seq<real>, before: seq<real>, after: seq<real>) {
    |after| == |before| && exists a :: StepBy(v, before, after, a)
  }

  /** The iteration of ordered centers: they stay in order and never spread more. */
  ghost predicate Follows(v: seq<real>, before: seq<real>, after: seq<real>) {
    && before != [] && IsStep(v, before, after) && Ascending(before) && Ascending(after)
    && Spread(v, after) <= Spread(v, before)
  }

  lemma {:induction false} StepFollows(v: seq<real>, a: seq<nat>, before: seq<real>, after: seq<real>)
    requires Ascending(before) && before != [] && SplitAssignment(v, before, a, |v|) && |a| == |v|
    requires |after| == |before| && forall c :: 0 <= c < |after| ==> after[c] == NewCenter(v, a, before, c)
    ensures Follows(v, before, after)
  {
    IsStepBy(v, a, before, after);
    hide NewCenter, SplitAssignment, Spread, Ascending, StepBy;
    NewCentersAscend(v, a, before, after);
    SpreadFalls(v, a, before, after);
  }

  lemma {:induction false} IsStepBy(v: seq<real>, a: seq<nat>, before: seq<real>, after: seq<real>)
    requires Ascending(before) && before != [] && SplitAssignment(v, before, a, |v|) && |a| == |v|
    requires |after| == |before| && forall c :: 0 <= c < |after| ==> after[c] == NewCenter(v, a, before, c)
    ensures StepBy(v, before, after, a)
  {
    hide TakesUpper, Splits, Column, IsBest, NewCoordinate;
    forall i | 0 <= i < |v| ensures TakesUpper(v[i], before, a[i]) {
      SplitTakesUpper(before, v[i], a[i]);
    }
    var old', new' := Column(before), Column(after);
    forall c, j {:trigger new'[c][j]} | 0 <= c < |after| && 0 <= j < 1
      ensures IsBest(Column(v), a, 1, c, j, old'[c][j], new'[c][j])
    {
      BestIsMean(Column(v), a, old', 1, c, 0, new'[c][0]);
      assert after[c] == NewCenter(v, a, before, c);
    }
  }

  /** Every entry is the iteration of the one before it. */
  ghost predicate Iterated(v: seq<real>, history: seq<seq<real>>) {
    forall t :: 0 <= t < |history| - 1 ==> Follows(v, history[t], history[t + 1])
  }

  /** From entry t to entry t + 1 no center moved by more than 1e-8 plus 1e-5 of its size. */
  predicate Settled(history: seq<seq<real>>, t: nat) {
    t + 1 < |history| && |history[t + 1]| == |history[t]|
    && forall c :: 0 <= c < |history[t]| ==>
         Abs(history[t + 1][c] - history[t][c]) <= (0.001 + Abs(history[t][c])) / 100000.0
  }

  /** All iterations were made, or they stopped at the first that settled. */
  ghost predicate RanToStop(history: seq<seq<real>>, iters: nat) {
    && 1 <= |history| <= iters + 1
    && (|history| == iters + 1 || (|history| >= 2 && Settled(history, |history| - 2)))
    && forall t :: 0 <= t < |history| - 2 ==> !Settled(history, t)
  }

  /** The loop so far: it is done when the last iteration settled, and none before it did. */
  ghost predicate Progress(v: seq<real>, history: seq<seq<real>>, done: bool) {
    && history != [] && Iterated(v, history)
    && (done ==> |history| >= 2 && Settled(history, |history| - 2))
    && forall t :: 0 <= t < |history| - (if done then 2 else 1) ==> !Settled(history, t)
  }

  lemma {:induction false} SettledIfClose(history: seq<seq<real>>, t: nat)
    requires t + 1 < |history| && |history[t + 1]| == |history[t]|
    ensures Settled(history, t) <==> AllClose(history[t + 1], history[t])
  {
    hide Abs;
  }

  lemma {:induction false} ProgressNext(v: seq<real>, history: seq<seq<real>>, now: seq<real>)
    requires Progress(v, history, false)
    requires Follows(v, history[|history| - 1], now) && |now| == |history[|history| - 1]|
    ensures Progress(v, history + [now], AllClose(now, history[|history| - 1]))
  {
    hide AllClose, Follows;
    var more, n := history + [now], |history| - 1;
    assert forall t :: 0 <= t < n ==> (Settled(more, t) <==> Settled(history, t));
    SettledIfClose(more, n);
  }

  lemma {:induction false} ProgressEnds(v: seq<real>, history: seq<seq<real>>, done: bool, iters: nat)
    requires Progress(v, history, done) && |history| <= iters + 1 && (|history| == iters + 1 || done)
    ensures Iterated(v, history) && RanToStop(history, iters)
  {
    hide Settled, Iterated;
  }

  /** No history entry spreads less than a later one. */
  lemma {:induction false} NeverWorse(v: seq<real>, history: seq<seq<real>>, s: nat, t: nat)
    requires Iterated(v, history) && s <= t < |history| && history[s] != []
    ensures history[t] != [] && Spread(v, history[t]) <= Spread(v, history[s])
    decreases t
  {
    hide StepBy, Ascending, Spread;
    if s == t {
    } else {
      NeverWorse(v, history, s, t - 1);
      assert Follows(v, history[t - 1], history[(t - 1) + 1]);
    }
  }

  /** The body of the loop. */
  method Iterate(v: seq<real>, centers: seq<real>) returns (now: seq<real>)
    requires Ascending(centers) && centers != []
    ensures |now| == |centers| && Follows(v, centers, now) && Ascending(now)
  {
    hide Spread, NewCenter, Ascending, SplitAssignment;
    var assign := AssignByMidpoints(v, centers);
    SplitLength(v, centers, assign);
    now := NewCenters(v, assign, centers);
    StepFollows(v, assign, centers, now);
  }

  /** The loop, from ordered centers. */
  method Loop(v: seq<real>, start: seq<real>, iters: nat) returns (centers: seq<real>, ghost history: seq<seq<real>>)
    requires Ascending(start) && start != []
    ensures |centers| == |start| && Ascending(centers) && Spread(v, centers) <= Spread(v, start)
    ensures RanToStop(history, iters) && Iterated(v, history)
    ensures history[0] == start && history[|history| - 1] == centers
  {
    hide Spread, AllClose, Follows, Progress, RanToStop, Iterated, Ascending;
    centers, history := start, [start];
    NoIterations(v, start);
    var iter := 0;
    var done := false;
    while iter < iters && !done
      invariant iter <= iters && |history| == iter + 1 && history[0] == start && history[iter] == centers
      invariant |centers| == |start| && Ascending(centers) && Progress(v, history, done)
      decreases iters - iter, !done
    {
      var newCenters := Iterate(v, centers);
      ProgressNext(v, history, newCenters);
      done := AllClose(newCenters, centers);
      centers := newCenters;
      history := history + [centers];
      iter := iter + 1;
    }
    ProgressEnds(v, history, done, iters);
    NeverWorse(v, history, 0, iter);
  }

  lemma {:induction false} NoIterations(v: seq<real>, start: seq<real>)
    ensures Progress(v, [start], false)
  {}

  /** `_kmeans_1d` on values that `np.sort` has put in order. */
  method KMeans(v: seq<real>, k: nat, iters: nat) returns (centers: seq<real>, ghost history: seq<seq<real>>)
    requires Ascending(v) && k > 0
    ensures |v| == 0 ==> |centers| == k && forall c :: 0 <= c < k ==> centers[c] == 0.0
    ensures 0 < |v| <= k ==> centers == v
    ensures Ascending(centers)
    ensures |v| > k ==>
      && |centers| == k && RanToStop(history, iters) && AtQuantiles(v, history[0], k) && Iterated(v, history)
      && history[|history| - 1] == centers && Spread(v, centers) <= Spread(v, history[0])
  {
    hide Quantile, Interp, Spread, RanToStop, Iterated;
    history := [];
    if |v| == 0 {
      centers := Repeat(0.0, k);
      return;
    }
    if |v| <= k {
      centers := v;
      return;
    }
    var start := InitialCenters(v, k);
    centers, history := Loop(v, start, iters);
  }
}
