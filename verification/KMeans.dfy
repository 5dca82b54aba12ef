/** `train_kmeans_centroids`: the loops over samples, centers and coordinates. A row-major
    matrix is a two-dimensional array. */
module KMeans {
  import opened Vectors
  import opened Lloyd

  /** The matrix holds the rows `cs`. */
  ghost predicate Holds(m: array2<real>, cs: seq<Vec>, dim: nat)
    reads m
  {
    && m.Length0 == |cs| && m.Length1 == dim && Shaped(cs, dim)
    && forall c, j :: 0 <= c < |cs| && 0 <= j < dim ==> m[c, j] == cs[c][j]
  }

  /** The distance loop. */
  method Distance(x: Vec, centroids: array2<real>, c: nat, ghost cs: seq<Vec>) returns (d: real)
    requires Holds(centroids, cs, |x|) && c < |cs|
    ensures d == Dist(x, cs[c])
  {
    d := 0.0;
    hide Square;
    var j := 0;
    while j < |x|
      invariant j <= |x| && d == D(x, cs[c], j)
    {
      var diff := x[j] - centroids[c, j];
      d := d + Square(diff);
      j := j + 1;
    }
  }

  /** The loop over the centers for one sample: the first strictly smaller distance wins. */
  method FindNearest(x: Vec, centroids: array2<real>, ghost cs: seq<Vec>) returns (best: nat)
    requires Holds(centroids, cs, |x|) && cs != []
    ensures best == Argmin(x, cs, |cs|)
  {
    hide Dist;
    best := 0;
    var bestD := Distance(x, centroids, 0, cs);
    var c := 1;
    while c < centroids.Length0
      invariant 1 <= c <= |cs| && best == Argmin(x, cs, c) && bestD == Dist(x, cs[best])
    {
      var d := Distance(x, centroids, c, cs);
      if d < bestD {
        best, bestD := c, d;
      }
      c := c + 1;
    }
  }

  /** `next` and `counts` hold the sums and sizes of the clusters over the first n samples. */
  ghost predicate Tallied(next: array2<real>, counts: array<nat>, xs: seq<Vec>, a: seq<nat>, dim: nat, k: nat, n: nat)
    requires Shaped(xs, dim) && |a| == |xs| && n <= |xs|
    reads next, counts
  {
    && next.Length0 == k && next.Length1 == dim && counts.Length == k
    && (forall c :: 0 <= c < k ==> counts[c] == Count(a, c, n))
    && forall c, j :: 0 <= c < k && 0 <= j < dim ==> next[c, j] == Sum(xs, a, dim, c, j, n)
  }

  /** Clear both buffers. */
  method Clear(next: array2<real>, counts: array<nat>)
    requires counts.Length == next.Length0
    modifies next, counts
    ensures forall c :: 0 <= c < counts.Length ==> counts[c] == 0
    ensures forall c, j :: 0 <= c < next.Length0 && 0 <= j < next.Length1 ==> next[c, j] == 0.0
  {
    forall c, j | 0 <= c < next.Length0 && 0 <= j < next.Length1 {
      next[c, j] := 0.0;
    }
    forall c | 0 <= c < counts.Length {
      counts[c] := 0;
    }
  }

  /** Add one sample to its cluster. */
  method AddSample(xs: seq<Vec>, ghost a: seq<nat>, i: nat, best: nat, next: array2<real>, counts: array<nat>, dim: nat)
    requires Shaped(xs, dim) && |a| == |xs| && i < |xs| && a[i] == best < counts.Length
    requires Tallied(next, counts, xs, a, dim, counts.Length, i)
    modifies next, counts
    ensures Tallied(next, counts, xs, a, dim, counts.Length, i + 1)
  {
    var v := xs[i];
    ghost var k := counts.Length;
    var j := 0;
    while j < dim
      invariant j <= dim
      invariant forall c :: 0 <= c < k ==> counts[c] == old(counts[c])
      invariant forall c, l :: 0 <= c < k && 0 <= l < dim ==>
        next[c, l] == Sum(xs, a, dim, c, l, if c == best && l < j then i + 1 else i)
    {
      next[best, j] := next[best, j] + v[j];
      j := j + 1;
    }
    counts[best] := counts[best] + 1;
    forall c | 0 <= c < k ensures counts[c] == Count(a, c, i + 1) {
      assert counts[c] == old(counts[c]) + if c == best then 1 else 0;
      assert old(counts[c]) == Count(a, c, i);
    }
    forall c, l | 0 <= c < k && 0 <= l < dim ensures next[c, l] == Sum(xs, a, dim, c, l, i + 1) {
      assert next[c, l] == Sum(xs, a, dim, c, l, if c == best && l < dim then i + 1 else i);
    }
  }

  /** The assignment half of an iteration. */
  method Tally(xs: seq<Vec>, centroids: array2<real>, ghost cs: seq<Vec>, next: array2<real>, counts: array<nat>,
               dim: nat)
    requires Shaped(xs, dim) && Holds(centroids, cs, dim) && cs != [] && next != centroids
    requires next.Length0 == |cs| && next.Length1 == dim && counts.Length == |cs|
    modifies next, counts
    ensures Tallied(next, counts, xs, Assign(xs, cs, dim), dim, |cs|, |xs|)
  {
    ghost var a := Assign(xs, cs, dim);
    Clear(next, counts);
    hide Assign, Argmin, Dist, D;
    var i := 0;
    while i < |xs|
      invariant i <= |xs|
      invariant Tallied(next, counts, xs, a, dim, |cs|, i)
    {
      var best := FindNearest(xs[i], centroids, cs);
      AddSample(xs, a, i, best, next, counts, dim);
      i := i + 1;
    }
  }

  /** Before center c, coordinate j, every center is new; from there on it is old. */
  ghost predicate PartStep(xs: seq<Vec>, a: seq<nat>, old': seq<Vec>, now: seq<Vec>, dim: nat, c: nat, j: nat)
    requires Shaped(xs, dim) && Shaped(old', dim) && |a| == |xs|
  {
    && Shaped(now, dim) && |now| == |old'|
    && forall b, l {:trigger now[b][l]} :: 0 <= b < |now| && 0 <= l < dim ==>
         now[b][l] == if b < c || (b == c && l < j) then NewCoordinate(xs, a, old', dim, b, l) else old'[b][l]
  }

  /** The update half of an iteration: each center in place, coordinate by coordinate. */
  method Update(xs: seq<Vec>, ghost a: seq<nat>, centroids: array2<real>, ghost cs: seq<Vec>, next: array2<real>,
                counts: array<nat>, dim: nat) returns (ghost now: seq<Vec>)
    requires Shaped(xs, dim) && Holds(centroids, cs, dim) && next != centroids && Assignment(a, |xs|, |cs|)
    requires Tallied(next, counts, xs, a, dim, |cs|, |xs|)
    modifies centroids
    ensures Holds(centroids, now, dim) && AllBest(xs, a, cs, now, dim)
    ensures Cost(xs, a, now, dim, |xs|) <= Cost(xs, a, cs, dim, |xs|)
  {
    now := cs;
    hide Cost, AllBest;
    var c := 0;
    while c < centroids.Length0
      invariant c <= |cs| && Holds(centroids, now, dim) && PartStep(xs, a, cs, now, dim, c, 0)
      invariant Cost(xs, a, now, dim, |xs|) <= Cost(xs, a, cs, dim, |xs|)
      invariant Tallied(next, counts, xs, a, dim, |cs|, |xs|)
    {
      if counts[c] > 0 {
        now := UpdateOne(xs, a, centroids, cs, now, next, counts, dim, c);
      }
      c := c + 1;
    }
    StepIsBest(xs, a, cs, now, dim);
  }

  lemma {:induction false} StepIsBest(xs: seq<Vec>, a: seq<nat>, before: seq<Vec>, now: seq<Vec>, dim: nat)
    requires Shaped(xs, dim) && Shaped(before, dim) && |a| == |xs|
    requires PartStep(xs, a, before, now, dim, |before|, 0)
    ensures AllBest(xs, a, before, now, dim)
  {
    hide IsBest, NewCoordinate;
    forall c, j {:trigger now[c][j]} | 0 <= c < |now| && 0 <= j < dim
      ensures IsBest(xs, a, dim, c, j, before[c][j], now[c][j])
    {
      BestIsMean(xs, a, before, dim, c, j, now[c][j]);
    }
  }

  /** The coordinates of one non-empty cluster. */
  method UpdateOne(xs: seq<Vec>, ghost a: seq<nat>, centroids: array2<real>, ghost cs: seq<Vec>, ghost before: seq<Vec>,
                   next: array2<real>, counts: array<nat>, dim: nat, c: nat) returns (ghost now: seq<Vec>)
    requires Shaped(xs, dim) && Shaped(cs, dim) && c < |cs| && next != centroids && Assignment(a, |xs|, |cs|)
    requires Tallied(next, counts, xs, a, dim, |cs|, |xs|) && counts[c] > 0
    requires Holds(centroids, before, dim) && PartStep(xs, a, cs, before, dim, c, 0)
    modifies centroids
    ensures Holds(centroids, now, dim) && PartStep(xs, a, cs, now, dim, c + 1, 0)
    ensures Cost(xs, a, now, dim, |xs|) <= Cost(xs, a, before, dim, |xs|)
  {
    now := before;
    hide Cost;
    var inv := 1.0 / counts[c] as real;
    var j := 0;
    while j < dim
      invariant j <= dim && Holds(centroids, now, dim) && PartStep(xs, a, cs, now, dim, c, j)
      invariant Cost(xs, a, now, dim, |xs|) <= Cost(xs, a, before, dim, |xs|)
      invariant Tallied(next, counts, xs, a, dim, |cs|, |xs|)
    {
      MoveToMean(xs, a, now, dim, c, j);
      assert next[c, j] == Sum(xs, a, dim, c, j, |xs|) && counts[c] == Count(a, c, |xs|);
      TimesInverse(next[c, j], counts[c] as real);
      centroids[c, j] := next[c, j] * inv;
      now := Move(now, c, j, Sum(xs, a, dim, c, j, |xs|) / Count(a, c, |xs|) as real);
      j := j + 1;
    }
  }

  lemma {:induction false} TimesInverse(s: real, n: real)
    requires n != 0.0
    ensures s * (1.0 / n) == s / n
  {}

  /** One Lloyd step, which serves the samples no worse. */
  ghost predicate Descends(xs: seq<Vec>, before: seq<Vec>, after: seq<Vec>, dim: nat) {
    && Shaped(xs, dim) && Shaped(before, dim) && Shaped(after, dim) && before != [] && after != []
    && IsStep(xs, before, after, dim)
    && Objective(xs, after, dim, |xs|) <= Objective(xs, before, dim, |xs|)
  }

  /** One iteration: exactly a Lloyd step, and the objective does not grow. */
  method Iterate(xs: seq<Vec>, centroids: array2<real>, ghost cs: seq<Vec>, next: array2<real>, counts: array<nat>,
                 dim: nat)
    returns (ghost now: seq<Vec>)
    requires Shaped(xs, dim) && Holds(centroids, cs, dim) && cs != [] && next != centroids
    requires next.Length0 == |cs| && next.Length1 == dim && counts.Length == |cs|
    modifies centroids, next, counts
    ensures Holds(centroids, now, dim) && Descends(xs, cs, now, dim) && |now| == |cs|
  {
    Tally(xs, centroids, cs, next, counts, dim);
    ghost var a := Assign(xs, cs, dim);
    now := Update(xs, a, centroids, cs, next, counts, dim);
    hide Cost, Objective, Assign;
    NearestAttains(xs, a, cs, dim, |xs|);
    ObjectiveBelowCost(xs, a, now, dim, |xs|);
  }

  /** The first centroids: the drawn samples, from the first again when there are fewer than k. */
  function Drawn(xs: seq<Vec>, k: nat): (cs: seq<Vec>)
    requires xs != []
    ensures |cs| == k && forall c :: 0 <= c < k ==> cs[c] == xs[c % |xs|]
    decreases k
  {
    if k == 0 then [] else Drawn(xs, k - 1) + [xs[(k - 1) % |xs|]]
  }

  method Draw(xs: seq<Vec>, dim: nat, k: nat) returns (centroids: array2<real>)
    requires Shaped(xs, dim) && xs != []
    ensures fresh(centroids) && Holds(centroids, Drawn(xs, k), dim)
  {
    centroids := new real[k, dim]((c, j) => 0.0);
    var c := 0;
    while c < k
      invariant c <= k
      invariant forall a, j :: 0 <= a < c && 0 <= j < dim ==> centroids[a, j] == Drawn(xs, k)[a][j]
    {
      CopyRow(centroids, c, xs[c % |xs|], dim);
      c := c + 1;
    }
  }

  method CopyRow(centroids: array2<real>, c: nat, x: Vec, dim: nat)
    requires c < centroids.Length0 && centroids.Length1 == dim == |x|
    modifies centroids
    ensures forall j :: 0 <= j < dim ==> centroids[c, j] == x[j]
    ensures forall a, j :: 0 <= a < centroids.Length0 && a != c && 0 <= j < dim ==>
      centroids[a, j] == old(centroids[a, j])
  {
    var i := 0;
    while i < dim
      invariant i <= dim
      invariant forall j :: 0 <= j < i ==> centroids[c, j] == x[j]
      invariant forall a, j :: 0 <= a < centroids.Length0 && a != c && 0 <= j < dim ==>
        centroids[a, j] == old(centroids[a, j])
    {
      centroids[c, i] := x[i];
      i := i + 1;
    }
  }

  lemma {:induction false} DrawnShaped(xs: seq<Vec>, k: nat, dim: nat)
    requires xs != [] && Shaped(xs, dim)
    ensures Shaped(Drawn(xs, k), dim)
  {}

  /** Each entry is one iteration after the one before it. */
  ghost predicate Descending(xs: seq<Vec>, history: seq<seq<Vec>>, dim: nat) {
    forall t :: 0 <= t < |history| - 1 ==> Descends(xs, history[t], history[t + 1], dim)
  }

  lemma {:induction false} DescendingNext(xs: seq<Vec>, history: seq<seq<Vec>>, now: seq<Vec>, dim: nat)
    requires Descending(xs, history, dim) && history != [] && Descends(xs, history[|history| - 1], now, dim)
    ensures Descending(xs, history + [now], dim)
  {
    hide Descends;
  }

  /** `train_kmeans_centroids` for a drawn sample: the objective falls with every iteration, so the
      centroids returned are no worse than the ones drawn. */
  method Train(xs: seq<Vec>, dim: nat, k: nat, iters: nat)
    returns (centroids: array2<real>, ghost history: seq<seq<Vec>>)
    requires Shaped(xs, dim) && xs != [] && k > 0
    ensures |history| == iters + 1 && Holds(centroids, history[iters], dim)
    ensures history[0] == Drawn(xs, k) && Descending(xs, history, dim)
    ensures forall cs :: Holds(centroids, cs, dim) && cs != [] ==> NoWorse(xs, cs, Drawn(xs, k), dim)
  {
    centroids := Draw(xs, dim, k);
    DrawnShaped(xs, k, dim);
    var next := new real[k, dim]((c, j) => 0.0);
    var counts := new nat[k](_ => 0);
    ghost var first := Drawn(xs, k);
    NoWorseStart(xs, first, dim);
    ghost var now := first;
    history := [now];
    assert Descending(xs, history, dim);
    HoldsRows(centroids, first, dim);
    hide Drawn, Descends, Descending, NoWorse, Holds, Shaped;
    var iter := 0;
    while iter < iters
      invariant iter <= iters && |history| == iter + 1 && history[iter] == now && |now| == k
      invariant Holds(centroids, now, dim) && NoWorse(xs, now, first, dim)
      invariant history[0] == first && Descending(xs, history, dim)
    {
      ghost var before := now;
      now := Iterate(xs, centroids, now, next, counts, dim);
      DescendingNext(xs, history, now, dim);
      history := history + [now];
      NoWorseNext(xs, before, now, first, dim);
      iter := iter + 1;
    }
    HoldsNoWorse(xs, centroids, now, first, dim);
  }

  lemma {:induction false} HoldsRows(m: array2<real>, cs: seq<Vec>, dim: nat)
    requires Holds(m, cs, dim)
    ensures m.Length0 == |cs| && m.Length1 == dim
  {}

  lemma {:induction false} HoldsNoWorse(xs: seq<Vec>, m: array2<real>, now: seq<Vec>, first: seq<Vec>, dim: nat)
    requires Holds(m, now, dim) && NoWorse(xs, now, first, dim)
    ensures forall cs :: Holds(m, cs, dim) && cs != [] ==> NoWorse(xs, cs, first, dim)
  {
    hide NoWorse, Holds;
    forall cs | Holds(m, cs, dim) && cs != [] ensures NoWorse(xs, cs, first, dim) {
      HoldsOne(m, cs, now, dim);
    }
  }

  /** `after` serves the samples at least as well as `before`. */
  ghost predicate NoWorse(xs: seq<Vec>, after: seq<Vec>, before: seq<Vec>, dim: nat) {
    && Shaped(xs, dim) && Shaped(before, dim) && Shaped(after, dim) && before != [] && after != []
    && Objective(xs, after, dim, |xs|) <= Objective(xs, before, dim, |xs|)
  }

  lemma {:induction false} NoWorseStart(xs: seq<Vec>, cs: seq<Vec>, dim: nat)
    requires Shaped(xs, dim) && Shaped(cs, dim) && cs != []
    ensures NoWorse(xs, cs, cs, dim)
  {}

  lemma {:induction false} NoWorseNext(xs: seq<Vec>, before: seq<Vec>, after: seq<Vec>, first: seq<Vec>, dim: nat)
    requires Descends(xs, before, after, dim) && NoWorse(xs, before, first, dim)
    ensures NoWorse(xs, after, first, dim)
  {
    hide Objective, IsStep;
  }

  /** A matrix holds one list of centroids. */
  lemma {:induction false} HoldsOne(m: array2<real>, a: seq<Vec>, b: seq<Vec>, dim: nat)
    requires Holds(m, a, dim) && Holds(m, b, dim)
    ensures a == b
  {
    forall c | 0 <= c < |a| ensures a[c] == b[c] {
      assert |a[c]| == dim && |b[c]| == dim;
      assert forall j :: 0 <= j < dim ==> a[c][j] == m[c, j] == b[c][j];
    }
  }
}
