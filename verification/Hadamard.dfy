/** The in-place fast Walsh-Hadamard transform and the sign-flip rotation built on it. */
module Hadamard {
  import opened Arith
  import opened Vectors

  function Pow2(k: nat): (n: nat)
    ensures n > 0
  {
    if k == 0 then 1 else 2 * Pow2(k - 1)
  }

  /** The transform by its recursive definition. */
  function Wht(k: nat, s: Vec): (r: Vec)
    requires |s| == Pow2(k)
    ensures |r| == |s|
    decreases k
  {
    if k == 0 then
      s
    else
      var h := Pow2(k - 1);
      var a, b := Wht(k - 1, s[..h]), Wht(k - 1, s[h..]);
      Add(a, b) + Sub(a, b)
  }

  // --- The transform as a matrix ----------------------------------------------------------

  /** Whether entry (i, j) of the Sylvester-Hadamard matrix is -1: the binary
      representations of i and j share an odd number of one bits. */
  predicate Negative(i: nat, j: nat) {
    i != 0 && j != 0 && Negative(i / 2, j / 2) != (i % 2 == 1 && j % 2 == 1)
  }

  /** Row `i` of the matrix, from column `from` on, applied to `s`. */
  function RowDot(i: nat, from: nat, s: Vec): real
    decreases |s|
  {
    if s == [] then 0.0 else (if Negative(i, from) then -s[0] else s[0]) + RowDot(i, from + 1, s[1..])
  }

  lemma {:induction false} NegativeStep(i: nat, bi: nat, j: nat, bj: nat)
    requires bi < 2 && bj < 2
    ensures Negative(2 * i + bi, 2 * j + bj) == (Negative(i, j) != (bi == 1 && bj == 1))
  {
    assert (2 * i + bi) / 2 == i && (2 * i + bi) % 2 == bi;
    assert (2 * j + bj) / 2 == j && (2 * j + bj) % 2 == bj;
  }

  lemma {:induction false} NegativeHigh(k: nat, i: nat, j: nat)
    requires i < Pow2(k) && j < Pow2(k)
    ensures Negative(i + Pow2(k), j) == Negative(i, j)
    ensures Negative(i, j + Pow2(k)) == Negative(i, j)
    ensures Negative(i + Pow2(k), j + Pow2(k)) == !Negative(i, j)
    decreases k
  {
    hide Negative;
    if k == 0 {
      NegativeStep(0, 1, 0, 1);
      NegativeStep(0, 1, 0, 0);
      NegativeStep(0, 0, 0, 1);
      NegativeStep(0, 0, 0, 0);
    } else {
      var h := Pow2(k - 1);
      var i', bi, j', bj := i / 2, i % 2, j / 2, j % 2;
      NegativeHigh(k - 1, i', j');
      NegativeStep(i', bi, j', bj);
      NegativeStep(i' + h, bi, j', bj);
      NegativeStep(i', bi, j' + h, bj);
      NegativeStep(i' + h, bi, j' + h, bj);
    }
  }

  lemma {:induction false} RowDotConcat(i: nat, from: nat, a: Vec, b: Vec)
    ensures RowDot(i, from, a + b) == RowDot(i, from, a) + RowDot(i, from + |a|, b)
    decreases |a|
  {
    if a == [] {
      assert a + b == b;
    } else {
      assert (a + b)[1..] == a[1..] + b;
      RowDotConcat(i, from + 1, a[1..], b);
    }
  }

  /** Columns of the right half repeat those of the left half, negated in the lower rows. */
  lemma {:induction false} RowDotHigh(k: nat, i: nat, from: nat, s: Vec)
    requires i < Pow2(k) && from + |s| <= Pow2(k)
    ensures RowDot(i + Pow2(k), from, s) == RowDot(i, from, s)
    ensures RowDot(i, from + Pow2(k), s) == RowDot(i, from, s)
    ensures RowDot(i + Pow2(k), from + Pow2(k), s) == -RowDot(i, from, s)
    decreases |s|
  {
    if s == [] {
      return;
    }
    NegativeHigh(k, i, from);
    hide Negative, Pow2;
    RowDotHigh(k, i, from + 1, s[1..]);
  }

  lemma {:induction false} WhtZero(s: Vec)
    requires |s| == 1
    ensures Wht(0, s) == s
  {}

  lemma {:induction false} RowDotZero(s: Vec)
    requires |s| == 1
    ensures RowDot(0, 0, s) == s[0]
  {
    assert RowDot(0, 0, s) == s[0] + RowDot(0, 1, s[1..]);
  }

  /** One step of the recursion, on the two halves. */
  lemma {:induction false} WhtJoin(k: nat, a: Vec, b: Vec)
    requires |a| == |b| == Pow2(k)
    ensures Wht(k + 1, a + b) == Add(Wht(k, a), Wht(k, b)) + Sub(Wht(k, a), Wht(k, b))
  {
    hide Add, Sub;
    assert (a + b)[..Pow2(k)] == a && (a + b)[Pow2(k)..] == b;
  }

  lemma {:induction false} Halves(k: nat, s: Vec) returns (a: Vec, b: Vec)
    requires k > 0 && |s| == Pow2(k)
    ensures |a| == |b| == Pow2(k - 1) && s == a + b
  {
    a, b := s[..Pow2(k - 1)], s[Pow2(k - 1)..];
  }

  lemma {:induction false} WhtMatrixStep(k: nat, a: Vec, b: Vec, i: nat)
    requires |a| == |b| == Pow2(k) && i < |a|
    requires Wht(k, a)[i] == RowDot(i, 0, a) && Wht(k, b)[i] == RowDot(i, 0, b)
    ensures Wht(k + 1, a + b)[i] == RowDot(i, 0, a + b)
    ensures Wht(k + 1, a + b)[i + |a|] == RowDot(i + |a|, 0, a + b)
  {
    hide Wht, RowDot, Pow2, Add, Sub;
    WhtJoin(k, a, b);
    RowDotConcat(i, 0, a, b);
    RowDotConcat(i + |a|, 0, a, b);
    RowDotHigh(k, i, 0, a);
    RowDotHigh(k, i, 0, b);
  }

  /** Every output is the matrix row applied to the input. */
  lemma {:induction false} WhtIsMatrix(k: nat, s: Vec, i: nat)
    requires |s| == Pow2(k) && i < |s|
    ensures Wht(k, s)[i] == RowDot(i, 0, s)
    decreases k
  {
    hide Wht, RowDot;
    if k == 0 {
      WhtZero(s);
      RowDotZero(s);
    } else {
      var a, b := Halves(k, s);
      var r := if i < |a| then i else i - |a|;
      WhtIsMatrix(k - 1, a, r);
      WhtIsMatrix(k - 1, b, r);
      WhtMatrixStep(k - 1, a, b, r);
    }
  }

  // --- Algebra of the transform -------------------------------------------------------------

  /** The transform is linear at these two vectors. */
  ghost predicate LinearAt(k: nat, x: Vec, y: Vec)
    requires |x| == |y| == Pow2(k)
  {
    Wht(k, Add(x, y)) == Add(Wht(k, x), Wht(k, y)) && Wht(k, Sub(x, y)) == Sub(Wht(k, x), Wht(k, y))
  }

  lemma {:induction false} WhtLinearStep(k: nat, a: Vec, b: Vec, c: Vec, d: Vec)
    requires |a| == |b| == |c| == |d| == Pow2(k)
    requires LinearAt(k, a, c) && LinearAt(k, b, d)
    ensures LinearAt(k + 1, a + b, c + d)
  {
    hide Wht, Add, Sub, Pow2;
    AddSubConcat(a, b, c, d);
    WhtJoin(k, a, b);
    WhtJoin(k, c, d);
    WhtJoin(k, Add(a, c), Add(b, d));
    WhtJoin(k, Sub(a, c), Sub(b, d));
    var wa, wb, wc, wd := Wht(k, a), Wht(k, b), Wht(k, c), Wht(k, d);
    AddSubConcat(Add(wa, wb), Sub(wa, wb), Add(wc, wd), Sub(wc, wd));
    Interchange(wa, wc, wb, wd);
  }

  lemma {:induction false} WhtLinear(k: nat, x: Vec, y: Vec)
    requires |x| == |y| == Pow2(k)
    ensures Wht(k, Add(x, y)) == Add(Wht(k, x), Wht(k, y))
    ensures Wht(k, Sub(x, y)) == Sub(Wht(k, x), Wht(k, y))
    decreases k
  {
    hide Wht, Add, Sub;
    if k == 0 {
      WhtZero(x);
      WhtZero(y);
      WhtZero(Add(x, y));
      WhtZero(Sub(x, y));
    } else {
      var a, b := Halves(k, x);
      var c, d := Halves(k, y);
      WhtLinear(k - 1, a, c);
      WhtLinear(k - 1, b, d);
      WhtLinearStep(k - 1, a, b, c, d);
    }
  }

  lemma {:induction false} WhtTwiceStep(k: nat, a: Vec, b: Vec, n: real)
    requires |a| == |b| == Pow2(k)
    requires Wht(k, Wht(k, a)) == Scale(n, a) && Wht(k, Wht(k, b)) == Scale(n, b)
    ensures Wht(k + 1, Wht(k + 1, a + b)) == Scale(Times(2.0, n), a + b)
  {
    hide Wht, Add, Sub, Scale, Pow2;
    var wa, wb := Wht(k, a), Wht(k, b);
    WhtJoin(k, a, b);
    WhtJoin(k, Add(wa, wb), Sub(wa, wb));
    WhtLinear(k, wa, wb);
    SumAndDifference(Scale(n, a), Scale(n, b));
    ScaleTwice(2.0, n, a);
    ScaleTwice(2.0, n, b);
    ScaleConcat(Times(2.0, n), a, b);
  }

  /** The transform is its own inverse up to the factor n. */
  lemma {:induction false} WhtTwice(k: nat, s: Vec)
    requires |s| == Pow2(k)
    ensures Wht(k, Wht(k, s)) == Scale(Pow2(k) as real, s)
    decreases k
  {
    hide Wht, Scale;
    if k == 0 {
      WhtZero(s);
    } else {
      var a, b := Halves(k, s);
      WhtTwice(k - 1, a);
      WhtTwice(k - 1, b);
      WhtTwiceStep(k - 1, a, b, Pow2(k - 1) as real);
    }
  }

  lemma {:induction false} WhtDotStep(k: nat, a: Vec, b: Vec, c: Vec, d: Vec, n: real)
    requires |a| == |b| == |c| == |d| == Pow2(k)
    requires Dot(Wht(k, a), Wht(k, c)) == Times(n, Dot(a, c))
    requires Dot(Wht(k, b), Wht(k, d)) == Times(n, Dot(b, d))
    ensures Dot(Wht(k + 1, a + b), Wht(k + 1, c + d)) == Times(2.0 * n, Dot(a + b, c + d))
  {
    hide Wht, Add, Sub, Dot, Pow2, Times;
    WhtJoin(k, a, b);
    WhtJoin(k, c, d);
    var wa, wb, wc, wd := Wht(k, a), Wht(k, b), Wht(k, c), Wht(k, d);
    DotConcat(Add(wa, wb), Sub(wa, wb), Add(wc, wd), Sub(wc, wd));
    DotButterfly(wa, wb, wc, wd);
    DotConcat(a, b, c, d);
    Distribute(n, Dot(a, c), Dot(b, d));
  }

  lemma {:induction false} TimesOne(x: real)
    ensures Times(1.0, x) == x
  {}

  lemma {:induction false} Distribute(n: real, p: real, q: real)
    ensures 2.0 * Times(n, p) + 2.0 * Times(n, q) == Times(2.0 * n, p + q)
  {}

  /** The transform scales every inner product by n. */
  lemma {:induction false} WhtDot(k: nat, x: Vec, y: Vec)
    requires |x| == |y| == Pow2(k)
    ensures Dot(Wht(k, x), Wht(k, y)) == Times(Pow2(k) as real, Dot(x, y))
    decreases k
  {
    hide Wht, Dot, Times;
    if k == 0 {
      WhtZero(x);
      WhtZero(y);
      TimesOne(Dot(x, y));
    } else {
      var a, b := Halves(k, x);
      var c, d := Halves(k, y);
      WhtDot(k - 1, a, c);
      WhtDot(k - 1, b, d);
      WhtDotStep(k - 1, a, b, c, d, Pow2(k - 1) as real);
    }
  }

  // --- The in-place loops -------------------------------------------------------------------

  /** `s` with every whole block of length 2^j transformed: the state after j rounds. */
  function Level(j: nat, s: Vec): (r: Vec)
    ensures |r| == |s|
    decreases |s|
  {
    var w := Pow2(j);
    if |s| < w then s else Wht(j, s[..w]) + Level(j, s[w..])
  }

  lemma {:induction false} LevelCons(j: nat, block: Vec, s: Vec)
    requires |block| == Pow2(j)
    ensures Level(j, block + s) == Wht(j, block) + Level(j, s)
  {
    hide Wht;
    assert (block + s)[..Pow2(j)] == block && (block + s)[Pow2(j)..] == s;
  }

  lemma {:induction false} LevelEmpty(j: nat)
    ensures Level(j, []) == []
  {}

  lemma {:induction false} LevelZero(s: Vec)
    ensures Level(0, s) == s
    decreases |s|
  {
    hide Wht, Level;
    if s == [] {
      LevelEmpty(0);
    } else {
      LevelCons(0, [s[0]], s[1..]);
      WhtZero([s[0]]);
      LevelZero(s[1..]);
      assert s == [s[0]] + s[1..];
    }
  }

  lemma {:induction false} LevelWhole(k: nat, s: Vec)
    requires |s| == Pow2(k)
    ensures Level(k, s) == Wht(k, s)
  {
    hide Wht, Level;
    assert s == s + [];
    LevelCons(k, s, []);
    LevelEmpty(k);
  }

  lemma {:induction false} LevelSnoc(j: nat, s: Vec, q: nat, block: Vec)
    requires |s| == q * Pow2(j) && |block| == Pow2(j)
    ensures Level(j, s + block) == Level(j, s) + Wht(j, block)
    decreases q
  {
    hide Wht, Level;
    LevelEmpty(j);
    if q == 0 {
      assert s == [] && s + block == block + [];
      LevelCons(j, block, []);
    } else {
      var head, tail := TakeBlock(j, s, q);
      assert s + block == head + (tail + block);
      LevelCons(j, head, tail);
      LevelCons(j, head, tail + block);
      LevelSnoc(j, tail, q - 1, block);
    }
  }

  lemma {:induction false} TakeBlock(j: nat, s: Vec, q: nat) returns (head: Vec, tail: Vec)
    requires q > 0 && |s| == q * Pow2(j)
    ensures s == head + tail && |head| == Pow2(j) && |tail| == (q - 1) * Pow2(j)
  {
    hide Pow2;
    var w := Pow2(j);
    MulAdd(q - 1, 1, w);
    head, tail := s[..w], s[w..];
  }

  /** `after` in the first i places of the two blocks, `before` everywhere else. */
  ghost predicate Mixed(before: Vec, after: Vec, now: Vec, block: nat, step: nat, i: nat) {
    |now| == |before| == |after|
    && forall x :: 0 <= x < |now| ==>
      now[x] == if block <= x < block + i || block + step <= x < block + step + i then after[x] else before[x]
  }

  lemma {:induction false} MixedNext(before: Vec, after: Vec, now: Vec, block: nat, step: nat, i: nat)
    requires Mixed(before, after, now, block, step, i) && IsPair(before, after, block, step) && i < step
    ensures block + step + i < |now|
    ensures var x, y := now[block + i], now[block + step + i];
      Mixed(before, after, now[block + i := x + y][block + step + i := x - y], block, step, i + 1)
  {
    assert PairAt(before, after, block, step, block + i) && PairAt(before, after, block, step, block + step + i);
  }

  lemma {:induction false} MixedEnds(before: Vec, after: Vec, now: Vec, block: nat, step: nat)
    requires IsPair(before, after, block, step)
    ensures Mixed(before, after, before, block, step, 0)
    ensures Mixed(before, after, now, block, step, step) ==> now == after
  {
    if Mixed(before, after, now, block, step, step) {
      forall x | 0 <= x < |now| ensures now[x] == after[x] {
        assert PairAt(before, after, block, step, x);
      }
    }
  }

  function Joined(p: Vec, a: Vec, b: Vec, r: Vec): Vec {
    p + a + b + r
  }

  lemma {:induction false} JoinedAt(p: Vec, a: Vec, b: Vec, r: Vec, x: nat)
    requires |a| == |b| && x < |p| + 2 * |a| + |r|
    ensures |Joined(p, a, b, r)| == |p| + 2 * |a| + |r|
    ensures Joined(p, a, b, r)[x] ==
      if x < |p| then p[x]
      else if x < |p| + |a| then a[x - |p|]
      else if x < |p| + 2 * |a| then b[x - |p| - |a|]
      else r[x - |p| - 2 * |a|]
  {}

  /** The two sides of the sum or difference at one place. */
  lemma {:induction false} PlaceAt(p: Vec, a: Vec, b: Vec, r: Vec, x: nat)
    requires |a| == |b| && x < |p| + 2 * |a| + |r|
    ensures var before, after := Joined(p, a, b, r), Joined(p, Add(a, b), Sub(a, b), r);
      |before| == |after| == |p| + 2 * |a| + |r| && PairAt(before, after, |p|, |a|, x)
  {
    hide Joined, Add, Sub;
    JoinedAt(p, a, b, r, x);
    JoinedAt(p, Add(a, b), Sub(a, b), r, x);
    if |p| <= x < |p| + |a| {
      JoinedAt(p, a, b, r, x + |a|);
    } else if |p| + |a| <= x < |p| + 2 * |a| {
      JoinedAt(p, a, b, r, x - |a|);
    }
  }

  /** The places of the two blocks. */
  lemma {:induction false} Places(p: Vec, a: Vec, b: Vec, r: Vec)
    requires |a| == |b|
    ensures IsPair(Joined(p, a, b, r), Joined(p, Add(a, b), Sub(a, b), r), |p|, |a|)
  {
    var before, after := Joined(p, a, b, r), Joined(p, Add(a, b), Sub(a, b), r);
    assert |before| == |after| == |p| + 2 * |a| + |r|;
    hide Joined, Add, Sub, PairAt;
    forall x | 0 <= x < |before| ensures PairAt(before, after, |p|, |a|, x) {
      PlaceAt(p, a, b, r, x);
    }
  }

  /** `after` has the sums and differences of two neighbouring blocks of `before`. */
  ghost predicate IsPair(before: Vec, after: Vec, block: nat, step: nat) {
    && |before| == |after| && block + 2 * step <= |before|
    && forall x :: 0 <= x < |before| ==> PairAt(before, after, block, step, x)
  }

  ghost predicate PairAt(before: Vec, after: Vec, block: nat, step: nat, x: nat)
    requires |before| == |after| && block + 2 * step <= |before| && x < |before|
  {
    after[x] ==
      if block <= x < block + step then before[x] + before[x + step]
      else if block + step <= x < block + 2 * step then before[x - step] - before[x]
      else before[x]
  }

  /** The innermost loop. */
  method SumsAndDifferences(values: array<real>, block: nat, step: nat, ghost after: Vec)
    requires IsPair(values[..], after, block, step)
    modifies values
    ensures values[..] == after
  {
    ghost var before := values[..];
    MixedEnds(before, after, before, block, step);
    hide Mixed, IsPair;
    var i := 0;
    while i < step
      invariant i <= step && Mixed(before, after, values[..], block, step, i)
    {
      ghost var now := values[..];
      MixedNext(before, after, now, block, step, i);
      var x := values[block + i];
      var y := values[block + step + i];
      values[block + i] := x + y;
      assert values[..] == now[block + i := x + y];
      values[block + step + i] := x - y;
      i := i + 1;
    }
    MixedEnds(before, after, values[..], block, step);
  }

  /** One pass of the innermost loop: neighbouring blocks a and b become a + b and a - b. */
  method Butterfly(values: array<real>, block: nat, step: nat, ghost p: Vec, ghost a: Vec, ghost b: Vec, ghost r: Vec)
    requires |p| == block && |a| == |b| == step
    requires values[..] == p + a + b + r
    modifies values
    ensures values[..] == p + Add(a, b) + Sub(a, b) + r
  {
    Places(p, a, b, r);
    hide Add, Sub, IsPair;
    SumsAndDifferences(values, block, step, Joined(p, Add(a, b), Sub(a, b), r));
  }

  lemma {:induction false} AdvanceBlock(j: nat, q: nat, p: Vec, x: Vec, y: Vec)
    requires |p| == q * Pow2(j + 1) && |x| == |y| == Pow2(j)
    ensures Level(j + 1, p + (x + y))
         == Level(j + 1, p) + (Add(Wht(j, x), Wht(j, y)) + Sub(Wht(j, x), Wht(j, y)))
  {
    hide Wht, Level, Add, Sub;
    LevelSnoc(j + 1, p, q, x + y);
    WhtJoin(j, x, y);
  }

  lemma {:induction false} NextPair(j: nat, rest: Vec) returns (x: Vec, y: Vec, r: Vec)
    requires |rest| >= 2 * Pow2(j)
    ensures |x| == |y| == Pow2(j) && rest == x + (y + r)
    ensures Level(j, rest) == Wht(j, x) + (Wht(j, y) + Level(j, r))
  {
    hide Wht, Level;
    var w := Pow2(j);
    x, y, r := rest[..w], rest[w..2 * w], rest[2 * w..];
    LevelCons(j, y, r);
    LevelCons(j, x, y + r);
  }

  lemma {:induction false} Regroup(a: Vec, b: Vec, c: Vec, d: Vec)
    ensures a + (b + (c + d)) == a + b + c + d
    ensures a + (b + c) + d == a + b + c + d
  {}

  /** A round of butterflies: blocks of length 2^j become blocks of length 2^(j+1). */
  method Round(values: array<real>, step: nat, ghost j: nat, ghost total: nat, ghost orig: Vec)
    requires step == Pow2(j) && values.Length == total * (2 * step)
    requires |orig| == values.Length && values[..] == Level(j, orig)
    modifies values
    ensures values[..] == Level(j + 1, orig)
  {
    var block := 0;
    ghost var q, done, rest := 0, [], orig;
    LevelEmpty(j + 1);
    hide Wht, Level, Add, Sub;
    while block < values.Length
      invariant block == q * (2 * step) == |done| && q <= total
      invariant orig == done + rest
      invariant values[..] == Level(j + 1, done) + Level(j, rest)
      decreases values.Length - block
    {
      WholeBlocks(q, total, 2 * step);
      ghost var x, y, r := NextPair(j, rest);
      ghost var a, b := Wht(j, x), Wht(j, y);
      ghost var p, tail := Level(j + 1, done), Level(j, r);
      Regroup(p, a, b, tail);
      Butterfly(values, block, step, p, a, b, tail);
      AdvanceBlock(j, q, done, x, y);
      Regroup(p, Add(a, b), Sub(a, b), tail);
      Regroup(done, x, y, r);
      done, rest := done + (x + y), r;
      block := block + 2 * step;
      q := q + 1;
    }
    LevelEmpty(j);
    assert rest == [] && done == orig;
  }

  lemma {:induction false} WholeBlocks(q: nat, total: nat, w: nat)
    requires q * w < total * w
    ensures q + 1 <= total && (q + 1) * w == q * w + w <= total * w
  {
    MulAdd(q, 1, w);
    if q >= total {
      MulMono(total, q, w);
    }
    MulMono(q + 1, total, w);
  }

  lemma {:induction false} Pow2Add(a: nat, b: nat)
    ensures Pow2(a + b) == Pow2(a) * Pow2(b)
    decreases a
  {
    if a == 0 {
    } else {
      Pow2Add(a - 1, b);
      assert Pow2(a) == 2 * Pow2(a - 1) && Pow2(a + b) == 2 * Pow2(a - 1 + b);
      hide Pow2;
      MulAdd(Pow2(a - 1), Pow2(a - 1), Pow2(b));
    }
  }

  lemma {:induction false} Pow2Monotone(a: nat, b: nat)
    ensures a <= b <==> Pow2(a) <= Pow2(b)
    decreases a
  {
    if a > 0 && b > 0 {
      Pow2Monotone(a - 1, b - 1);
    }
  }

  /** Below k there are whole pairs of blocks of one step size. */
  lemma {:induction false} WholePairs(k: nat, j: nat)
    requires Pow2(j) < Pow2(k)
    ensures j < k && Pow2(j + 1) == 2 * Pow2(j) && Pow2(k) == Pow2(k - j - 1) * (2 * Pow2(j))
  {
    Pow2Monotone(k, j);
    Pow2Add(k - j - 1, j + 1);
  }

  /** `hadamard`: log2(n) rounds of butterflies, each in place. */
  method Transform(values: array<real>, ghost k: nat)
    requires values.Length == Pow2(k)
    modifies values
    ensures values[..] == Wht(k, old(values[..]))
  {
    ghost var orig := values[..];
    var step := 1;
    ghost var j := 0;
    LevelZero(orig);
    hide Wht, Level, Pow2;
    while step < values.Length
      invariant j <= k && step == Pow2(j)
      invariant values[..] == Level(j, orig)
      decreases k - j
    {
      WholePairs(k, j);
      Round(values, step, j, Pow2(k - j - 1), orig);
      step := 2 * step;
      j := j + 1;
    }
    Pow2Monotone(k, j);
    LevelWhole(k, orig);
  }

  // --- Rotation -----------------------------------------------------------------------------

  /** The zero-padded vector with every coordinate multiplied by its sign entry. */
  function SignFlip(raw: Vec, signs: Vec): (r: Vec)
    requires |raw| <= |signs|
    ensures |r| == |signs|
    ensures forall i :: 0 <= i < |r| ==> r[i] == if i < |raw| then Times(raw[i], signs[i]) else 0.0
    decreases |signs|
  {
    if signs == [] then []
    else if raw == [] then [0.0] + SignFlip([], signs[1..])
    else [Times(raw[0], signs[0])] + SignFlip(raw[1..], signs[1..])
  }

  function Rotated(k: nat, raw: Vec, signs: Vec): (r: Vec)
    requires |raw| <= |signs| == Pow2(k)
    ensures |r| == |signs|
  {
    Wht(k, SignFlip(raw, signs))
  }

  /** The sum over the raw coordinates from `j` on, each times its sign and the sign at column j of row i. */
  function EntrySum(i: nat, j: nat, raw: Vec, signs: Vec): real
    requires |raw| <= |signs|
    decreases |raw| - j
  {
    if j >= |raw| then 0.0
    else (if Negative(i, j) then -Times(raw[j], signs[j]) else Times(raw[j], signs[j])) + EntrySum(i, j + 1, raw, signs)
  }

  lemma {:induction false} RowDotNext(i: nat, j: nat, s: Vec)
    requires j < |s|
    ensures RowDot(i, j, s[j..]) == (if Negative(i, j) then -s[j] else s[j]) + RowDot(i, j + 1, s[j + 1..])
  {
    assert s[j..][1..] == s[j + 1..];
  }

  lemma {:induction false} RowDotEnd(i: nat, s: Vec)
    ensures RowDot(i, |s|, s[|s|..]) == 0.0
  {}

  lemma {:induction false} EntryFrom(i: nat, j: nat, raw: Vec, signs: Vec)
    requires j <= |signs| && |raw| <= |signs|
    ensures RowDot(i, j, SignFlip(raw, signs)[j..]) == EntrySum(i, j, raw, signs)
    decreases |signs| - j
  {
    hide Negative, RowDot, SignFlip, Times;
    var s := SignFlip(raw, signs);
    if j == |signs| {
      RowDotEnd(i, s);
    } else {
      RowDotNext(i, j, s);
      EntryFrom(i, j + 1, raw, signs);
    }
  }

  /** A coordinate of the rotated vector, as a sum over the raw ones. */
  lemma {:induction false} RotatedEntry(k: nat, raw: Vec, signs: Vec, i: nat)
    requires |raw| <= |signs| == Pow2(k) && i < |signs|
    ensures Rotated(k, raw, signs)[i] == EntrySum(i, 0, raw, signs)
  {
    hide Wht, RowDot, SignFlip, EntrySum;
    WhtIsMatrix(k, SignFlip(raw, signs), i);
    EntryFrom(i, 0, raw, signs);
    assert SignFlip(raw, signs)[0..] == SignFlip(raw, signs);
  }

  /** `rotate` */
  method Rotate(raw: Vec, signs: Vec, ghost k: nat) returns (result: array<real>)
    requires |raw| <= |signs| == Pow2(k)
    ensures fresh(result) && result[..] == Rotated(k, raw, signs)
  {
    result := new real[|signs|](_ => 0.0);
    var i := 0;
    while i < |raw|
      invariant i <= |raw|
      invariant forall x :: 0 <= x < |signs| ==> result[x] == if x < i then Times(raw[x], signs[x]) else 0.0
    {
      result[i] := raw[i] * signs[i];
      i := i + 1;
    }
    assert result[..] == SignFlip(raw, signs);
    Transform(result, k);
  }

  /** Every sign entry is plus or minus one over the square root of n. */
  predicate UnitSigns(signs: Vec) {
    SquaresTo(signs, |signs| as real)
  }

  predicate SquaresTo(signs: Vec, n: real) {
    forall i :: 0 <= i < |signs| ==> signs[i] * signs[i] * n == 1.0
  }

  lemma {:induction false} DotZeros(a: Vec, b: Vec)
    requires |a| == |b| && forall i :: 0 <= i < |a| ==> a[i] == 0.0
    ensures Dot(a, b) == 0.0
    decreases |a|
  {
    if a == [] {
    } else {
      DotZeros(a[1..], b[1..]);
    }
  }

  lemma {:induction false} SquareFactor(x: real, y: real, s: real, n: real)
    requires s * s * n == 1.0
    ensures Times(n, Times(Times(x, s), Times(y, s))) == Times(x, y)
  {
    assert n * ((x * s) * (y * s)) == (x * y) * (s * s * n);
  }

  lemma {:induction false} TimesAdd(n: real, x: real, y: real)
    ensures Times(n, x + y) == Times(n, x) + Times(n, y)
  {}

  lemma {:induction false} SignFlipTail(x: Vec, signs: Vec)
    requires 0 < |x| <= |signs|
    ensures SignFlip(x, signs)[0] == Times(x[0], signs[0])
    ensures SignFlip(x, signs)[1..] == SignFlip(x[1..], signs[1..])
  {}

  lemma {:induction false} SignFlipDotCons(x: Vec, y: Vec, signs: Vec)
    requires 0 < |x| == |y| <= |signs|
    ensures Dot(SignFlip(x, signs), SignFlip(y, signs))
      == Times(Times(x[0], signs[0]), Times(y[0], signs[0]))
        + Dot(SignFlip(x[1..], signs[1..]), SignFlip(y[1..], signs[1..]))
  {
    SignFlipTail(x, signs);
    SignFlipTail(y, signs);
    hide SignFlip, Dot, Times;
    DotCons(SignFlip(x, signs), SignFlip(y, signs));
  }

  lemma {:induction false} FirstFactor(x: real, y: real, signs: Vec, n: real)
    requires SquaresTo(signs, n) && signs != []
    ensures Times(n, Times(Times(x, signs[0]), Times(y, signs[0]))) == Times(x, y) && SquaresTo(signs[1..], n)
  {
    SquareFactor(x, y, signs[0], n);
    hide Times;
  }

  /** Sign flipping shrinks inner products by exactly n. */
  lemma {:induction false} SignFlipDot(x: Vec, y: Vec, signs: Vec, n: real)
    requires |x| == |y| <= |signs|
    requires SquaresTo(signs, n)
    ensures Times(n, Dot(SignFlip(x, signs), SignFlip(y, signs))) == Dot(x, y)
    decreases |x|
  {
    if x == [] {
      DotZeros(SignFlip(x, signs), SignFlip(y, signs));
      return;
    }
    SignFlipDotCons(x, y, signs);
    DotCons(x, y);
    FirstFactor(x[0], y[0], signs, n);
    hide Dot, SignFlip, Times, SquaresTo;
    SignFlipDot(x[1..], y[1..], signs[1..], n);
    TimesAdd(n, Times(Times(x[0], signs[0]), Times(y[0], signs[0])),
             Dot(SignFlip(x[1..], signs[1..]), SignFlip(y[1..], signs[1..])));
  }

  /** Rotation preserves every inner product of the unpadded inputs. */
  lemma {:induction false} RotatedDot(k: nat, x: Vec, y: Vec, signs: Vec)
    requires |x| == |y| <= |signs| == Pow2(k) && UnitSigns(signs)
    ensures Dot(Rotated(k, x, signs), Rotated(k, y, signs)) == Dot(x, y)
  {
    hide Wht, SignFlip, Dot;
    WhtDot(k, SignFlip(x, signs), SignFlip(y, signs));
    SignFlipDot(x, y, signs, |signs| as real);
  }

  lemma {:induction false} SignFlipSub(x: Vec, y: Vec, signs: Vec)
    requires |x| == |y| <= |signs|
    ensures SignFlip(Sub(x, y), signs) == Sub(SignFlip(x, signs), SignFlip(y, signs))
  {
    hide SignFlip, Sub;
    forall i | 0 <= i < |x|
      ensures Times(x[i] - y[i], signs[i]) == Times(x[i], signs[i]) - Times(y[i], signs[i])
    {
    }
    hide Times;
    assert SignFlip(Sub(x, y), signs) == Sub(SignFlip(x, signs), SignFlip(y, signs));
  }

  /** Rotation preserves every squared distance. */
  lemma {:induction false} RotatedSqDist(k: nat, x: Vec, y: Vec, signs: Vec)
    requires |x| == |y| <= |signs| == Pow2(k) && UnitSigns(signs)
    ensures SqDist(Rotated(k, x, signs), Rotated(k, y, signs)) == SqDist(x, y)
  {
    hide Wht, SignFlip, Dot, Add, Sub, UnitSigns;
    var d := Sub(x, y);
    SignFlipSub(x, y, signs);
    WhtLinear(k, SignFlip(x, signs), SignFlip(y, signs));
    RotatedDot(k, d, d, signs);
  }
}
