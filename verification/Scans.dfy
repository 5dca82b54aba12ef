/** The three scans over the blocked 1-bit database. Vector registers are sequences of lanes,
    and one SIMD instruction is a loop over its lanes. */
module Scans {
  import opened Arith
  import opened Words
  import opened Vectors
  import opened Signs
  import opened Database
  import opened Hadamard
  import opened QueryCodec
  import opened BitPlanes

  /** Row r of the database holds the bit vector rows[r], for every row of a whole block. */
  ghost predicate DatabaseHolds(database: seq<bv64>, words: nat, rows: seq<Bits>) {
    && |rows| % BATCH == 0 && |database| == |rows| * words
    && forall r :: 0 <= r < |rows| ==> RowHolds(database, words, r, rows[r])
  }

  /** Every one of the first `upto` rows has its exact distance written. */
  ghost predicate Written(distances: seq<real>, rows: seq<Bits>, q: Vec, upto: nat) {
    && upto <= |rows| <= |distances|
    && forall r :: 0 <= r < upto ==> |rows[r]| == |q| && distances[r] == Distance(rows[r], q, |q|)
  }

  /** Where a scan finds word `word` of lane `lane` of block `block`. */
  function LaneIndex(words: nat, block: nat, word: nat, lane: nat): nat {
    block * (words * BATCH) + word * BATCH + lane
  }

  lemma {:induction false} LaneWord(database: seq<bv64>, words: nat, rows: seq<Bits>, block: nat, word: nat, lane: nat)
    requires DatabaseHolds(database, words, rows) && word < words
    requires lane < BATCH && BATCH * block + lane < |rows|
    ensures var k := LaneIndex(words, block, word, lane); var r := BATCH * block + lane;
            k < |database| && |rows[r]| == 64 * words && WordHolds(database[k], rows[r], word)
  {
    hide WordHolds;
    var r := BATCH * block + lane;
    assert r / BATCH == block && r % BATCH == lane;
    assert Slot(words, r, word) == (block * words + word) * BATCH + lane;
    MulAdd(block * words, word, BATCH);
    assert block * words * BATCH == block * (words * BATCH);
    assert RowHolds(database, words, r, rows[r]);
  }

  // --- FP32 scan ------------------------------------------------------------------------------

  /** `_mm512_maskz_mov_ps`: lanes with a clear mask bit become zero. */
  function MaskzMov(mask: bv64, q: Vec): (r: Vec)
    ensures |r| == |q| && forall l :: 0 <= l < |r| ==> r[l] == if Bit(mask, l) then q[l] else 0.0
    decreases |q|
  {
    if q == [] then []
    else
      var n := |q| - 1;
      MaskzMov(mask, q[..n]) + [if Bit(mask, n) then q[n] else 0.0]
  }

  /** `_mm512_reduce_add_ps` */
  function ReduceAdd(v: Vec): real {
    SumOf(v, |v|)
  }

  lemma {:induction false} ReduceAddSum(a: Vec, b: Vec, n: nat)
    requires |a| == |b| && n <= |a|
    ensures SumOf(Add(a, b), n) == SumOf(a, n) + SumOf(b, n)
    decreases n
  {
    hide Add;
    if n == 0 {
    } else {
      ReduceAddSum(a, b, n - 1);
    }
  }

  lemma {:induction false} ReduceAddMask(mask: bv64, q: Vec, x: Bits, whole: Vec, base: nat, n: nat)
    requires base + |q| <= |whole| == |x| && n <= |q|
    requires forall l :: 0 <= l < |q| ==> q[l] == whole[base + l] && Bit(mask, l) == x[base + l]
    ensures SumOf(MaskzMov(mask, q), n) == Selected(x, whole, base + n) - Selected(x, whole, base)
    decreases n
  {
    hide MaskzMov, Bit;
    if n == 0 {
    } else {
      ReduceAddMask(mask, q, x, whole, base, n - 1);
    }
  }

  lemma {:induction false} ReducePlus(a: Vec, b: Vec)
    requires |a| == |b| == 16
    ensures ReduceAdd(Add(a, b)) == ReduceAdd(a) + ReduceAdd(b)
  {
    ReduceAddSum(a, b, 16);
  }

  lemma {:induction false} ReduceMasked(mask: bv64, q: Vec, x: Bits, whole: Vec, base: nat)
    requires |q| == 16 && base + 16 <= |whole| == |x|
    requires forall l :: 0 <= l < 16 ==> q[l] == whole[base + l] && Bit(mask, l) == x[base + l]
    ensures ReduceAdd(MaskzMov(mask, q)) == Selected(x, whole, base + 16) - Selected(x, whole, base)
  {
    ReduceAddMask(mask, q, x, whole, base, 16);
    hide MaskzMov, Bit, Selected;
  }

  /** The mask of one quarter word has the bits of its coordinates. */
  lemma {:induction false} QuarterBits(word: bv64, x: Bits, w: nat, quarter: nat)
    requires quarter < 4 && 64 * w + 64 <= |x| && WordHolds(word, x, w)
    ensures forall l :: 0 <= l < 16 ==> Bit(Shr(word, 16 * quarter), l) == x[64 * w + 16 * quarter + l]
  {
    hide Bit, Shr;
    forall l | 0 <= l < 16 ensures Bit(Shr(word, 16 * quarter), l) == x[64 * w + 16 * quarter + l] {
      ShrBit(word, 16 * quarter, l);
      assert Bit(word, 16 * quarter + l) == x[64 * w + (16 * quarter + l)];
    }
  }

  /** What one masked addition adds to a candidate's accumulator. */
  lemma {:induction false} QuarterSum(acc: Vec, word: bv64, x: Bits, q: Vec, w: nat, quarter: nat)
    requires |acc| == 16 && quarter < 4 && 64 * w + 64 <= |x| == |q| && WordHolds(word, x, w)
    ensures var base := 64 * w + 16 * quarter;
            (ReduceAdd(Add(acc, MaskzMov(Shr(word, 16 * quarter), q[base..base + 16])))
             == ReduceAdd(acc) + Selected(x, q, base + 16) - Selected(x, q, base))
  {
    hide MaskzMov, Bit, Shr, Add, Selected, ReduceAdd, WordHolds;
    var base := 64 * w + 16 * quarter;
    var mask, part := Shr(word, 16 * quarter), q[base..base + 16];
    QuarterBits(word, x, w, quarter);
    ReduceMasked(mask, part, x, q, base);
    ReducePlus(acc, MaskzMov(mask, part));
  }

  /** The accumulators of 16 candidates, each summing over the coordinates below `upto`. */
  ghost predicate Accumulated(acc: seq<Vec>, rows: seq<Bits>, first: nat, q: Vec, upto: nat) {
    && |acc| == 16 && first + 16 <= |rows| && upto <= |q|
    && forall c :: 0 <= c < 16 ==> CandidateSum(acc[c], rows[first + c], q, upto)
  }

  ghost predicate CandidateSum(v: Vec, x: Bits, q: Vec, upto: nat) {
    |v| == 16 && |x| == |q| && upto <= |q| && ReduceAdd(v) == Selected(x, q, upto)
  }

  /** The loop over the 16 candidates of a group, for one quarter of one word. */
  method AddQuarter(database: seq<bv64>, words: nat, ghost rows: seq<Bits>, q: Vec, acc: array<Vec>,
                    block: nat, group: nat, word: nat, quarter: nat)
    requires DatabaseHolds(database, words, rows) && |q| == 64 * words
    requires group < 2 && word < words && quarter < 4 && BATCH * block + BATCH <= |rows|
    requires acc.Length == 16
    requires Accumulated(acc[..], rows, BATCH * block + 16 * group, q, 64 * word + 16 * quarter)
    modifies acc
    ensures Accumulated(acc[..], rows, BATCH * block + 16 * group, q, 64 * word + 16 * quarter + 16)
  {
    hide DatabaseHolds, CandidateSum, Shr, MaskzMov, Add, WordHolds, LaneIndex;
    ghost var first, base := BATCH * block + 16 * group, 64 * word + 16 * quarter;
    ghost var next := base + 16;
    var candidate := 0;
    while candidate < 16
      invariant candidate <= 16
      invariant forall c :: 0 <= c < candidate ==> CandidateSum(acc[c], rows[first + c], q, next)
      invariant forall c :: candidate <= c < 16 ==> CandidateSum(acc[c], rows[first + c], q, base)
    {
      LaneWord(database, words, rows, block, word, 16 * group + candidate);
      var dbWord := database[LaneIndex(words, block, word, 16 * group + candidate)];
      assert CandidateSum(acc[candidate], rows[first + candidate], q, base);
      ghost var v := acc[candidate];
      AddMasked(v, dbWord, rows[first + candidate], q, word, quarter);
      var at := word * 64 + quarter * 16;
      acc[candidate] := Add(acc[candidate], MaskzMov(Shr(dbWord, 16 * quarter), q[at..at + 16]));
      candidate := candidate + 1;
    }
  }

  lemma {:induction false} AddMasked(v: Vec, word: bv64, x: Bits, q: Vec, w: nat, quarter: nat)
    requires quarter < 4 && 64 * w + 64 <= |x| && WordHolds(word, x, w)
    requires CandidateSum(v, x, q, 64 * w + 16 * quarter)
    ensures |v| == 16 && 64 * w + 16 * quarter + 16 <= |q|
    ensures var at := w * 64 + quarter * 16;
      CandidateSum(Add(v, MaskzMov(Shr(word, 16 * quarter), q[at..at + 16])), x, q, 64 * w + 16 * quarter + 16)
  {
    hide Add, MaskzMov, Shr, WordHolds, ReduceAdd, Selected;
    QuarterSum(v, word, x, q, w, quarter);
  }

  /** The loops over words and quarters of one group of 16 candidates. */
  method SelectGroup(database: seq<bv64>, words: nat, ghost rows: seq<Bits>, q: Vec, block: nat, group: nat)
    returns (acc: array<Vec>)
    requires DatabaseHolds(database, words, rows) && |q| == 64 * words
    requires group < 2 && BATCH * block + BATCH <= |rows|
    ensures fresh(acc) && Accumulated(acc[..], rows, BATCH * block + 16 * group, q, |q|)
  {
    ghost var first := BATCH * block + 16 * group;
    acc := new Vec[16](_ => ZeroRegister());
    AccumulateNothing(database, words, acc[..], rows, first, q);
    hide DatabaseHolds, Accumulated;
    var word := 0;
    while word < words
      invariant word <= words && acc.Length == 16
      invariant Accumulated(acc[..], rows, first, q, 64 * word)
    {
      var quarter := 0;
      while quarter < 4
        invariant quarter <= 4 && acc.Length == 16
        invariant Accumulated(acc[..], rows, first, q, 64 * word + 16 * quarter)
      {
        AddQuarter(database, words, rows, q, acc, block, group, word, quarter);
        quarter := quarter + 1;
      }
      word := word + 1;
    }
  }

  function ZeroRegister(): (v: Vec)
    ensures |v| == 16 && forall l :: 0 <= l < 16 ==> v[l] == 0.0
  {
    [0.0, 0.0, 0.0, 0.0, 0.0, 0.0, 0.0, 0.0, 0.0, 0.0, 0.0, 0.0, 0.0, 0.0, 0.0, 0.0]
  }

  lemma {:induction false} SumOfZeros(v: Vec, n: nat)
    requires n <= |v| && forall l :: 0 <= l < n ==> v[l] == 0.0
    ensures SumOf(v, n) == 0.0
    decreases n
  {
    if n == 0 {
    } else {
      SumOfZeros(v, n - 1);
    }
  }

  lemma {:induction false} AccumulateNothing(database: seq<bv64>, words: nat, acc: seq<Vec>, rows: seq<Bits>,
                                             first: nat, q: Vec)
    requires DatabaseHolds(database, words, rows) && |q| == 64 * words
    requires |acc| == 16 && first + 16 <= |rows| && forall c :: 0 <= c < 16 ==> acc[c] == ZeroRegister()
    ensures Accumulated(acc, rows, first, q, 0)
  {
    hide ZeroRegister;
    SumOfZeros(ZeroRegister(), 16);
    forall c | 0 <= c < 16 ensures CandidateSum(acc[c], rows[first + c], q, 0) {
      assert RowHolds(database, words, first + c, rows[first + c]);
    }
  }

  /** The first `upto` rows have their exact distances, and nothing past the last row changed. */
  ghost predicate Scanned(before: seq<real>, after: seq<real>, rows: seq<Bits>, q: Vec, upto: nat) {
    && Written(after, rows, q, upto) && |after| == |before|
    && forall k :: |rows| <= k < |after| ==> after[k] == before[k]
  }

  lemma {:induction false} ScanStart(before: seq<real>, rows: seq<Bits>, q: Vec)
    requires |rows| <= |before|
    ensures Scanned(before, before, rows, q, 0)
  {}

  lemma {:induction false} ScanNext(before: seq<real>, after: seq<real>, rows: seq<Bits>, q: Vec, r: nat, d: real)
    requires Scanned(before, after, rows, q, r) && r < |rows| && |rows[r]| == |q| && d == Distance(rows[r], q, |q|)
    ensures Scanned(before, after[r := d], rows, q, r + 1)
  {
    hide Distance;
  }

  lemma {:induction false} Fp32Formula(v: Vec, x: Bits, q: Vec)
    requires CandidateSum(v, x, q, |q|)
    ensures |x| == |q|
    ensures Distance(x, q, |q|)
         == (|q| as real + Norm2(q, |q|)) - 2.0 * (2.0 * ReduceAdd(v) - SumOf(q, |q|))
  {
    hide Distance, Norm2, ReduceAdd, SignDot, Selected, SumOf;
    DistanceByDot(x, q, |q|);
    DotBySelected(x, q, |q|);
  }

  /** The last loop of a group: reduce each accumulator and write its distance. */
  method WriteGroup(acc: array<Vec>, ghost rows: seq<Bits>, q: Vec, fp32Sum: real, constant: real, first: nat,
                    distances: array<real>, ghost before: seq<real>)
    requires Accumulated(acc[..], rows, first, q, |q|)
    requires fp32Sum == SumOf(q, |q|) && constant == |q| as real + Norm2(q, |q|)
    requires Scanned(before, distances[..], rows, q, first)
    modifies distances
    ensures Scanned(before, distances[..], rows, q, first + 16)
  {
    hide CandidateSum, SumOf, Norm2, Distance, ReduceAdd, Scanned;
    ghost var sums := acc[..];
    assert distances.Length == |before| && first + 16 <= |before| by {
      assert Scanned(before, distances[..], rows, q, first);
      ScannedLength(before, distances[..], rows, q, first);
    }
    var candidate := 0;
    while candidate < 16
      invariant candidate <= 16 && sums == acc[..]
      invariant Scanned(before, distances[..], rows, q, first + candidate)
    {
      assert CandidateSum(sums[candidate], rows[first + candidate], q, |q|);
      Fp32Formula(sums[candidate], rows[first + candidate], q);
      var selected := ReduceAdd(acc[candidate]);
      var dot := 2.0 * selected - fp32Sum;
      ScanNext(before, distances[..], rows, q, first + candidate, constant - 2.0 * dot);
      distances[first + candidate] := constant - 2.0 * dot;
      candidate := candidate + 1;
    }
  }

  lemma {:induction false} ScannedLength(before: seq<real>, after: seq<real>, rows: seq<Bits>, q: Vec, upto: nat)
    requires Scanned(before, after, rows, q, upto)
    ensures |after| == |before| && upto <= |rows| <= |after|
  {}

  /** `scan_fp32`: the distance of every row of every whole block, for the raw query. */
  method ScanFp32(database: seq<bv64>, words: nat, ghost rows: seq<Bits>, count: nat, q: Vec,
                  fp32Sum: real, fp32Norm2: real, distances: array<real>)
    requires DatabaseHolds(database, words, rows) && count == |rows| <= distances.Length && |q| == 64 * words
    requires fp32Sum == SumOf(q, |q|) && fp32Norm2 == Norm2(q, |q|)
    modifies distances
    ensures Scanned(old(distances[..]), distances[..], rows, q, |rows|)
  {
    var blockCount := count / BATCH;
    assert blockCount * BATCH == count;
    var constant := (64 * words) as real + fp32Norm2;
    hide DatabaseHolds, SumOf, Norm2, Distance, Accumulated;
    ghost var before := distances[..];
    var block := 0;
    while block < blockCount
      invariant block <= blockCount
      invariant Scanned(before, distances[..], rows, q, BATCH * block)
    {
      var group := 0;
      while group < 2
        invariant group <= 2
        invariant Scanned(before, distances[..], rows, q, BATCH * block + 16 * group)
      {
        var acc := SelectGroup(database, words, rows, q, block, group);
        WriteGroup(acc, rows, q, fp32Sum, constant, BATCH * block + 16 * group, distances, before);
        group := group + 1;
      }
      block := block + 1;
    }
  }

  // --- One-bit scan -----------------------------------------------------------------------------

  lemma {:induction false} MismatchBits(d: bv64, b: bv64, c: bv64, x: Bits, y: Bits, w: nat, n: nat)
    requires IsXor(d, b, c) && 64 * w + 64 <= |x| == |y| && n <= 64
    requires WordHolds(d, x, w) && WordHolds(b, y, w)
    ensures Count(c, n) == Mismatches(x, y, 64 * w + n) - Mismatches(x, y, 64 * w)
    decreases n
  {
    hide IsXor, Bit, Count;
    if n == 0 {
      CountNone(c);
    } else {
      MismatchBits(d, b, c, x, y, w, n - 1);
      CountSnoc(c, n - 1);
      XorBit(d, b, c, n - 1);
      assert Bit(d, n - 1) == x[64 * w + (n - 1)] && Bit(b, n - 1) == y[64 * w + (n - 1)];
    }
  }

  lemma {:induction false} CountNone(w: bv64)
    ensures Count(w, 0) == 0
  {}

  function XorWord(a: bv64, b: bv64): (c: bv64)
    ensures IsXor(a, b, c)
  {
    a ^ b
  }

  function AndWord(a: bv64, b: bv64): (c: bv64)
    ensures IsAnd(a, b, c)
  {
    a & b
  }

  ghost predicate LaneMismatch(n: nat, x: Bits, y: Bits, upto: nat) {
    |x| == |y| && upto <= |y| && n == Mismatches(x, y, upto)
  }

  lemma {:induction false} AddMismatch(n: nat, d: bv64, b: bv64, x: Bits, y: Bits, w: nat)
    requires 64 * w + 64 <= |x| == |y| && LaneMismatch(n, x, y, 64 * w)
    requires WordHolds(d, x, w) && WordHolds(b, y, w)
    ensures LaneMismatch(n + PopcountLane(XorWord(d, b)), x, y, 64 * w + 64)
  {
    hide PopcountLane, XorWord, Count, Mismatches, WordHolds;
    PopcountIsCount(XorWord(d, b));
    MismatchBits(d, b, XorWord(d, b), x, y, w, 64);
  }

  /** The groups and lanes of one word: each lane adds its mismatch count. */
  method AddMismatches(database: seq<bv64>, words: nat, ghost rows: seq<Bits>, b1: seq<bv64>, ghost y: Bits,
                       mismatch: array<nat>, block: nat, word: nat)
    requires DatabaseHolds(database, words, rows) && PlaneHolds(b1, y) && |b1| == words
    requires word < words && BATCH * block + BATCH <= |rows| && mismatch.Length == BATCH
    requires forall l :: 0 <= l < BATCH ==> LaneMismatch(mismatch[l], rows[BATCH * block + l], y, 64 * word)
    modifies mismatch
    ensures forall l :: 0 <= l < BATCH ==> LaneMismatch(mismatch[l], rows[BATCH * block + l], y, 64 * word + 64)
  {
    var q := b1[word];
    assert WordHolds(q, y, word);
    hide DatabaseHolds, PlaneHolds, LaneMismatch, WordHolds, PopcountLane, XorWord, LaneIndex;
    ghost var first, base, next := BATCH * block, 64 * word, 64 * word + 64;
    var group := 0;
    while group < 4
      invariant group <= 4
      invariant forall l :: 0 <= l < 8 * group ==> LaneMismatch(mismatch[l], rows[first + l], y, next)
      invariant forall l :: 8 * group <= l < BATCH ==> LaneMismatch(mismatch[l], rows[first + l], y, base)
    {
      var lane := 0;
      while lane < 8
        invariant lane <= 8
        invariant forall l :: 0 <= l < 8 * group + lane ==> LaneMismatch(mismatch[l], rows[first + l], y, next)
        invariant forall l :: 8 * group + lane <= l < BATCH ==> LaneMismatch(mismatch[l], rows[first + l], y, base)
      {
        var k := 8 * group + lane;
        LaneWord(database, words, rows, block, word, k);
        var db := database[LaneIndex(words, block, word, k)];
        AddMismatch(mismatch[k], db, q, rows[first + k], y, word);
        mismatch[k] := mismatch[k] + PopcountLane(XorWord(db, q));
        lane := lane + 1;
      }
      group := group + 1;
    }
  }

  lemma {:induction false} OneBitFormula(n: nat, x: Bits, y: Bits, s: real, constant: real)
    requires LaneMismatch(n, x, y, |y|) && constant == |y| as real * (1.0 + s * s)
    ensures var q := OneBitQuery(y, s);
            |x| == |q| && Distance(x, q, |q|) == FromDot(constant, s, |y| as real - 2.0 * n as real)
  {
    hide Distance, OneBitQuery, Mismatches;
    OneBitDistance(x, y, s, |y|);
  }

  /** The last expression of `scan_b1` and `scan_integer`. */
  function FromDot(constant: real, scale: real, dot: real): real {
    constant - 2.0 * scale * dot
  }

  /** `scan_b1`: the distance of every row to the one-bit query. */
  method ScanB1(database: seq<bv64>, words: nat, ghost rows: seq<Bits>, count: nat, b1: seq<bv64>, ghost y: Bits,
                b1Scale: real, b1Constant: real, distances: array<real>)
    requires DatabaseHolds(database, words, rows) && count == |rows| <= distances.Length
    requires PlaneHolds(b1, y) && |b1| == words && b1Constant == |y| as real * (1.0 + b1Scale * b1Scale)
    modifies distances
    ensures Scanned(old(distances[..]), distances[..], rows, OneBitQuery(y, b1Scale), |rows|)
  {
    var blockCount := count / BATCH;
    assert blockCount * BATCH == count && |y| == 64 * words;
    hide DatabaseHolds, PlaneHolds, Distance, OneBitQuery, LaneMismatch, Scanned;
    ghost var before, q := distances[..], OneBitQuery(y, b1Scale);
    ScanStart(before, rows, q);
    var block := 0;
    while block < blockCount
      invariant block <= blockCount
      invariant Scanned(before, distances[..], rows, q, BATCH * block)
    {
      var mismatch := BlockMismatches(database, words, rows, b1, y, block);
      WriteOneBit(mismatch, rows, y, b1Scale, b1Constant, BATCH * block, words, distances, before);
      block := block + 1;
    }
  }

  /** The mismatches of one block, word by word. */
  method BlockMismatches(database: seq<bv64>, words: nat, ghost rows: seq<Bits>, b1: seq<bv64>, ghost y: Bits,
                         block: nat) returns (mismatch: array<nat>)
    requires DatabaseHolds(database, words, rows) && BATCH * block + BATCH <= |rows|
    requires PlaneHolds(b1, y) && |b1| == words && |y| == 64 * words
    ensures fresh(mismatch) && mismatch.Length == BATCH
    ensures forall l :: 0 <= l < BATCH ==> LaneMismatch(mismatch[l], rows[BATCH * block + l], y, 64 * words)
  {
    hide DatabaseHolds, PlaneHolds, LaneMismatch;
    mismatch := new nat[BATCH](_ => 0);
    MismatchesNone(database, words, rows, BATCH * block, y, mismatch[..]);
    var word := 0;
    while word < words
      invariant word <= words
      invariant forall l :: 0 <= l < BATCH ==> LaneMismatch(mismatch[l], rows[BATCH * block + l], y, 64 * word)
    {
      AddMismatches(database, words, rows, b1, y, mismatch, block, word);
      word := word + 1;
    }
  }

  lemma {:induction false} MismatchesNone(database: seq<bv64>, words: nat, rows: seq<Bits>, first: nat, y: Bits,
                                          mismatch: seq<nat>)
    requires DatabaseHolds(database, words, rows) && |y| == 64 * words
    requires |mismatch| == BATCH && first + BATCH <= |rows| && forall l :: 0 <= l < BATCH ==> mismatch[l] == 0
    ensures forall l :: 0 <= l < BATCH ==> LaneMismatch(mismatch[l], rows[first + l], y, 0)
  {
    forall l | 0 <= l < BATCH ensures LaneMismatch(mismatch[l], rows[first + l], y, 0) {
      assert RowHolds(database, words, first + l, rows[first + l]);
    }
  }

  /** The last loop of a block of `scan_b1`. */
  method WriteOneBit(mismatch: array<nat>, ghost rows: seq<Bits>, ghost y: Bits, b1Scale: real, b1Constant: real,
                     first: nat, words: nat, distances: array<real>, ghost before: seq<real>)
    requires |y| == 64 * words && b1Constant == |y| as real * (1.0 + b1Scale * b1Scale)
    requires mismatch.Length == BATCH && first + BATCH <= |rows|
    requires forall l :: 0 <= l < BATCH ==> LaneMismatch(mismatch[l], rows[first + l], y, 64 * words)
    requires Scanned(before, distances[..], rows, OneBitQuery(y, b1Scale), first)
    modifies distances
    ensures Scanned(before, distances[..], rows, OneBitQuery(y, b1Scale), first + BATCH)
  {
    ghost var q := OneBitQuery(y, b1Scale);
    ScannedLength(before, distances[..], rows, q, first);
    ghost var lanes := mismatch[..];
    var lane := 0;
    hide Distance, OneBitQuery, Mismatches, Scanned, FromDot;
    while lane < BATCH
      invariant lane <= BATCH && lanes == mismatch[..]
      invariant Scanned(before, distances[..], rows, q, first + lane)
    {
      assert LaneMismatch(lanes[lane], rows[first + lane], y, |y|);
      OneBitFormula(lanes[lane], rows[first + lane], y, b1Scale, b1Constant);
      var signedDot := (64 * words) as real - 2.0 * mismatch[lane] as real;
      var d := FromDot(b1Constant, b1Scale, signedDot);
      ScanNext(before, distances[..], rows, q, first + lane, d);
      distances[first + lane] := d;
      lane := lane + 1;
    }
  }

  // --- Integer scan -----------------------------------------------------------------------------

  /** A 32-bit lane: arithmetic wraps around. */
  function Wrap32(v: int): int {
    (v + 0x8000_0000) % 0x1_0000_0000 - 0x8000_0000
  }

  function AddEpi32(a: int, b: int): int {
    Wrap32(a + b)
  }

  function MulloEpi32(a: int, b: int): int {
    Wrap32(a * b)
  }

  /** What the planes below `p` contribute over the first `n` bits of word `w`. */
  function WordPartial(x: Bits, codes: seq<int>, bits: nat, w: nat, p: nat, n: nat): int
    requires 64 * w + n <= |x| == |codes|
    decreases n
  {
    if n == 0 then 0
    else
      var j := 64 * w + (n - 1);
      WordPartial(x, codes, bits, w, p, n - 1) + if x[j] then Partial(bits, codes[j], p) else 0
  }

  /** The exact value of a lane after `p` planes of word `w`. */
  function Prefix(x: Bits, codes: seq<int>, bits: nat, w: nat, p: nat): int
    requires 64 * w + 64 <= |x| == |codes|
  {
    SelectedCodes(x, codes, 64 * w) + WordPartial(x, codes, bits, w, p, 64)
  }

  lemma {:induction false} NoPlanes(x: Bits, codes: seq<int>, bits: nat, w: nat, n: nat)
    requires 64 * w + n <= |x| == |codes|
    ensures WordPartial(x, codes, bits, w, 0, n) == 0
    decreases n
  {
    if n == 0 {
    } else {
      NoPlanes(x, codes, bits, w, n - 1);
    }
  }

  lemma {:induction false} AllPlanes(x: Bits, codes: seq<int>, bits: nat, w: nat, n: nat)
    requires 2 <= bits <= 8 && CodesInRange(codes, bits) && 64 * w + n <= |x| == |codes|
    ensures SelectedCodes(x, codes, 64 * w) + WordPartial(x, codes, bits, w, bits, n)
         == SelectedCodes(x, codes, 64 * w + n)
    decreases n
  {
    hide Partial, QMax;
    if n == 0 {
    } else {
      AllPlanes(x, codes, bits, w, n - 1);
      PlanesDecode(bits, codes[64 * w + (n - 1)]);
    }
  }

  /** One more plane adds its weight once for every common bit. */
  lemma {:induction false} OnePlane(d: bv64, b: bv64, c: bv64, x: Bits, codes: seq<int>, bits: nat, w: nat, p: nat,
                                    n: nat)
    requires IsAnd(d, b, c) && 64 * w + 64 <= |x| == |codes| && n <= 64
    requires WordHolds(d, x, w) && WordHolds(b, PlaneBits(codes, p), w)
    ensures WordPartial(x, codes, bits, w, p + 1, n)
         == WordPartial(x, codes, bits, w, p, n) + Scaled(Count(c, n), Weight(bits, p))
    decreases n
  {
    hide IsAnd, Bit, Count, PlaneBits, Encoded, BitOf, Weight, Scaled;
    if n == 0 {
      CountNone(c);
      ScaledNone(Weight(bits, p));
    } else {
      var j := 64 * w + (n - 1);
      OnePlane(d, b, c, x, codes, bits, w, p, n - 1);
      CountSnoc(c, n - 1);
      AndBit(d, b, c, n - 1);
      assert Bit(d, n - 1) == x[j] && Bit(b, n - 1) == PlaneBits(codes, p)[j];
      ScaledNext(Count(c, n - 1), Weight(bits, p));
    }
  }

  function Scaled(n: int, weight: int): int {
    n * weight
  }

  lemma {:induction false} ScaledNext(n: nat, weight: int)
    ensures Scaled(n + 1, weight) == Scaled(n, weight) + weight
  {}

  lemma {:induction false} ScaledNone(weight: int)
    ensures Scaled(0, weight) == 0
  {}

  lemma {:induction false} WordPartialBound(x: Bits, codes: seq<int>, bits: nat, w: nat, p: nat, n: nat)
    requires 2 <= bits <= 8 && CodesInRange(codes, bits) && 64 * w + n <= |x| == |codes| && p <= bits
    ensures -Scaled(n, QMax(bits)) <= WordPartial(x, codes, bits, w, p, n) <= Scaled(n, QMax(bits))
    decreases n
  {
    hide Partial, QMax, Scaled;
    if n == 0 {
      ScaledNone(QMax(bits));
    } else {
      WordPartialBound(x, codes, bits, w, p, n - 1);
      PartialBound(bits, codes[64 * w + (n - 1)], p);
      ScaledNext(n - 1, QMax(bits));
    }
  }

  lemma {:induction false} SelectedBound(x: Bits, codes: seq<int>, bits: nat, n: nat)
    requires 2 <= bits <= 8 && CodesInRange(codes, bits) && n <= |x| == |codes|
    ensures -Scaled(n, QMax(bits)) <= SelectedCodes(x, codes, n) <= Scaled(n, QMax(bits))
    decreases n
  {
    hide QMax, Scaled;
    if n == 0 {
      ScaledNone(QMax(bits));
    } else {
      SelectedBound(x, codes, bits, n - 1);
      ScaledNext(n - 1, QMax(bits));
    }
  }

  /** The lane width the kernel needs: with 1024 dimensions and 8 bits it is 131072 against 2^31. */
  predicate LanesFit(dim: nat, bits: nat) {
    bits >= 2 && Scaled(dim, QMax(bits) + 1) < 0x8000_0000
  }

  /** No prefix of the sum leaves the range of a lane. */
  lemma {:induction false} PrefixFits(x: Bits, codes: seq<int>, bits: nat, w: nat, p: nat)
    requires 2 <= bits <= 8 && CodesInRange(codes, bits) && p <= bits
    requires 64 * w + 64 <= |x| == |codes| && LanesFit(|x|, bits)
    ensures Wrap32(Prefix(x, codes, bits, w, p)) == Prefix(x, codes, bits, w, p)
  {
    hide QMax, SelectedCodes, WordPartial, CodesInRange;
    SelectedBound(x, codes, bits, 64 * w);
    WordPartialBound(x, codes, bits, w, p, 64);
    var m, v := QMax(bits), Prefix(x, codes, bits, w, p);
    MulAdd(64 * w, 64, m);
    MulMono(64 * w + 64, |x|, m);
    MulMono(m, m + 1, |x|);
    assert -Scaled(|x|, m + 1) <= v <= Scaled(|x|, m + 1);
  }

  lemma {:induction false} CountBound(c: bv64, n: nat)
    ensures Count(c, n) <= n
    decreases n
  {
    hide Low, Half;
    if n == 0 {
    } else {
      CountBound(Half(c), n - 1);
    }
  }

  /** Nor does the product of a count and a weight. */
  lemma {:induction false} ProductFits(n: nat, bits: nat, p: nat, dim: nat)
    requires 2 <= bits <= 8 && p < bits && n <= 64 <= dim && LanesFit(dim, bits)
    ensures MulloEpi32(n, Weight(bits, p)) == Scaled(n, Weight(bits, p))
    ensures Wrap32(n) == n
  {
    Pow2Monotone(p, bits - 1);
    var h: int := Pow2(bits - 1);
    var weight := Weight(bits, p);
    hide Pow2, Weight;
    assert -h <= weight <= h;
    MulMono(n, dim, h);
    if weight >= 0 {
      MulMono(weight, h, n);
      MulNonneg(n, weight);
    } else {
      MulMono(-weight, h, n);
      MulNonneg(n, -weight);
      assert n * -weight == -(n * weight);
    }
  }

  ghost predicate LaneSum(v: int, x: Bits, codes: seq<int>, bits: nat, w: nat, p: nat) {
    |x| == |codes| && 64 * w + 64 <= |x| && v == Prefix(x, codes, bits, w, p)
  }

  /** One lane of one plane: `selected + popcount(db & q) * weight` in 32-bit arithmetic. */
  lemma {:induction false} AddLane(v: int, d: bv64, b: bv64, x: Bits, codes: seq<int>, bits: nat, w: nat, p: nat)
    requires 2 <= bits <= 8 && CodesInRange(codes, bits) && p < bits
    requires LaneSum(v, x, codes, bits, w, p) && LanesFit(|codes|, bits)
    requires WordHolds(d, x, w) && WordHolds(b, PlaneBits(codes, p), w)
    ensures LaneSum(AddEpi32(v, MulloEpi32(Wrap32(PopcountLane(AndWord(d, b))), Weight(bits, p))),
                    x, codes, bits, w, p + 1)
  {
    hide PopcountLane, AndWord, Count, WordPartial, SelectedCodes, WordHolds, PlaneBits, Weight, Scaled, Wrap32,
         MulloEpi32, CodesInRange, LanesFit;
    var c := AndWord(d, b);
    PopcountIsCount(c);
    CountBound(c, 64);
    ProductFits(Count(c, 64), bits, p, |codes|);
    OnePlane(d, b, c, x, codes, bits, w, p, 64);
    PrefixFits(x, codes, bits, w, p + 1);
  }

  /** The lanes of one 256-bit register, after `p` planes of word `w`. */
  ghost predicate RegisterSum(v: seq<int>, rows: seq<Bits>, first: nat, codes: seq<int>, bits: nat, w: nat, p: nat) {
    |v| == 8 && first + 8 <= |rows| && forall l :: 0 <= l < 8 ==> LaneSum(v[l], rows[first + l], codes, bits, w, p)
  }

  /** `_mm256_add_epi32(selected, _mm256_mullo_epi32(counts32, weight))` for one group and one plane. */
  method AddPlane(database: seq<bv64>, words: nat, ghost rows: seq<Bits>, planes: seq<bv64>, bits: nat,
                  ghost codes: seq<int>, v: seq<int>, block: nat, word: nat, group: nat, plane: nat)
    returns (r: seq<int>)
    requires DatabaseHolds(database, words, rows) && PlanesHold(planes, words, bits, codes)
    requires LanesFit(|codes|, bits) && word < words && group < 4 && plane < bits
    requires BATCH * block + BATCH <= |rows|
    requires RegisterSum(v, rows, BATCH * block + 8 * group, codes, bits, word, plane)
    ensures RegisterSum(r, rows, BATCH * block + 8 * group, codes, bits, word, plane + 1)
  {
    PlaneWord(planes, words, bits, codes, plane, word);
    var q := planes[Base(words, plane) + word];
    assert 2 <= bits <= 8 && CodesInRange(codes, bits);
    hide DatabaseHolds, PlanesHold, LaneSum, WordHolds, PopcountLane, AndWord, LaneIndex, Base, LanesFit, Weight,
         AddEpi32, MulloEpi32, Wrap32, CodesInRange, PlaneBits;
    ghost var first, next := BATCH * block + 8 * group, plane + 1;
    var weight := Weight(bits, plane);
    r := [];
    var lane := 0;
    while lane < 8
      invariant |r| == lane <= 8
      invariant forall l :: 0 <= l < lane ==> LaneSum(r[l], rows[first + l], codes, bits, word, next)
    {
      var k := 8 * group + lane;
      LaneWord(database, words, rows, block, word, k);
      var db := database[LaneIndex(words, block, word, k)];
      AddLane(v[lane], db, q, rows[first + lane], codes, bits, word, plane);
      var counts32 := Wrap32(PopcountLane(AndWord(db, q)));
      r := r + [AddEpi32(v[lane], MulloEpi32(counts32, weight))];
      lane := lane + 1;
    }
  }

  lemma {:induction false} PlaneWord(planes: seq<bv64>, words: nat, bits: nat, codes: seq<int>, p: nat, w: nat)
    requires PlanesHold(planes, words, bits, codes) && p < bits && w < words
    ensures Base(words, p) + w < |planes| && WordHolds(planes[Base(words, p) + w], PlaneBits(codes, p), w)
  {
    hide Base, Bit, PlaneBits;
    BaseFits(words, bits, p);
    var plane := Plane(planes, words, p);
    assert PlaneFilled(planes, words, codes, p, |codes|);
    assert plane[w] == planes[Base(words, p) + w];
    forall j | 0 <= j < 64 ensures Bit(plane[w], j) == PlaneBits(codes, p)[64 * w + j] {
    }
  }

  ghost predicate LaneTotal(v: int, x: Bits, codes: seq<int>, upto: nat) {
    |x| == |codes| && upto <= |codes| && v == SelectedCodes(x, codes, upto)
  }

  ghost predicate RegisterTotal(v: seq<int>, rows: seq<Bits>, first: nat, codes: seq<int>, upto: nat) {
    |v| == 8 && first + 8 <= |rows| && forall l :: 0 <= l < 8 ==> LaneTotal(v[l], rows[first + l], codes, upto)
  }

  lemma {:induction false} LaneStart(v: int, x: Bits, codes: seq<int>, bits: nat, w: nat)
    requires LaneTotal(v, x, codes, 64 * w) && 64 * w + 64 <= |codes|
    ensures LaneSum(v, x, codes, bits, w, 0)
  {
    NoPlanes(x, codes, bits, w, 64);
  }

  lemma {:induction false} LaneFinish(v: int, x: Bits, codes: seq<int>, bits: nat, w: nat)
    requires 2 <= bits <= 8 && CodesInRange(codes, bits) && LaneSum(v, x, codes, bits, w, bits)
    ensures LaneTotal(v, x, codes, 64 * w + 64)
  {
    AllPlanes(x, codes, bits, w, 64);
  }

  lemma {:induction false} RegisterStart(v: seq<int>, rows: seq<Bits>, first: nat, codes: seq<int>, bits: nat, w: nat)
    requires RegisterTotal(v, rows, first, codes, 64 * w) && 64 * w + 64 <= |codes|
    ensures RegisterSum(v, rows, first, codes, bits, w, 0)
  {
    hide LaneTotal, LaneSum;
    forall l | 0 <= l < 8 ensures LaneSum(v[l], rows[first + l], codes, bits, w, 0) {
      LaneStart(v[l], rows[first + l], codes, bits, w);
    }
  }

  lemma {:induction false} RegisterFinish(v: seq<int>, rows: seq<Bits>, first: nat, codes: seq<int>, bits: nat, w: nat)
    requires 2 <= bits <= 8 && CodesInRange(codes, bits) && RegisterSum(v, rows, first, codes, bits, w, bits)
    ensures RegisterTotal(v, rows, first, codes, 64 * w + 64)
  {
    hide LaneTotal, LaneSum, CodesInRange;
    forall l | 0 <= l < 8 ensures LaneTotal(v[l], rows[first + l], codes, 64 * w + 64) {
      LaneFinish(v[l], rows[first + l], codes, bits, w);
    }
  }

  /** The four registers of a block. */
  ghost predicate BlockTotal(selected: seq<seq<int>>, rows: seq<Bits>, first: nat, codes: seq<int>, upto: nat) {
    |selected| == 4 && forall g :: 0 <= g < 4 ==> RegisterTotal(selected[g], rows, first + 8 * g, codes, upto)
  }

  /** All planes of one word, for one group. */
  method AddGroup(database: seq<bv64>, words: nat, ghost rows: seq<Bits>, planes: seq<bv64>, bits: nat,
                  ghost codes: seq<int>, register: seq<int>, block: nat, word: nat, group: nat) returns (v: seq<int>)
    requires DatabaseHolds(database, words, rows) && PlanesHold(planes, words, bits, codes)
    requires LanesFit(|codes|, bits) && word < words && group < 4 && BATCH * block + BATCH <= |rows|
    requires RegisterTotal(register, rows, BATCH * block + 8 * group, codes, 64 * word)
    ensures RegisterTotal(v, rows, BATCH * block + 8 * group, codes, 64 * word + 64)
  {
    assert 2 <= bits <= 8 && |codes| == 64 * words && CodesInRange(codes, bits);
    hide DatabaseHolds, PlanesHold, RegisterTotal, RegisterSum, LanesFit, CodesInRange;
    v := register;
    RegisterStart(v, rows, BATCH * block + 8 * group, codes, bits, word);
    var plane := 0;
    while plane < bits
      invariant plane <= bits && RegisterSum(v, rows, BATCH * block + 8 * group, codes, bits, word, plane)
    {
      v := AddPlane(database, words, rows, planes, bits, codes, v, block, word, group, plane);
      plane := plane + 1;
    }
    RegisterFinish(v, rows, BATCH * block + 8 * group, codes, bits, word);
  }

  /** The groups of one word. */
  method AddWord(database: seq<bv64>, words: nat, ghost rows: seq<Bits>, planes: seq<bv64>, bits: nat,
                 ghost codes: seq<int>, registers: seq<seq<int>>, block: nat, word: nat)
    returns (selected: seq<seq<int>>)
    requires DatabaseHolds(database, words, rows) && PlanesHold(planes, words, bits, codes)
    requires LanesFit(|codes|, bits) && word < words && BATCH * block + BATCH <= |rows|
    requires BlockTotal(registers, rows, BATCH * block, codes, 64 * word)
    ensures BlockTotal(selected, rows, BATCH * block, codes, 64 * word + 64)
  {
    hide DatabaseHolds, PlanesHold, RegisterTotal, LanesFit;
    ghost var first, base, next := BATCH * block, 64 * word, 64 * word + 64;
    selected := registers;
    var group := 0;
    while group < 4
      invariant group <= 4 && |selected| == 4
      invariant forall g :: 0 <= g < group ==> RegisterTotal(selected[g], rows, first + 8 * g, codes, next)
      invariant forall g :: group <= g < 4 ==> RegisterTotal(selected[g], rows, first + 8 * g, codes, base)
    {
      var v := AddGroup(database, words, rows, planes, bits, codes, selected[group], block, word, group);
      selected := selected[group := v];
      group := group + 1;
    }
  }

  /** The loop over the words of one block. */
  method SelectBlock(database: seq<bv64>, words: nat, ghost rows: seq<Bits>, planes: seq<bv64>, bits: nat,
                     ghost codes: seq<int>, block: nat) returns (selected: seq<seq<int>>)
    requires DatabaseHolds(database, words, rows) && PlanesHold(planes, words, bits, codes)
    requires LanesFit(|codes|, bits) && BATCH * block + BATCH <= |rows|
    ensures BlockTotal(selected, rows, BATCH * block, codes, |codes|)
  {
    assert |codes| == 64 * words;
    hide DatabaseHolds, PlanesHold, BlockTotal, LanesFit;
    var zero := [0, 0, 0, 0, 0, 0, 0, 0];
    selected := [zero, zero, zero, zero];
    SelectedNone(database, words, rows, BATCH * block, codes, selected);
    var word := 0;
    while word < words
      invariant word <= words
      invariant BlockTotal(selected, rows, BATCH * block, codes, 64 * word)
    {
      selected := AddWord(database, words, rows, planes, bits, codes, selected, block, word);
      word := word + 1;
    }
  }

  lemma {:induction false} FromDotTimes(constant: real, scale: real, dot: real)
    ensures FromDot(constant, scale, dot) == constant - 2.0 * Times(scale, dot)
  {}

  lemma {:induction false} IntegerFormula(v: int, x: Bits, codes: seq<int>, scale: real, constant: real, codeSum: int)
    requires LaneTotal(v, x, codes, |codes|) && codeSum == CodeSum(codes, |codes|)
    requires constant == |codes| as real + Times(scale * scale, CodeNorm2(codes, |codes|) as real)
    ensures var q := IntegerQuery(codes, scale);
            |x| == |q| && Distance(x, q, |q|) == FromDot(constant, scale, (2 * v - codeSum) as real)
  {
    hide Distance, IntegerQuery, SelectedCodes, CodeSum, CodeNorm2, FromDot, Times;
    IntegerDistance(x, codes, scale, |codes|);
    FromDotTimes(constant, scale, IntegerDot(x, codes, |codes|) as real);
  }

  /** The last loops of a block of `scan_integer`. */
  method WriteInteger(selected: seq<seq<int>>, ghost rows: seq<Bits>, ghost codes: seq<int>, codeSum: int,
                      scale: real, constant: real, first: nat, distances: array<real>, ghost before: seq<real>)
    requires codeSum == CodeSum(codes, |codes|)
    requires constant == |codes| as real + Times(scale * scale, CodeNorm2(codes, |codes|) as real)
    requires BlockTotal(selected, rows, first, codes, |codes|)
    requires Scanned(before, distances[..], rows, IntegerQuery(codes, scale), first)
    modifies distances
    ensures Scanned(before, distances[..], rows, IntegerQuery(codes, scale), first + BATCH)
  {
    ghost var q := IntegerQuery(codes, scale);
    hide Distance, IntegerQuery, Scanned, FromDot, RegisterTotal, Times, CodeSum, CodeNorm2;
    var group := 0;
    while group < 4
      invariant group <= 4
      invariant Scanned(before, distances[..], rows, q, first + 8 * group)
    {
      WriteLanes(selected[group], rows, codes, codeSum, scale, constant, first + 8 * group, distances, before);
      group := group + 1;
    }
  }

  /** The loop over the lanes of one stored register. */
  method WriteLanes(lanes: seq<int>, ghost rows: seq<Bits>, ghost codes: seq<int>, codeSum: int, scale: real,
                    constant: real, first: nat, distances: array<real>, ghost before: seq<real>)
    requires codeSum == CodeSum(codes, |codes|)
    requires constant == |codes| as real + Times(scale * scale, CodeNorm2(codes, |codes|) as real)
    requires RegisterTotal(lanes, rows, first, codes, |codes|)
    requires Scanned(before, distances[..], rows, IntegerQuery(codes, scale), first)
    modifies distances
    ensures Scanned(before, distances[..], rows, IntegerQuery(codes, scale), first + 8)
  {
    ghost var q := IntegerQuery(codes, scale);
    ScannedLength(before, distances[..], rows, q, first);
    hide Distance, IntegerQuery, Scanned, FromDot, LaneTotal, Times, CodeSum, CodeNorm2;
    var lane := 0;
    while lane < 8
      invariant lane <= 8
      invariant Scanned(before, distances[..], rows, q, first + lane)
    {
      IntegerFormula(lanes[lane], rows[first + lane], codes, scale, constant, codeSum);
      var integerDot := 2 * lanes[lane] - codeSum;
      var d := FromDot(constant, scale, integerDot as real);
      ScanNext(before, distances[..], rows, q, first + lane, d);
      distances[first + lane] := d;
      lane := lane + 1;
    }
  }

  /** `scan_integer`: the distance of every row to the integer query. */
  method ScanInteger(database: seq<bv64>, words: nat, ghost rows: seq<Bits>, count: nat, planes: seq<bv64>, bits: nat,
                     ghost codes: seq<int>, querySum: int, scale: real, constant: real, distances: array<real>)
    requires DatabaseHolds(database, words, rows) && count == |rows| <= distances.Length
    requires bits >= 2 && IsCode(planes, scale, constant, querySum, codes, words, bits) && LanesFit(|codes|, bits)
    modifies distances
    ensures Scanned(old(distances[..]), distances[..], rows, IntegerQuery(codes, scale), |rows|)
  {
    var blockCount := count / BATCH;
    assert blockCount * BATCH == count && |codes| == 64 * words;
    hide DatabaseHolds, PlanesHold, Distance, IntegerQuery, LanesFit, CodeSum, CodeNorm2, Times, BlockTotal, Scanned;
    ghost var before, q := distances[..], IntegerQuery(codes, scale);
    ScanStart(before, rows, q);
    var block := 0;
    while block < blockCount
      invariant block <= blockCount
      invariant Scanned(before, distances[..], rows, q, BATCH * block)
    {
      var selected := SelectBlock(database, words, rows, planes, bits, codes, block);
      WriteInteger(selected, rows, codes, querySum, scale, constant, BATCH * block, distances, before);
      block := block + 1;
    }
  }

  lemma {:induction false} SelectedNone(database: seq<bv64>, words: nat, rows: seq<Bits>, first: nat, codes: seq<int>,
                                        selected: seq<seq<int>>)
    requires DatabaseHolds(database, words, rows) && |codes| == 64 * words
    requires |selected| == 4 && first + BATCH <= |rows|
    requires forall g :: 0 <= g < 4 ==> selected[g] == [0, 0, 0, 0, 0, 0, 0, 0]
    ensures BlockTotal(selected, rows, first, codes, 0)
  {
    forall g | 0 <= g < 4 ensures RegisterTotal(selected[g], rows, first + 8 * g, codes, 0) {
      forall l | 0 <= l < 8 ensures LaneTotal(selected[g][l], rows[first + 8 * g + l], codes, 0) {
        assert RowHolds(database, words, first + 8 * g + l, rows[first + 8 * g + l]);
      }
    }
  }
}
