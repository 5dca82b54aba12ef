/** The codecs end to end: encode the base vectors, prepare one query, run every scan. */
module Pipeline {
  import opened Vectors
  import opened Signs
  import opened Database
  import opened Hadamard
  import opened QueryCodec
  import opened BitPlanes
  import opened Scans

  /** A query in integer codes: its bit planes, the scale, and the two sums a scan needs. */
  datatype IntegerCode = IntegerCode(planes: seq<bv64>, scale: real, constant: real, sum: int)

  datatype Query = Query(fp32: Vec, fp32Sum: real, fp32Norm2: real,
                         b1: seq<bv64>, b1Scale: real, b1Constant: real,
                         int4: IntegerCode, int8: IntegerCode)

  /** The integer codes of a vector. */
  ghost predicate Coded(code: IntegerCode, q: Vec, words: nat, bits: nat)
    requires bits >= 2
  {
    code.scale == ScaleOf(q, bits)
    && IsCode(code.planes, code.scale, code.constant, code.sum, QueryCodes(q, bits), words, bits)
  }

  /** A prepared query is the rotated vector, its sums, its one-bit code and its two integer codes. */
  ghost predicate Prepared(q: Query, rotated: Vec, words: nat) {
    && IsFp32(q, rotated) && IsB1(q, rotated)
    && Coded(q.int4, rotated, words, 4) && Coded(q.int8, rotated, words, 8)
  }

  ghost predicate IsFp32(q: Query, rotated: Vec) {
    && q.fp32 == rotated
    && q.fp32Sum == SumOf(rotated, |rotated|) && q.fp32Norm2 == Norm2(rotated, |rotated|)
  }

  ghost predicate IsB1(q: Query, rotated: Vec) {
    && PlaneHolds(q.b1, SignBits(rotated))
    && q.b1Constant == |rotated| as real * (1.0 + q.b1Scale * q.b1Scale)
    && (|rotated| > 0 ==> q.b1Scale == AbsSum(rotated, |rotated|) / |rotated| as real)
  }

  /** The sums of `prepare_query`. */
  method Sums(q: Vec) returns (sum: real, norm2: real)
    ensures sum == SumOf(q, |q|) && norm2 == Norm2(q, |q|)
  {
    hide Times;
    sum, norm2 := 0.0, 0.0;
    var i := 0;
    while i < |q|
      invariant i <= |q| && sum == SumOf(q, i) && norm2 == Norm2(q, i)
    {
      sum := sum + q[i];
      norm2 := norm2 + Times(q[i], q[i]);
      i := i + 1;
    }
  }

  method PrepareInteger(q: Vec, words: nat, bits: nat) returns (code: IntegerCode)
    requires |q| == 64 * words && 2 <= bits <= 8
    ensures Coded(code, q, words, bits)
  {
    hide IsCode, QueryCodes, ScaleOf;
    var planes, scale, constant, codeSum := MakeIntegerQuery(q, words, bits);
    code := IntegerCode(planes[..], scale, constant, codeSum);
  }

  /** `prepare_query` */
  method PrepareQuery(raw: Vec, signs: Vec, words: nat, ghost k: nat) returns (query: Query)
    requires |raw| <= |signs| == 64 * words == Pow2(k)
    ensures Prepared(query, Rotated(k, raw, signs), words)
  {
    hide Rotated, PlaneHolds, SignBits, SumOf, Norm2, AbsSum, Pow2, Coded;
    var rotated := Rotate(raw, signs, k);
    var q := rotated[..];
    var sum, norm2 := Sums(q);
    var b1, scale, constant := MakeOneBitQuery(q, words);
    var int4 := PrepareInteger(q, words, 4);
    var int8 := PrepareInteger(q, words, 8);
    query := Query(q, sum, norm2, b1[..], scale, constant, int4, int8);
  }

  /** The bit vectors of the encoded base vectors. */
  function Encode(rows: seq<Vec>, signs: Vec, k: nat): (bits: seq<Bits>)
    requires |signs| == Pow2(k) && forall r :: 0 <= r < |rows| ==> |rows[r]| <= |signs|
    ensures |bits| == |rows|
    ensures forall r :: 0 <= r < |rows| ==> bits[r] == SignBits(Rotated(k, rows[r], signs))
    decreases |rows|
  {
    if rows == [] then [] else [SignBits(Rotated(k, rows[0], signs))] + Encode(rows[1..], signs, k)
  }

  /** 1024 dimensions and 8-bit codes stay far inside a 32-bit lane. */
  lemma {:induction false} KernelLanesFit()
    ensures LanesFit(1024, 8) && LanesFit(1024, 4)
  {
    Pow2Eight();
    assert Pow2(7) == 128 && Pow2(3) == 8;
  }

  method EncodeBase(rows: seq<Vec>, signs: Vec, words: nat, ghost k: nat) returns (database: seq<bv64>)
    requires |rows| % BATCH == 0 && |signs| == 64 * words == Pow2(k)
    requires forall r :: 0 <= r < |rows| ==> |rows[r]| <= |signs|
    ensures DatabaseHolds(database, words, Encode(rows, signs, k))
  {
    hide Rotated, SignBits, RowHolds, Encode;
    var built := Build(rows, signs, words, k);
    database := built[..];
  }

  /** The fp32 codec. */
  method RunFp32(database: seq<bv64>, words: nat, ghost base: seq<Bits>, count: nat, query: Query, ghost q: Vec)
    returns (d: seq<real>)
    requires DatabaseHolds(database, words, base) && count == |base| && IsFp32(query, q) && |q| == 64 * words
    ensures Written(d, base, q, |base|)
  {
    hide DatabaseHolds, SumOf, Norm2, PlaneHolds, SignBits, AbsSum;
    var distances := new real[count];
    ScanFp32(database, words, base, count, query.fp32, query.fp32Sum, query.fp32Norm2, distances);
    d := distances[..];
  }

  /** The one-bit codec. */
  method RunB1(database: seq<bv64>, words: nat, ghost base: seq<Bits>, count: nat, query: Query, ghost q: Vec)
    returns (d: seq<real>)
    requires DatabaseHolds(database, words, base) && count == |base| && IsB1(query, q) && |q| == 64 * words
    ensures Written(d, base, OneBitQuery(SignBits(q), query.b1Scale), |base|)
  {
    PlaneLength(query.b1, SignBits(q));
    hide DatabaseHolds, SumOf, Norm2, PlaneHolds, SignBits, AbsSum, OneBitQuery;
    var distances := new real[count];
    ScanB1(database, words, base, count, query.b1, SignBits(q), query.b1Scale, query.b1Constant, distances);
    d := distances[..];
  }

  /** An integer codec. */
  method RunInteger(database: seq<bv64>, words: nat, ghost base: seq<Bits>, count: nat, code: IntegerCode, bits: nat,
                    ghost q: Vec) returns (d: seq<real>)
    requires DatabaseHolds(database, words, base) && count == |base| && |q| == 64 * words
    requires 2 <= bits <= 8 && LanesFit(|q|, bits) && Coded(code, q, words, bits)
    ensures Written(d, base, IntegerQuery(QueryCodes(q, bits), ScaleOf(q, bits)), |base|)
  {
    hide IsCode, QueryCodes, ScaleOf, DatabaseHolds, LanesFit, IntegerQuery;
    var distances := new real[count];
    ScanInteger(database, words, base, count, code.planes, bits, QueryCodes(q, bits), code.sum, code.scale,
                code.constant, distances);
    d := distances[..];
  }

  lemma {:induction false} PlaneLength(plane: seq<bv64>, x: Bits)
    requires PlaneHolds(plane, x)
    ensures |x| == 64 * |plane|
  {}

  /** Each codec reports, for every base vector, the squared distance between its sign vector and the query that
      the codec represents. */
  method ScanAllCodecs(rows: seq<Vec>, raw: Vec, signs: Vec, words: nat, ghost k: nat)
    returns (query: Query, fp32: seq<real>, b1: seq<real>, int4: seq<real>, int8: seq<real>)
    requires |rows| % BATCH == 0 && |signs| == 64 * words == Pow2(k) && |raw| <= |signs|
    requires forall r :: 0 <= r < |rows| ==> |rows[r]| <= |signs|
    requires LanesFit(|signs|, 4) && LanesFit(|signs|, 8)
    ensures Prepared(query, Rotated(k, raw, signs), words)
    ensures var q, base := Rotated(k, raw, signs), Encode(rows, signs, k);
            && Written(fp32, base, q, |base|)
            && Written(b1, base, OneBitQuery(SignBits(q), query.b1Scale), |base|)
            && Written(int4, base, IntegerQuery(QueryCodes(q, 4), ScaleOf(q, 4)), |base|)
            && Written(int8, base, IntegerQuery(QueryCodes(q, 8), ScaleOf(q, 8)), |base|)
  {
    hide DatabaseHolds, LanesFit, IsFp32, IsB1, Coded, Written, Encode, Rotated, Pow2, IntegerQuery, OneBitQuery;
    ghost var q, base := Rotated(k, raw, signs), Encode(rows, signs, k);
    var database := EncodeBase(rows, signs, words, k);
    query := PrepareQuery(raw, signs, words, k);
    fp32 := RunFp32(database, words, base, |rows|, query, q);
    b1 := RunB1(database, words, base, |rows|, query, q);
    int4 := RunInteger(database, words, base, |rows|, query.int4, 4, q);
    int8 := RunInteger(database, words, base, |rows|, query.int8, 8, q);
  }
}
