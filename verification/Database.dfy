/** The 1-bit database: 32 rows to a block, the words of a block interleaved by row. */
module Database {
  import opened Arith
  import opened Words
  import opened Vectors
  import opened Signs
  import Hadamard

  const BATCH: nat := 32

  /** Where word `word` of row `row` lives. */
  function Slot(words: nat, row: nat, word: nat): nat {
    ((row / BATCH) * words + word) * BATCH + row % BATCH
  }

  lemma {:induction false} SlotInRange(words: nat, rows: nat, row: nat, word: nat)
    requires row < rows && rows % BATCH == 0 && word < words
    ensures Slot(words, row, word) < rows * words
  {
    var blocks := rows / BATCH;
    MulLess(row / BATCH, blocks, words);
    assert rows * words == blocks * words * BATCH;
  }

  /** Distinct (row, word) pairs never share a slot. */
  lemma {:induction false} SlotUnique(words: nat, row: nat, word: nat, row': nat, word': nat)
    requires word < words && word' < words
    requires Slot(words, row, word) == Slot(words, row', word')
    ensures row == row' && word == word'
  {
    PairUnique((row / BATCH) * words + word, row % BATCH, (row' / BATCH) * words + word', row' % BATCH, BATCH);
    PairUnique(row / BATCH, word, row' / BATCH, word', words);
  }

  /** `database_word` */
  function DatabaseWord(database: seq<bv64>, words: nat, row: nat, word: nat): bv64
    requires Slot(words, row, word) < |database|
  {
    database[Slot(words, row, word)]
  }

  /** The 64 bits of one word hold the positive-sign bits of coordinates 64 * word onwards. */
  ghost predicate WordHolds(bits: bv64, x: Bits, word: nat)
    requires 64 * word + 64 <= |x|
  {
    forall j :: 0 <= j < 64 ==> Bit(bits, j) == x[64 * word + j]
  }

  /** Row `row` of the database holds the bit vector `x`. */
  ghost predicate RowHolds(database: seq<bv64>, words: nat, row: nat, x: Bits) {
    && |x| == 64 * words
    && forall w {:trigger Slot(words, row, w)} :: 0 <= w < words ==>
         Slot(words, row, w) < |database| && WordHolds(database[Slot(words, row, w)], x, w)
  }

  /** What `(database_word(...) >> (i % 64)) & 1` reads. */
  lemma {:induction false} RowBit(database: seq<bv64>, words: nat, row: nat, x: Bits, i: nat)
    requires RowHolds(database, words, row, x) && i < |x|
    ensures Slot(words, row, i / 64) < |database|
    ensures Bit(DatabaseWord(database, words, row, i / 64), i % 64) == x[i]
  {
    hide Bit;
    var w := i / 64;
    assert WordHolds(database[Slot(words, row, w)], x, w);
  }

  /** The bit vector of a rotated row: one bit per coordinate, set when positive. */
  function SignBits(t: Vec): (x: Bits)
    ensures |x| == |t| && forall i :: 0 <= i < |t| ==> x[i] == (t[i] > 0.0)
    decreases |t|
  {
    if t == [] then [] else [t[0] > 0.0] + SignBits(t[1..])
  }

  /** The innermost loop of the encoder. */
  method PackWord(t: Vec, word: nat) returns (bits: bv64)
    requires 64 * word + 64 <= |t|
    ensures WordHolds(bits, SignBits(t), word)
  {
    hide Bit, One, SignBits;
    bits := 0;
    forall j | 0 <= j < 64 ensures !Bit(bits, j) {
      ZeroBit(j);
    }
    var bit := 0;
    while bit < 64
      invariant bit <= 64
      invariant forall j :: 0 <= j < 64 ==> Bit(bits, j) == (j < bit && t[64 * word + j] > 0.0)
    {
      if t[word * 64 + bit] > 0.0 {
        var before := bits;
        bits := before | One(bit);
        forall j | 0 <= j < 64 ensures Bit(bits, j) == (Bit(before, j) || j == bit) {
          assert IsOr(before, One(bit), bits);
          SetBit(before, bit, bits, j);
        }
      }
      bit := bit + 1;
    }
  }

  /** The slots of every row but `row` are the same in both databases. */
  ghost predicate OtherRowsKept(before: seq<bv64>, after: seq<bv64>, words: nat, row: nat) {
    && |before| == |after|
    && forall r, w {:trigger Slot(words, r, w)} :: r != row && 0 <= r && 0 <= w < words ==>
         Slot(words, r, w) < |before| ==> after[Slot(words, r, w)] == before[Slot(words, r, w)]
  }

  lemma {:induction false} KeptRowHolds(before: seq<bv64>, after: seq<bv64>, words: nat, row: nat, r: nat, x: Bits)
    requires OtherRowsKept(before, after, words, row) && r != row && RowHolds(before, words, r, x)
    ensures RowHolds(after, words, r, x)
  {
    hide WordHolds, Slot;
  }

  /** The loop over the words of one row. */
  method WriteRow(database: array<bv64>, words: nat, ghost rows: nat, row: nat, t: Vec)
    requires row < rows && rows % BATCH == 0 && database.Length == rows * words && |t| == 64 * words
    modifies database
    ensures RowHolds(database[..], words, row, SignBits(t))
    ensures OtherRowsKept(old(database[..]), database[..], words, row)
  {
    hide WordHolds, SignBits, Slot;
    var word := 0;
    while word < words
      invariant word <= words
      invariant forall w {:trigger Slot(words, row, w)} :: 0 <= w < word ==>
        Slot(words, row, w) < database.Length && WordHolds(database[Slot(words, row, w)], SignBits(t), w)
      invariant OtherRowsKept(old(database[..]), database[..], words, row)
    {
      var bits := PackWord(t, word);
      SlotInRange(words, rows, row, word);
      forall r, w {:trigger Slot(words, r, w)} | 0 <= r && 0 <= w < words
        ensures Slot(words, r, w) == Slot(words, row, word) ==> r == row && w == word
      {
        if Slot(words, r, w) == Slot(words, row, word) {
          SlotUnique(words, r, w, row, word);
        }
      }
      database[Slot(words, row, word)] := bits;
      word := word + 1;
    }
  }

  /** The encoder of `build_or_load_database`: one rotated row after another. */
  method Build(rows: seq<Vec>, signs: Vec, words: nat, ghost k: nat) returns (database: array<bv64>)
    requires |rows| % BATCH == 0
    requires |signs| == 64 * words == Hadamard.Pow2(k)
    requires forall r :: 0 <= r < |rows| ==> |rows[r]| <= |signs|
    ensures fresh(database) && database.Length == |rows| * words
    ensures forall r :: 0 <= r < |rows| ==>
      RowHolds(database[..], words, r, SignBits(Hadamard.Rotated(k, rows[r], signs)))
  {
    database := new bv64[|rows| * words];
    hide SignBits, Hadamard.Rotated, RowHolds, OtherRowsKept;
    var row := 0;
    while row < |rows|
      invariant row <= |rows|
      invariant forall r :: 0 <= r < row ==>
        RowHolds(database[..], words, r, SignBits(Hadamard.Rotated(k, rows[r], signs)))
    {
      var transformed := Hadamard.Rotate(rows[row], signs, k);
      ghost var before := database[..];
      WriteRow(database, words, |rows|, row, transformed[..]);
      forall r | 0 <= r < row
        ensures RowHolds(database[..], words, r, SignBits(Hadamard.Rotated(k, rows[r], signs)))
      {
        KeptRowHolds(before, database[..], words, row, r, SignBits(Hadamard.Rotated(k, rows[r], signs)));
      }
      row := row + 1;
    }
  }
}
