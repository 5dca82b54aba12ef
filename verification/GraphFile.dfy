/** The canonical graph file, and its export into fixed-size adjacency records. */
module GraphFile {
  import opened Collections
  import opened Layout
  import opened Encoding
  import opened PageStore
  import opened Wrappers

  type Lists = seq<seq<u32>>

  datatype Graph = Graph(fileSize: nat, maxDegree: u32, startPoint: u32, numStartPoints: nat, neighbors: Lists)

  const HEADER: nat := 24

  // --- The file format --------------------------------------------------------------------------------

  /** A node: its degree, then its neighbours. */
  function NodeBytes(ids: seq<u32>): Bytes
    requires |ids| < U32
  {
    Enc(|ids|, 4) + IdBytes(ids)
  }

  predicate Degrees(lists: Lists) {
    forall i :: 0 <= i < |lists| ==> |lists[i]| < U32
  }

  function Body(lists: Lists): Bytes
    requires Degrees(lists)
    decreases |lists|
  {
    if lists == [] then [] else NodeBytes(lists[0]) + Body(lists[1..])
  }

  /** The file of a graph; the size field may hold anything. */
  function Serialized(g: Graph, sizeField: nat): Bytes
    requires Degrees(g.neighbors)
  {
    Enc(sizeField, 8) + Enc(g.maxDegree, 4) + Enc(g.startPoint, 4) + Enc(g.numStartPoints, 8) + Body(g.neighbors)
  }

  // --- Loading ----------------------------------------------------------------------------------------

  /** What the loading loop makes of the bytes from `pos` on. */
  function Parsed(data: Bytes, pos: nat): Result<Lists>
    requires pos <= |data|
    decreases |data| - pos
  {
    if pos == |data| then Ok([])
    else if pos + 4 > |data| then Err(StructError)
    else
      var next := pos + 4 + 4 * Dec(Window(data, pos, pos + 4));
      if next > |data| then Err(ValueError)
      else Prepended([Ids(Window(data, pos + 4, next))], Parsed(data, next))
  }

  function Prepended(front: Lists, rest: Result<Lists>): Result<Lists> {
    match rest
    case Ok(lists) => Ok(front + lists)
    case Err(e) => Err(e)
  }

  function Loaded(data: Bytes): Result<Graph> {
    if |data| < HEADER then Err(ValueError)
    else
      FourBytes();
      match Parsed(data, HEADER)
      case Ok(lists) =>
        Ok(Graph(|data|, Dec(Window(data, 8, 12)), Dec(Window(data, 12, 16)), Dec(Window(data, 16, 24)), lists))
      case Err(e) => Err(e)
  }

  /** `load_diskann_graph` */
  method Load(data: Bytes) returns (r: Result<Graph>)
    ensures r == Loaded(data)
  {
    hide Dec, Enc, Ids, IdBytes;
    if |data| < HEADER {
      return Err(ValueError);
    }
    FourBytes();
    var pos, neighbors := HEADER, [];
    PrependNone(Parsed(data, HEADER));
    while pos < |data|
      invariant HEADER <= pos <= |data|
      invariant Parsed(data, HEADER) == Prepended(neighbors, Parsed(data, pos))
      decreases |data| - pos
    {
      if pos + 4 > |data| {
        return Err(StructError);
      }
      var count := Dec(Window(data, pos, pos + 4));
      if pos + 4 + 4 * count > |data| {
        return Err(ValueError);
      }
      var ids := Ids(Window(data, pos + 4, pos + 4 + 4 * count));
      PrependTwice(neighbors, ids, Parsed(data, pos + 4 + 4 * count));
      neighbors := neighbors + [ids];
      pos := pos + 4 + 4 * count;
    }
    assert neighbors + [] == neighbors;
    r := Ok(Graph(|data|, Dec(Window(data, 8, 12)), Dec(Window(data, 12, 16)), Dec(Window(data, 16, 24)), neighbors));
  }

  lemma {:induction false} PrependNone(rest: Result<Lists>)
    ensures Prepended([], rest) == rest
  {
    if rest.Ok? {
      assert [] + rest.value == rest.value;
    }
  }

  lemma {:induction false} PrependTwice(front: Lists, ids: seq<u32>, rest: Result<Lists>)
    ensures Prepended(front, Prepended([ids], rest)) == Prepended(front + [ids], rest)
  {
    if rest.Ok? {
      assert front + ([ids] + rest.value) == front + [ids] + rest.value;
    }
  }

  // --- Loading inverts serialising --------------------------------------------------------------------

  lemma {:induction false} BodyStep(lists: Lists)
    requires Degrees(lists) && lists != []
    ensures Degrees(lists[1..]) && Body(lists) == Enc(|lists[0]|, 4) + IdBytes(lists[0]) + Body(lists[1..])
  {}

  lemma {:induction false} ParsedList(data: Bytes, pos: nat, next: nat, lists: Lists)
    requires pos + 4 <= next <= |data| && next == pos + 4 + 4 * Dec(Window(data, pos, pos + 4))
    requires lists != [] && Ids(Window(data, pos + 4, next)) == lists[0] && Parsed(data, next) == Ok(lists[1..])
    ensures Parsed(data, pos) == Ok(lists)
  {
    ParsedStep(data, pos, next);
    hide Parsed, Dec, Ids, Window;
    assert lists == [lists[0]] + lists[1..];
  }

  lemma {:induction false} ParsedStep(data: Bytes, pos: nat, next: nat)
    requires pos + 4 <= next <= |data| && next == pos + 4 + 4 * Dec(Window(data, pos, pos + 4))
    ensures Parsed(data, pos) == Prepended([Ids(Window(data, pos + 4, next))], Parsed(data, next))
  {}

  lemma {:induction false} CutNode(data: Bytes, pos: nat, next: nat, lists: Lists)
    requires pos <= |data| && Degrees(lists) && lists != [] && Window(data, pos, |data|) == Body(lists)
    requires next == pos + 4 + 4 * |lists[0]|
    ensures Degrees(lists[1..]) && next <= |data|
    ensures Window(data, pos, pos + 4) == Enc(|lists[0]|, 4)
    ensures Window(data, pos + 4, next) == IdBytes(lists[0])
    ensures Window(data, next, |data|) == Body(lists[1..])
  {
    hide Enc, IdBytes, Body, Degrees, Window;
    BodyStep(lists);
    var head, ids, rest := Enc(|lists[0]|, 4), IdBytes(lists[0]), Body(lists[1..]);
    CutWindows(data, pos, head, ids, rest);
  }

  lemma {:induction false} ParseBody(data: Bytes, pos: nat, lists: Lists)
    requires pos <= |data| && Degrees(lists) && Window(data, pos, |data|) == Body(lists)
    ensures Parsed(data, pos) == Ok(lists)
    decreases |lists|
  {
    if lists == [] {
      return;
    }
    assert |lists[0]| < U32;
    hide Dec, Enc, Ids, IdBytes, Parsed, Body, Degrees, Window;
    var next := pos + 4 + 4 * |lists[0]|;
    CutNode(data, pos, next, lists);
    FourBytes();
    DecEnc(|lists[0]|, 4);
    IdsOfBytes(lists[0]);
    ParseBody(data, next, lists[1..]);
    ParsedList(data, pos, next, lists);
  }

  /** The first list comes back from its bytes. */
  lemma {:induction false} BodyOf(bytes: Bytes, ids: seq<u32>, rest: Lists, lists: Lists)
    requires lists == [ids] + rest && |ids| < U32 && Degrees(rest)
    requires bytes == Enc(|ids|, 4) + IdBytes(ids) + Body(rest)
    ensures Degrees(lists) && bytes == Body(lists)
  {
    hide Enc, IdBytes;
    assert lists[1..] == rest;
  }

  lemma {:induction false} ParsedCases(data: Bytes, pos: nat)
    requires pos < |data| && Parsed(data, pos).Ok?
    ensures pos + 4 + 4 * Dec(Window(data, pos, pos + 4)) <= |data|
    ensures Parsed(data, pos + 4 + 4 * Dec(Window(data, pos, pos + 4))).Ok?
  {}

  lemma {:induction false} BodyParse(data: Bytes, pos: nat)
    requires pos <= |data| && Parsed(data, pos).Ok?
    ensures Degrees(Parsed(data, pos).value) && Window(data, pos, |data|) == Body(Parsed(data, pos).value)
    decreases |data| - pos
  {
    if pos == |data| {
      return;
    }
    ParsedCases(data, pos);
    FourBytes();
    var head := Window(data, pos, pos + 4);
    var next := pos + 4 + 4 * Dec(head);
    var ids := Ids(Window(data, pos + 4, next));
    ParsedStep(data, pos, next);
    EncDec(head);
    BytesOfIds(Window(data, pos + 4, next));
    hide Dec, Enc, Ids, IdBytes, Parsed, Body, Degrees, Window;
    BodyParse(data, next);
    JoinWindows(data, pos, pos + 4, next);
    BodyOf(Window(data, pos, |data|), ids, Parsed(data, next).value, Parsed(data, pos).value);
  }

  /** The header is what its four fields say. */
  lemma {:induction false} Fields(a: Bytes, b: Bytes, c: Bytes, d: Bytes, body: Bytes, data: Bytes)
    requires |a| == 8 && |b| == 4 && |c| == 4 && |d| == 8 && data == a + b + c + d + body
    ensures |data| == HEADER + |body|
    ensures Window(data, 0, 8) == a && Window(data, 8, 12) == b && Window(data, 12, 16) == c
    ensures Window(data, 16, 24) == d && Window(data, 24, |data|) == body
  {}

  /** Loading a written graph gives the graph back, whatever its size field said: the size reported is
      always the length of the file. */
  lemma {:induction false} LoadSerialized(g: Graph, sizeField: nat)
    requires Degrees(g.neighbors) && g.numStartPoints < Range256(8)
    ensures Loaded(Serialized(g, sizeField)) == Ok(g.(fileSize := |Serialized(g, sizeField)|))
  {
    hide Dec, Enc, Parsed, Body;
    var data := Serialized(g, sizeField);
    FourBytes();
    DecEnc(g.maxDegree, 4);
    DecEnc(g.startPoint, 4);
    DecEnc(g.numStartPoints, 8);
    Fields(Enc(sizeField, 8), Enc(g.maxDegree, 4), Enc(g.startPoint, 4), Enc(g.numStartPoints, 8), Body(g.neighbors),
      data);
    ParseBody(data, HEADER, g.neighbors);
  }

  /** And only a written graph loads: every file accepted is the serialisation of what was loaded. */
  lemma {:induction false} SerializedLoad(data: Bytes)
    requires Loaded(data).Ok?
    ensures Degrees(Loaded(data).value.neighbors)
    ensures data == Serialized(Loaded(data).value, Dec(Window(data, 0, 8)))
  {
    BodyParse(data, HEADER);
    EncDec(Window(data, 0, 8));
    EncDec(Window(data, 8, 12));
    EncDec(Window(data, 12, 16));
    EncDec(Window(data, 16, 24));
    hide Dec, Enc, Parsed, Body, Degrees;
    Rejoin(data);
  }

  lemma {:induction false} Rejoin(data: Bytes)
    requires |data| >= HEADER
    ensures data
      == Window(data, 0, 8) + Window(data, 8, 12) + Window(data, 12, 16) + Window(data, 16, 24)
        + Window(data, 24, |data|)
  {}

  // --- Which files are refused ------------------------------------------------------------------------

  /** The header of a loaded file: its fields are the numbers at bytes 8, 12, and 16 to 23. */
  lemma {:induction false} LoadedHeader(data: Bytes)
    requires Loaded(data).Ok?
    ensures |data| >= 24 && Loaded(data).value.fileSize == |data|
    ensures Loaded(data).value.maxDegree == Little(data, 8) && Loaded(data).value.startPoint == Little(data, 12)
    ensures Loaded(data).value.numStartPoints == Little(data, 16) + U32 * Little(data, 20)
  {
    hide Dec, Parsed, Little;
    DecFour(Window(data, 8, 12));
    LittleIn(data, 8, Window(data, 8, 12), 0);
    DecFour(Window(data, 12, 16));
    LittleIn(data, 12, Window(data, 12, 16), 0);
    DecEight(Window(data, 16, 24));
    LittleIn(data, 16, Window(data, 16, 24), 0);
    LittleIn(data, 16, Window(data, 16, 24), 4);
  }

  /** What a list cannot be read from: one to three bytes, or fewer ids than the number in front says. */
  predicate BadTail(tail: Bytes, error: Error) {
    || (0 < |tail| < 4 && error == StructError)
    || (|tail| >= 4 && |tail| < 4 + 4 * Little(tail, 0) && error == ValueError)
  }

  /** The file is a header, these whole lists, and a tail with this defect. */
  ghost predicate Damaged(data: Bytes, pos: nat, lists: Lists, tail: Bytes, error: Error) {
    pos <= |data| && Degrees(lists) && Window(data, pos, |data|) == Body(lists) + tail && BadTail(tail, error)
  }

  lemma {:induction false} TailFails(data: Bytes, pos: nat, error: Error)
    requires pos <= |data| && BadTail(Window(data, pos, |data|), error)
    ensures Parsed(data, pos) == Err(error)
  {
    if pos + 4 <= |data| {
      DecFour(Window(data, pos, pos + 4));
      hide Dec;
      assert Little(Window(data, pos, |data|), 0) == Little(Window(data, pos, pos + 4), 0);
    }
  }

  lemma {:induction false} JoinFour(a: Bytes, b: Bytes, c: Bytes, d: Bytes)
    ensures (a + b + c) + d == a + b + (c + d)
  {}

  lemma {:induction false} CutDamaged(data: Bytes, pos: nat, lists: Lists, tail: Bytes, error: Error)
    requires Damaged(data, pos, lists, tail, error) && lists != []
    ensures var next := pos + 4 + 4 * |lists[0]|;
      && next <= |data| && Damaged(data, next, lists[1..], tail, error)
      && Dec(Window(data, pos, pos + 4)) == |lists[0]|
  {
    BodyStep(lists);
    FourBytes();
    assert |lists[0]| < U32;
    hide Enc, Dec, IdBytes, Body, Degrees, Window, BadTail;
    var head, ids, rest := Enc(|lists[0]|, 4), IdBytes(lists[0]), Body(lists[1..]);
    DecEnc(|lists[0]|, 4);
    JoinFour(head, ids, rest, tail);
    CutWindows(data, pos, head, ids, rest + tail);
  }

  lemma {:induction false} DamagedFails(data: Bytes, pos: nat, lists: Lists, tail: Bytes, error: Error)
    requires Damaged(data, pos, lists, tail, error)
    ensures Parsed(data, pos) == Err(error)
    decreases |lists|
  {
    if lists == [] {
      assert Body(lists) + tail == tail;
      hide Parsed, BadTail, Window;
      TailFails(data, pos, error);
      return;
    }
    hide Parsed, BadTail, Damaged, Dec, Ids, Window;
    var next := pos + 4 + 4 * |lists[0]|;
    CutDamaged(data, pos, lists, tail, error);
    DamagedFails(data, next, lists[1..], tail, error);
    ParsedStep(data, pos, next);
  }

  lemma {:induction false} JoinDamaged(data: Bytes, pos: nat, next: nat, ids: seq<u32>, lists: Lists, tail: Bytes,
                                       error: Error)
    requires pos + 4 <= next <= |data| && |ids| < U32
    requires Window(data, pos, pos + 4) == Enc(|ids|, 4) && Window(data, pos + 4, next) == IdBytes(ids)
    requires Damaged(data, next, lists, tail, error)
    ensures Damaged(data, pos, [ids] + lists, tail, error)
  {
    hide Enc, IdBytes, Window, BadTail, Body, Degrees;
    BodyOf(Enc(|ids|, 4) + IdBytes(ids) + Body(lists), ids, lists, [ids] + lists);
    JoinWindows(data, pos, pos + 4, next);
    JoinFour(Enc(|ids|, 4), IdBytes(ids), Body(lists), tail);
  }

  lemma {:induction false} JoinRead(data: Bytes, pos: nat, next: nat, lists: Lists, tail: Bytes, error: Error)
    requires pos + 4 <= next <= |data| && next == pos + 4 + 4 * Dec(Window(data, pos, pos + 4))
    requires Damaged(data, next, lists, tail, error)
    ensures Damaged(data, pos, [Ids(Window(data, pos + 4, next))] + lists, tail, error)
  {
    hide Enc, Dec, Ids, IdBytes, Window, Damaged;
    FourBytes();
    EncDec(Window(data, pos, pos + 4));
    BytesOfIds(Window(data, pos + 4, next));
    JoinDamaged(data, pos, next, Ids(Window(data, pos + 4, next)), lists, tail, error);
  }

  lemma {:induction false} OnlyTail(data: Bytes, pos: nat, error: Error)
    requires pos <= |data| && BadTail(Window(data, pos, |data|), error)
    ensures Damaged(data, pos, [], Window(data, pos, |data|), error)
  {
    hide BadTail;
    assert Body([]) == [];
  }

  lemma {:induction false} FailsDamaged(data: Bytes, pos: nat) returns (lists: Lists, tail: Bytes)
    requires pos <= |data| && Parsed(data, pos).Err?
    ensures Damaged(data, pos, lists, tail, Parsed(data, pos).error)
    decreases |data| - pos
  {
    hide Parsed, BadTail, Damaged, Dec, Ids, Window;
    FailsCases(data, pos);
    if BadTail(Window(data, pos, |data|), Parsed(data, pos).error) {
      OnlyTail(data, pos, Parsed(data, pos).error);
      lists, tail := [], Window(data, pos, |data|);
    } else {
      var next := pos + 4 + 4 * Dec(Window(data, pos, pos + 4));
      var more;
      more, tail := FailsDamaged(data, next);
      JoinRead(data, pos, next, more, tail, Parsed(data, next).error);
      lists := [Ids(Window(data, pos + 4, next))] + more;
    }
  }

  lemma {:induction false} FailsCases(data: Bytes, pos: nat)
    requires pos <= |data| && Parsed(data, pos).Err?
    ensures BadTail(Window(data, pos, |data|), Parsed(data, pos).error)
      || (&& pos + 4 <= |data| && pos + 4 + 4 * Dec(Window(data, pos, pos + 4)) <= |data|
          && Parsed(data, pos + 4 + 4 * Dec(Window(data, pos, pos + 4))) == Err(Parsed(data, pos).error))
  {
    if pos + 4 <= |data| {
      DecFour(Window(data, pos, pos + 4));
      hide Dec;
      assert Little(Window(data, pos, |data|), 0) == Little(Window(data, pos, pos + 4), 0);
    }
  }

  /** A file is refused exactly when its header is short, or when after some whole lists there is a tail that is none:
      with a format error for one to three bytes, and a value error for a list that is cut off. */
  lemma {:induction false} LoadErrors(data: Bytes, error: Error)
    ensures Loaded(data) == Err(error)
      <==> (if |data| < 24 then error == ValueError else exists lists, tail :: Damaged(data, 24, lists, tail, error))
  {
    hide Damaged, Parsed, Dec;
    if |data| >= 24 {
      if lists, tail :| Damaged(data, 24, lists, tail, error) {
        DamagedFails(data, 24, lists, tail, error);
      }
      if Parsed(data, 24).Err? {
        var lists, tail := FailsDamaged(data, 24);
      }
    }
  }

  // --- Adjacency records ------------------------------------------------------------------------------

  function Degree(ids: seq<u32>, maxDegree: u32): (k: u32) {
    if |ids| < maxDegree then |ids| else maxDegree
  }

  /** The neighbours a record has room for. */
  function Truncated(ids: seq<u32>, maxDegree: u32): (t: seq<u32>)
    ensures |t| == Degree(ids, maxDegree)
  {
    ids[..Degree(ids, maxDegree)]
  }

  /** One row of the packed array: the degree, the neighbours, zeros. */
  function Row(ids: seq<u32>, maxDegree: u32): (row: seq<u32>)
    ensures |row| == maxDegree + 1
  {
    [Degree(ids, maxDegree)] + Truncated(ids, maxDegree) + Repeat<u32>(0, maxDegree - Degree(ids, maxDegree))
  }

  /** The filled array. */
  ghost predicate IsTable(rec: array2<u32>, neighbors: Lists, maxDegree: u32)
    reads rec
  {
    && rec.Length0 == |neighbors| && rec.Length1 == maxDegree + 1
    && forall i, j :: 0 <= i < |neighbors| && 0 <= j <= maxDegree ==> rec[i, j] == Row(neighbors[i], maxDegree)[j]
  }

  /** `adjacency_bytes` */
  method AdjacencyBytes(neighbors: Lists, maxDegree: u32) returns (recordBytes: nat, rec: array2<u32>)
    ensures recordBytes == 4 * (maxDegree + 1)
    ensures fresh(rec) && IsTable(rec, neighbors, maxDegree)
  {
    var width: nat := maxDegree + 1;
    rec := new u32[|neighbors|, width]((_, _) => 0);
    var i := 0;
    while i < |neighbors|
      invariant i <= |neighbors|
      invariant forall a, j :: 0 <= a < i && 0 <= j <= maxDegree ==> rec[a, j] == Row(neighbors[a], maxDegree)[j]
      invariant forall a, j :: i <= a < |neighbors| && 0 <= j <= maxDegree ==> rec[a, j] == 0
    {
      FillRow(rec, i, neighbors[i], maxDegree);
      i := i + 1;
    }
    recordBytes := 4 * width;
  }

  method FillRow(rec: array2<u32>, i: nat, ids: seq<u32>, maxDegree: u32)
    requires i < rec.Length0 && rec.Length1 == maxDegree + 1
    requires forall j :: 0 <= j <= maxDegree ==> rec[i, j] == 0
    modifies rec
    ensures forall j :: 0 <= j <= maxDegree ==> rec[i, j] == Row(ids, maxDegree)[j]
    ensures forall a, j :: 0 <= a < rec.Length0 && a != i && 0 <= j <= maxDegree ==> rec[a, j] == old(rec[a, j])
  {
    var k := Degree(ids, maxDegree);
    rec[i, 0] := k;
    var j := 0;
    while j < k
      invariant 0 <= j <= k && rec[i, 0] == k
      invariant forall b :: 1 <= b <= j ==> rec[i, b] == ids[b - 1]
      invariant forall b :: j < b <= maxDegree ==> rec[i, b] == 0
      invariant forall a, b :: 0 <= a < rec.Length0 && a != i && 0 <= b <= maxDegree ==> rec[a, b] == old(rec[a, b])
    {
      rec[i, 1 + j] := ids[j];
      j := j + 1;
    }
  }

  /** `rec[i].tobytes()` */
  function RecordBytes(ids: seq<u32>, maxDegree: u32): (b: Bytes)
    ensures |b| == 4 * (maxDegree + 1)
  {
    IdBytes(Row(ids, maxDegree))
  }

  /** The records of all nodes. */
  function Records(neighbors: Lists, maxDegree: u32): (records: seq<Bytes>)
    ensures |records| == |neighbors|
    ensures forall i :: 0 <= i < |records| ==> records[i] == RecordBytes(neighbors[i], maxDegree)
    decreases |neighbors|
  {
    if neighbors == [] then []
    else Records(neighbors[..|neighbors| - 1], maxDegree) + [RecordBytes(neighbors[|neighbors| - 1], maxDegree)]
  }

  method RowBytes(rec: array2<u32>, i: nat, ghost neighbors: Lists, ghost maxDegree: u32) returns (b: Bytes)
    requires IsTable(rec, neighbors, maxDegree) && i < |neighbors|
    ensures b == RecordBytes(neighbors[i], maxDegree)
  {
    var ids: seq<u32> := [];
    var j := 0;
    while j < rec.Length1
      invariant 0 <= j <= rec.Length1 && |ids| == j
      invariant forall a :: 0 <= a < j ==> ids[a] == rec[i, a]
    {
      ids := ids + [rec[i, j]];
      j := j + 1;
    }
    assert ids == Row(neighbors[i], maxDegree);
    b := IdBytes(ids);
  }

  function GraphLayout(count: nat, maxDegree: u32): (layout: NodeLayout)
    ensures layout.Valid() && layout.count == count && layout.recordBytes == 4 * (maxDegree + 1)
  {
    NodeLayout(4 * (maxDegree + 1), count)
  }

  lemma {:induction false} PadFull(record: Bytes)
    ensures Pad(record, |record|) == record
  {}

  /** There are pages for every node of the layout. */
  lemma {:induction false} EnoughPages(layout: NodeLayout)
    requires layout.Valid() && layout.Small()
    ensures layout.count <= Capacity(layout)
  {
    if layout.count > 0 {
      layout.RecordInFile(layout.count - 1);
      PageBound(layout, layout.count - 1);
    }
  }

  /** A complete page file of the graph. */
  ghost predicate IsGraphFile(file: Bytes, neighbors: Lists, maxDegree: u32) {
    var layout := GraphLayout(|neighbors|, maxDegree);
    |file| == layout.TotalPages() * PAGE_SIZE && IsImage(file, layout, Records(neighbors, maxDegree))
  }

  method ExportSmall(neighbors: Lists, maxDegree: u32, rec: array2<u32>) returns (r: Result<Bytes>)
    requires GraphLayout(|neighbors|, maxDegree).Small() && IsTable(rec, neighbors, maxDegree)
    ensures r.Ok? && IsGraphFile(r.value, neighbors, maxDegree)
  {
    hide IdBytes, Row;
    var writer := new PageWriter(GraphLayout(|neighbors|, maxDegree));
    var i := 0;
    while i < |neighbors|
      invariant i <= |neighbors| && fresh(writer) && writer.Valid()
      invariant writer.layout == GraphLayout(|neighbors|, maxDegree) && IsTable(rec, neighbors, maxDegree)
      invariant writer.records == Records(neighbors, maxDegree)[..i]
    {
      var record := RowBytes(rec, i, neighbors, maxDegree);
      PadFull(record);
      var _ := writer.Append(record);
      i := i + 1;
    }
    assert writer.records == Records(neighbors, maxDegree);
    EnoughPages(writer.layout);
    r := writer.Flush();
  }

  method ExportLarge(neighbors: Lists, maxDegree: u32, rec: array2<u32>) returns (file: Bytes)
    requires !GraphLayout(|neighbors|, maxDegree).Small() && IsTable(rec, neighbors, maxDegree)
    ensures IsGraphFile(file, neighbors, maxDegree)
  {
    hide IdBytes, Row;
    var writer := new PageWriterAligned(GraphLayout(|neighbors|, maxDegree));
    var i := 0;
    while i < |neighbors|
      invariant i <= |neighbors| && fresh(writer) && writer.Valid()
      invariant writer.layout == GraphLayout(|neighbors|, maxDegree) && IsTable(rec, neighbors, maxDegree)
      invariant writer.records == Records(neighbors, maxDegree)[..i]
    {
      var record := RowBytes(rec, i, neighbors, maxDegree);
      PadFull(record);
      var _ := writer.Append(record);
      i := i + 1;
    }
    assert writer.records == Records(neighbors, maxDegree);
    var size: nat;
    file, size := writer.Flush();
  }

  /** `export_shared_graph`: a maximum degree of zero stands for the graph's own. */
  method Export(g: Graph, requested: u32) returns (r: Result<Bytes>)
    ensures r.Ok? && IsGraphFile(r.value, g.neighbors, if requested == 0 then g.maxDegree else requested)
  {
    var maxDegree := if requested == 0 then g.maxDegree else requested;
    var recordBytes, rec := AdjacencyBytes(g.neighbors, maxDegree);
    if recordBytes >= 4096 {
      var file := ExportLarge(g.neighbors, maxDegree, rec);
      r := Ok(file);
    } else {
      r := ExportSmall(g.neighbors, maxDegree, rec);
    }
  }

  // --- Reading adjacency back -------------------------------------------------------------------------

  /** The neighbours listed in a record. */
  function Decoded(record: Bytes): Result<seq<u32>> {
    if |record| % 4 != 0 then Err(ValueError)
    else if Ids(record) == [] then Err(IndexError)
    else Ok(Listed(Ids(record)))
  }

  /** `read_adjacency_from_pages` */
  function Adjacency(data: map<nat, Bytes>, layout: NodeLayout, node: nat): Result<seq<u32>>
    requires layout.Valid()
  {
    match Extracted(data, layout, node)
    case Err(e) => Err(e)
    case Ok(record) => Decoded(record)
  }

  /** `arr[1 : 1 + k]` with k = arr[0] */
  function Listed(arr: seq<u32>): seq<u32>
    requires arr != []
  {
    if 1 + arr[0] < |arr| then arr[1..1 + arr[0]] else arr[1..]
  }

  lemma {:induction false} ListedRow(ids: seq<u32>, maxDegree: u32)
    ensures Listed(Row(ids, maxDegree)) == Truncated(ids, maxDegree)
  {}

  lemma {:induction false} DecodeRow(row: seq<u32>)
    requires row != []
    ensures Decoded(IdBytes(row)) == Ok(Listed(row))
  {
    hide IdBytes, Ids, Listed;
    IdsOfBytes(row);
  }

  /** Every node of an exported graph reads back as its first `maxDegree` neighbours, in order, from
      any set of pages of the file that contains the node's pages: for records below, at and above
      one page. */
  lemma {:induction false} AdjacencyRoundTrip(neighbors: Lists, maxDegree: u32, file: Bytes, data: map<nat, Bytes>,
                                              node: nat)
    requires IsGraphFile(file, neighbors, maxDegree) && PagesOf(data, file) && node < |neighbors|
    requires HasPages(data, GraphLayout(|neighbors|, maxDegree).NodePages(node))
    ensures Adjacency(data, GraphLayout(|neighbors|, maxDegree), node) == Ok(Truncated(neighbors[node], maxDegree))
  {
    var layout, row := GraphLayout(|neighbors|, maxDegree), Row(neighbors[node], maxDegree);
    assert Stored(file, layout, Records(neighbors, maxDegree));
    hide IdBytes, Ids, Row, Truncated, Listed, Decoded, Extracted, IsGraphFile, Stored, PagesOf, HasPages, GraphLayout;
    ExtractStored(data, file, layout, Records(neighbors, maxDegree), node);
    DecodeRow(row);
    ListedRow(neighbors[node], maxDegree);
  }

  /** The pages of every node are in the file, so a reader can ask for them. */
  lemma {:induction false} NodePagesInFile(neighbors: Lists, maxDegree: u32, file: Bytes, node: nat)
    requires IsGraphFile(file, neighbors, maxDegree) && node < |neighbors|
    ensures forall p :: p in GraphLayout(|neighbors|, maxDegree).NodePages(node) ==> (p + 1) * PAGE_SIZE <= |file|
  {
    GraphLayout(|neighbors|, maxDegree).RecordInFile(node);
  }

  lemma {:induction false} RowWord(ids: seq<u32>, maxDegree: u32, t: nat)
    requires t <= maxDegree
    ensures Row(ids, maxDegree)[t] == if t == 0 then (if |ids| < maxDegree then |ids| else maxDegree)
                                      else if t <= |ids| then ids[t - 1] else 0
  {}

  lemma {:induction false} ExportedRecord(neighbors: Lists, maxDegree: u32, file: Bytes, node: nat)
    requires IsGraphFile(file, neighbors, maxDegree) && node < |neighbors|
    ensures RecordStored(file, GraphLayout(|neighbors|, maxDegree), node, RecordBytes(neighbors[node], maxDegree))
  {
    hide RecordStored, GraphLayout, RecordBytes, Records;
    assert Records(neighbors, maxDegree)[node] == RecordBytes(neighbors[node], maxDegree);
  }

  /** What every word of an exported record is: the number of neighbours kept, the neighbours, zeros. */
  lemma {:induction false} ExportedWord(neighbors: Lists, maxDegree: u32, file: Bytes, node: nat, t: nat)
    requires IsGraphFile(file, neighbors, maxDegree) && node < |neighbors| && t <= maxDegree
    ensures var at := GraphLayout(|neighbors|, maxDegree).NodeOffset(node) + 4 * t;
      var ids := neighbors[node];
      && at + 4 <= |file|
      && Little(file, at) == if t == 0 then (if |ids| < maxDegree then |ids| else maxDegree)
                             else if t <= |ids| then ids[t - 1] else 0
  {
    hide IsGraphFile, GraphLayout, Row, IdBytes, Little, NodeLayout.NodeOffset;
    ExportedRecord(neighbors, maxDegree, file, node);
    RowWord(neighbors[node], maxDegree, t);
    IdBytesAt(Row(neighbors[node], maxDegree), t);
    var layout := GraphLayout(|neighbors|, maxDegree);
    LittleIn(file, layout.NodeOffset(node), RecordBytes(neighbors[node], maxDegree), 4 * t);
  }

  /** The whole way: a graph written to its canonical file, loaded, exported and read back. */
  lemma {:induction false} GraphRoundTrip(g: Graph, sizeField: nat, maxDegree: u32, file: Bytes, data: map<nat, Bytes>,
                                          node: nat)
    requires Degrees(g.neighbors) && g.numStartPoints < Range256(8) && Loaded(Serialized(g, sizeField)).Ok?
    requires IsGraphFile(file, Loaded(Serialized(g, sizeField)).value.neighbors, maxDegree)
    requires node < |g.neighbors| && PagesOf(data, file)
    requires HasPages(data, GraphLayout(|g.neighbors|, maxDegree).NodePages(node))
    ensures Adjacency(data, GraphLayout(|g.neighbors|, maxDegree), node) == Ok(Truncated(g.neighbors[node], maxDegree))
  {
    LoadSerialized(g, sizeField);
    hide Loaded, Serialized, Adjacency, IsGraphFile;
    AdjacencyRoundTrip(g.neighbors, maxDegree, file, data, node);
  }
}
