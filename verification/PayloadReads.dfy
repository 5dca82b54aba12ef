/** `OursGatedAccessor.distance_batch`, up to the records it computes distances from: whether reads are
    coalesced, and whether pages are reused, does not change them. */
module PayloadReads {
  import opened Layout
  import opened PageStore
  import opened SortedSets
  import opened PageCache
  import opened PageReaders
  import opened MemoryReader
  import opened Wrappers

  /** The namespace of cache calls that name none. Files are named by absolute paths. */
  const DEFAULT: Namespace := "default"

  // --- Either reader --------------------------------------------------------------------------------------

  datatype Reader = Direct(direct: DirectPageReader) | Memory(memory: MemoryPageReader) {

    function File(): Bytes {
      match this
      case Direct(r) => r.file
      case Memory(r) => r.file
    }

    function Name(): Namespace {
      match this
      case Direct(r) => r.namespace
      case Memory(r) => r.namespace
    }

    /** What a page the file does not have raises. */
    function Failure(): Error {
      match this
      case Direct(_) => ShortRead
      case Memory(_) => KeyError
    }

    /** Ready to read its file from this disk. */
    ghost predicate On(disk: Disk) {
      && (match this case Direct(r) => r.Valid() case Memory(r) => r.Valid())
      && Name() in disk && disk[Name()] == File()
    }

    /** What a read without caches answers. */
    function Answer(pages: seq<nat>): (r: Result<Pages>)
      ensures r.Ok? <==> InFile(File(), pages)
      ensures r.Ok? ==> r == PlainRead(File(), pages)
      ensures r.Err? ==> r.error == Failure()
    {
      if InFile(File(), pages) then PlainRead(File(), pages) else Err(Failure())
    }
  }

  /** `pr.read_pages(pages, query_cache=qcache, stats=stats)`: without a shared cache both readers answer what
      reading without caches does. */
  method ReadThrough(reader: Reader, pages: seq<nat>, query: QueryPageCache?, stats: IOStats?, ghost disk: Disk)
    returns (r: Result<Pages>)
    requires reader.On(disk) && Sound(query, null, disk)
    modifies if query == null then {} else {query}, stats
    ensures Sound(query, null, disk) && r == reader.Answer(pages)
  {
    hide PlainRead, Coherent, Plan.Of, Plan.Done, Answers;
    ghost var plan;
    match reader
    case Direct(direct) =>
      PlainCases(direct.file, pages);
      r, plan := direct.ReadPages(pages, query, null, stats, disk);
    case Memory(memory) =>
      r, plan := memory.ReadPages(pages, query, null, stats, disk);
  }

  lemma {:induction false} PlainCases(file: Bytes, pages: seq<nat>)
    ensures PlainRead(file, pages).Ok? <==> InFile(file, pages)
    ensures PlainRead(file, pages).Err? ==> PlainRead(file, pages) == Err(ShortRead)
  {}

  // --- Records --------------------------------------------------------------------------------------------

  /** The pages of these nodes. */
  function PageSet(layout: NodeLayout, ids: seq<nat>): set<nat>
    requires layout.Valid()
    decreases |ids|
  {
    if ids == [] then {}
    else PageSet(layout, ids[..|ids| - 1]) + Elements(layout.NodePages(ids[|ids| - 1]))
  }

  lemma {:induction false} InPageSet(layout: NodeLayout, ids: seq<nat>, p: nat)
    requires layout.Valid()
    ensures p in PageSet(layout, ids) <==> exists j :: 0 <= j < |ids| && p in layout.NodePages(ids[j])
    decreases |ids|
  {
    if ids == [] {
      return;
    }
    var n := |ids| - 1;
    InPageSet(layout, ids[..n], p);
    if p in layout.NodePages(ids[n]) {
      return;
    }
    if p in PageSet(layout, ids[..n]) {
      var j :| 0 <= j < n && p in layout.NodePages(ids[..n][j]);
      assert p in layout.NodePages(ids[j]);
    }
  }

  /** The pages a call returned, without those it returned nothing for. */
  function Present(out: Pages): (data: map<nat, Bytes>)
    ensures forall p :: p in data <==> p in out && out[p].Some?
    ensures forall p :: p in data ==> Some(data[p]) == out[p]
  {
    map p | p in out && out[p].Some? :: out[p].value
  }

  predicate RecordInFile(file: Bytes, layout: NodeLayout, node: nat)
    requires layout.Valid()
  {
    InFile(file, layout.NodePages(node))
  }

  /** The record of a node, cut out of the file. */
  function RecordAt(file: Bytes, layout: NodeLayout, node: nat): (record: Bytes)
    requires layout.Valid() && RecordInFile(file, layout, node)
    ensures RecordStored(file, layout, node, record)
  {
    layout.RecordInPages(node);
    assert layout.NodePages(node)[layout.PagesPerRecord() - 1] == layout.NodePage(node) + layout.PagesPerRecord() - 1;
    file[layout.NodeOffset(node)..layout.NodeOffset(node) + layout.recordBytes]
  }

  predicate AllInPages(file: Bytes, layout: NodeLayout, ids: seq<nat>)
    requires layout.Valid()
  {
    forall j :: 0 <= j < |ids| ==> RecordInFile(file, layout, ids[j])
  }

  lemma {:induction false} PagesInFile(file: Bytes, layout: NodeLayout, ids: seq<nat>, pages: seq<nat>)
    requires layout.Valid() && forall p :: p in pages <==> p in PageSet(layout, ids)
    ensures InFile(file, pages) <==> AllInPages(file, layout, ids)
  {
    AllInFile(file, pages);
    forall p: nat ensures p in pages <==> exists j :: 0 <= j < |ids| && p in layout.NodePages(ids[j]) {
      InPageSet(layout, ids, p);
    }
    forall j | 0 <= j < |ids|
      ensures RecordInFile(file, layout, ids[j]) <==> forall p :: p in layout.NodePages(ids[j]) ==> HasPage(file, p)
    {
      AllInFile(file, layout.NodePages(ids[j]));
    }
  }

  /** Pages read are pages of the file, and every one asked for is there. */
  lemma {:induction false} ReadHas(file: Bytes, pages: seq<nat>, wanted: seq<nat>, got: Pages)
    requires Ok(got) == PlainRead(file, pages) && forall p :: p in wanted ==> p in pages
    ensures PagesOf(Present(got), file) && HasPages(Present(got), wanted)
  {
    assert InFile(file, pages);
    AllInFile(file, pages);
    hide FilePage;
    forall t | 0 <= t < |wanted| ensures wanted[t] in Present(got) {
      assert wanted[t] in wanted;
    }
  }

  /** The record of each node comes out of the pages read. */
  lemma {:induction false} ExtractRead(file: Bytes, pages: seq<nat>, layout: NodeLayout, node: nat, got: Pages)
    requires layout.Valid() && Ok(got) == PlainRead(file, pages) && RecordInFile(file, layout, node)
    requires forall p :: p in layout.NodePages(node) ==> p in pages
    ensures Extracted(Present(got), layout, node) == Ok(RecordAt(file, layout, node))
  {
    ReadHas(file, pages, layout.NodePages(node), got);
    var data, record := Present(got), RecordAt(file, layout, node);
    hide Present, PagesOf, RecordStored, PlainRead, Extracted;
    if layout.Small() {
      assert layout.NodePages(node)[0] == layout.NodePage(node);
      ExtractSmall(data, file, layout, node, record);
    } else {
      ExtractLarge(data, file, layout, node, record);
    }
  }

  lemma {:induction false} NotCached(contents: Contents, p: nat, disk: Disk)
    requires Coherent(contents, disk) && DEFAULT !in disk
    ensures Key(DEFAULT, p) !in contents
  {
    assert forall k :: k in contents ==> IsPage(contents[k], k, disk);
  }

  /** A page on its own: the default namespace is asked first, which no file uses. */
  method ReadOne(p: nat, reader: Reader, query: QueryPageCache?, stats: IOStats?, ghost disk: Disk)
    returns (r: Result<Option<Bytes>>)
    requires reader.On(disk) && DEFAULT !in disk && Sound(query, null, disk)
    modifies if query == null then {} else {query}, stats
    ensures Sound(query, null, disk)
    ensures r == if HasPage(reader.File(), p) then Ok(Some(FilePage(reader.File(), p))) else Err(reader.Failure())
  {
    hide Coherent, FilePage, Reader.On, PlainRead;
    if query != null {
      NotCached(query.pages, p, disk);
      var rec := query.Get(p, DEFAULT);
      if rec.Some? {
        return Ok(rec);
      }
    }
    var read := ReadThrough(reader, [p], query, stats, disk);
    OnePage(reader.File(), p);
    r := if read.Err? then Err(read.error) else Ok(read.value[p]);
  }

  lemma {:induction false} OnePage(file: Bytes, p: nat)
    ensures InFile(file, [p]) <==> HasPage(file, p)
    ensures PlainRead(file, [p])
      == if HasPage(file, p) then Ok(map[p := Some(FilePage(file, p))]) else Err(ShortRead)
  {
    hide FilePage;
    assert [p][0] == p;
    assert Elements([p]) == {p};
    if HasPage(file, p) {
      assert InFile(file, [p]);
      assert PlainRead(file, [p]).value == map[p := Some(FilePage(file, p))];
    }
  }

  lemma {:induction false} FetchedPlain(file: Bytes, pages: seq<nat>)
    requires InFile(file, pages)
    ensures PlainRead(file, pages) == Ok(Fetched(map[], pages, file))
  {
    hide FilePage;
    assert PlainRead(file, pages).value == Fetched(map[], pages, file);
  }

  /** One read per page. */
  method ReadOneByOne(pages: seq<nat>, reader: Reader, query: QueryPageCache?, stats: IOStats?, ghost disk: Disk)
    returns (r: Result<Pages>)
    requires reader.On(disk) && DEFAULT !in disk && Sound(query, null, disk)
    modifies if query == null then {} else {query}, stats
    ensures Sound(query, null, disk) && r == reader.Answer(pages)
  {
    hide Coherent, FilePage, HasPage, PlainRead, Sound, Reader.On;
    var got: Pages := map[];
    var i := 0;
    while i < |pages|
      invariant i <= |pages| && Sound(query, null, disk)
      invariant InFile(reader.File(), pages[..i]) && got == Fetched(map[], pages[..i], reader.File())
    {
      var p := pages[i];
      var read := ReadOne(p, reader, query, stats, disk);
      if read.Err? {
        assert !InFile(reader.File(), pages);
        return Err(read.error);
      }
      got := got[p := read.value];
      FetchedNext(pages, i, reader.File());
      i := i + 1;
    }
    assert pages[..i] == pages;
    FetchedPlain(reader.File(), pages);
    r := Ok(got);
  }

  lemma {:induction false} FetchedNext(pages: seq<nat>, i: nat, file: Bytes)
    requires i < |pages| && InFile(file, pages[..i]) && HasPage(file, pages[i])
    ensures InFile(file, pages[..i + 1])
    ensures Fetched(map[], pages[..i + 1], file)
      == Fetched(map[], pages[..i], file)[pages[i] := Some(FilePage(file, pages[i]))]
  {
    hide FilePage;
    assert pages[..i + 1][..i] == pages[..i];
  }

  /** The pages, whatever the settings. */
  method Read(pages: seq<nat>, reader: Reader, query: QueryPageCache?, stats: IOStats?, coalesce: bool, reuse: bool,
              ghost disk: Disk) returns (r: Result<Pages>)
    requires reader.On(disk) && DEFAULT !in disk && Sound(query, null, disk)
    modifies if query == null then {} else {query}, stats
    ensures Sound(query, null, disk) && r == reader.Answer(pages)
  {
    hide Coherent, PlainRead, Reader.On, Reader.Answer;
    if !reuse && query != null {
      query.Clear();
      NoPages(disk);
    }
    if coalesce {
      r := ReadThrough(reader, pages, query, stats, disk);
    } else {
      r := ReadOneByOne(pages, reader, query, stats, disk);
    }
  }

  method ExtractAll(ids: seq<nat>, layout: NodeLayout, got: Pages, ghost pages: seq<nat>, ghost file: Bytes)
    returns (records: seq<Bytes>)
    requires layout.Valid() && Ok(got) == PlainRead(file, pages) && AllInPages(file, layout, ids)
    requires forall p :: p in pages <==> p in PageSet(layout, ids)
    ensures |records| == |ids| && forall j :: 0 <= j < |ids| ==> records[j] == RecordAt(file, layout, ids[j])
  {
    hide RecordAt, Present, PlainRead, RecordInFile, Extracted;
    records := [];
    var j := 0;
    while j < |ids|
      invariant j <= |ids| && |records| == j
      invariant forall k :: 0 <= k < j ==> records[k] == RecordAt(file, layout, ids[k])
    {
      forall p | p in layout.NodePages(ids[j]) ensures p in pages {
        InPageSet(layout, ids, p);
      }
      ExtractRead(file, pages, layout, ids[j], got);
      var record := ExtractNode(Present(got), layout, ids[j]);
      records := records + [record.value];
      j := j + 1;
    }
  }

  /** The records of the nodes, whatever the settings: a function of the file alone. */
  method Records(ids: seq<nat>, layout: NodeLayout, reader: Reader, query: QueryPageCache?, stats: IOStats?,
                 coalesce: bool, reuse: bool, ghost disk: Disk) returns (r: Result<seq<Bytes>>)
    requires layout.Valid() && reader.On(disk) && DEFAULT !in disk && Sound(query, null, disk)
    modifies if query == null then {} else {query}, stats
    ensures Sound(query, null, disk)
    ensures r.Ok? <==> AllInPages(reader.File(), layout, ids)
    ensures r.Ok? ==> |r.value| == |ids|
    ensures r.Ok? ==> forall j :: 0 <= j < |ids| ==> r.value[j] == RecordAt(reader.File(), layout, ids[j])
    ensures r.Err? ==> r.error == reader.Failure()
  {
    hide RecordAt, PlainRead, Sound, InFile, RecordInFile, Reader.On;
    var pages := Sort(PageSet(layout, ids));
    PagesInFile(reader.File(), layout, ids, pages);
    var read := Read(pages, reader, query, stats, coalesce, reuse, disk);
    if read.Err? {
      return Err(read.error);
    }
    var records := ExtractAll(ids, layout, read.value, pages, reader.File());
    r := Ok(records);
  }
}
