/** Where `disk_search` gets its data: adjacency lists read through the page caches, and distances computed from
    payload records read through them. */
module PagedGraph {
  import opened Layout
  import opened Encoding
  import opened PageStore
  import opened GraphFile
  import opened SortedSets
  import opened PageCache
  import opened ReadPlan
  import opened PageReaders
  import opened PayloadReads
  import opened Wrappers

  // --- What the files hold --------------------------------------------------------------------------------

  ghost predicate HoldsList(file: Bytes, layout: NodeLayout, u: nat, list: seq<nat>)
    requires layout.Valid()
  {
    RecordInFile(file, layout, u) && Decoded(RecordAt(file, layout, u)) == Ok(list)
  }

  /** The adjacency lists are those in the records of the file. */
  ghost predicate HoldsGraph(file: Bytes, layout: NodeLayout, adj: seq<seq<nat>>) {
    layout.Valid() && forall u :: 0 <= u < |adj| ==> HoldsList(file, layout, u, adj[u])
  }

  /** The distances are the scores of the records of the file. */
  ghost predicate HoldsScores(file: Bytes, layout: NodeLayout, score: Bytes -> real, dist: seq<real>) {
    layout.Valid()
    && forall v :: 0 <= v < |dist| ==> RecordInFile(file, layout, v) && dist[v] == score(RecordAt(file, layout, v))
  }

  /** The first `maxDegree` neighbours of every node. */
  function TruncatedAll(neighbors: Lists, maxDegree: u32): (lists: Lists)
    ensures |lists| == |neighbors|
    ensures forall u :: 0 <= u < |lists| ==> lists[u] == Truncated(neighbors[u], maxDegree)
    decreases |neighbors|
  {
    if neighbors == [] then []
    else TruncatedAll(neighbors[..|neighbors| - 1], maxDegree) + [Truncated(neighbors[|neighbors| - 1], maxDegree)]
  }

  /** An exported graph holds the first `maxDegree` neighbours of every node. */
  lemma {:induction false} ExportHolds(neighbors: Lists, maxDegree: u32, file: Bytes)
    requires IsGraphFile(file, neighbors, maxDegree)
    ensures HoldsGraph(file, GraphLayout(|neighbors|, maxDegree), TruncatedAll(neighbors, maxDegree))
  {
    var layout := GraphLayout(|neighbors|, maxDegree);
    hide GraphLayout, Truncated;
    forall u | 0 <= u < |neighbors| ensures HoldsList(file, layout, u, Truncated(neighbors[u], maxDegree)) {
      ExportHoldsOne(neighbors, maxDegree, file, u);
    }
  }

  lemma {:induction false} ExportHoldsOne(neighbors: Lists, maxDegree: u32, file: Bytes, u: nat)
    requires IsGraphFile(file, neighbors, maxDegree) && u < |neighbors|
    ensures HoldsList(file, GraphLayout(|neighbors|, maxDegree), u, Truncated(neighbors[u], maxDegree))
  {
    var layout, row := GraphLayout(|neighbors|, maxDegree), Row(neighbors[u], maxDegree);
    NodePagesInFile(neighbors, maxDegree, file, u);
    AllInFile(file, layout.NodePages(u));
    var records := GraphFile.Records(neighbors, maxDegree);
    assert Stored(file, layout, records);
    assert RecordStored(file, layout, u, records[u]);
    assert RecordAt(file, layout, u) == IdBytes(row);
    hide IdBytes, Row, Decoded, Truncated, Listed, RecordAt, GraphLayout;
    DecodeRow(row);
    ListedRow(neighbors[u], maxDegree);
  }

  // --- The arguments of a search ----------------------------------------------------------------------------

  /** The readers, caches and settings a search is called with, and how a record is scored against its query. */
  datatype Source = Source(adjReader: DirectPageReader, adjLayout: NodeLayout, payload: Reader,
                           payloadLayout: NodeLayout, score: Bytes -> real, query: QueryPageCache?,
                           shared: SharedPageCache?, stats: IOStats, coalesce: bool, reuse: bool)
  {
    function Frame(): set<object> {
      (if query == null then {} else {query}) + (if shared == null then {} else {shared}) + {stats}
    }

    /** The readers read the files of this disk. */
    ghost predicate On(disk: Disk) {
      && adjReader.Valid() && adjReader.namespace in disk && disk[adjReader.namespace] == adjReader.file
      && payload.On(disk) && DEFAULT !in disk && adjLayout.Valid() && payloadLayout.Valid()
    }

    /** The caches hold pages of this disk only. */
    ghost predicate Ready(disk: Disk)
      reads query, shared
    {
      On(disk) && Sound(query, shared, disk)
    }

    /** The files hold these lists and these distances. */
    ghost predicate Holds(adj: seq<seq<nat>>, dist: seq<real>) {
      && HoldsGraph(adjReader.file, adjLayout, adj)
      && HoldsScores(payload.File(), payloadLayout, score, dist)
    }
  }

  lemma {:induction false} SoundParts(query: QueryPageCache?, shared: SharedPageCache?, disk: Disk)
    ensures Sound(query, shared, disk) <==>
      Sound(query, null, disk) && Usable(shared) && Coherent(SharedPages(shared).at, disk)
  {
    NoPages(disk);
    hide Coherent;
  }

  // --- Reading ----------------------------------------------------------------------------------------------

  /** The records of these nodes can be cut out of the pages. */
  ghost predicate Serves(got: Pages, src: Source, u: nat)
    requires src.adjLayout.Valid()
  {
    RecordInFile(src.adjReader.file, src.adjLayout, u)
    && Extracted(Present(got), src.adjLayout, u) == Ok(RecordAt(src.adjReader.file, src.adjLayout, u))
  }

  lemma {:induction false} ListsInFile(src: Source, toExpand: seq<nat>, adj: seq<seq<nat>>)
    requires HoldsGraph(src.adjReader.file, src.adjLayout, adj)
    requires forall i :: 0 <= i < |toExpand| ==> toExpand[i] < |adj|
    ensures AllInPages(src.adjReader.file, src.adjLayout, toExpand)
  {
    hide RecordInFile, RecordAt, Decoded;
    forall i | 0 <= i < |toExpand| ensures RecordInFile(src.adjReader.file, src.adjLayout, toExpand[i]) {
      assert HoldsList(src.adjReader.file, src.adjLayout, toExpand[i], adj[toExpand[i]]);
    }
  }

  lemma {:induction false} ListsServed(src: Source, toExpand: seq<nat>, pages: seq<nat>, got: Pages)
    requires src.adjLayout.Valid() && AllInPages(src.adjReader.file, src.adjLayout, toExpand)
    requires Ok(got) == PlainRead(src.adjReader.file, pages)
    requires forall p :: p in pages <==> p in PageSet(src.adjLayout, toExpand)
    ensures forall i :: 0 <= i < |toExpand| ==> Serves(got, src, toExpand[i])
  {
    hide PlainRead, RecordInFile, RecordAt, Present, Extracted, PageSet;
    forall i | 0 <= i < |toExpand| ensures Serves(got, src, toExpand[i]) {
      forall p | p in src.adjLayout.NodePages(toExpand[i]) ensures p in pages {
        InPageSet(src.adjLayout, toExpand, p);
      }
      ExtractRead(src.adjReader.file, pages, src.adjLayout, toExpand[i], got);
    }
  }

  /** Fetch the pages of the nodes to expand, through both caches. */
  method FetchLists(src: Source, toExpand: seq<nat>, ghost adj: seq<seq<nat>>, ghost dist: seq<real>, ghost disk: Disk)
    returns (got: Pages)
    requires src.Ready(disk) && src.Holds(adj, dist) && forall i :: 0 <= i < |toExpand| ==> toExpand[i] < |adj|
    modifies src.Frame()
    ensures src.Ready(disk) && forall i :: 0 <= i < |toExpand| ==> Serves(got, src, toExpand[i])
  {
    hide Sound, PlainRead, InFile, Plan.Of, Plan.Done, HoldsScores, HoldsGraph, Serves, AllInPages, PageSet, Sorted;
    ListsInFile(src, toExpand, adj);
    assert src.adjLayout.Valid();
    var pages := Sort(PageSet(src.adjLayout, toExpand));
    PagesInFile(src.adjReader.file, src.adjLayout, toExpand, pages);
    PlainCases(src.adjReader.file, pages);
    var read, _ := src.adjReader.ReadPages(pages, src.query, src.shared, src.stats, disk);
    got := read.value;
    ListsServed(src, toExpand, pages, got);
  }

  /** The adjacency list in the record of one node. */
  method ReadList(src: Source, got: Pages, u: nat, ghost adj: seq<seq<nat>>) returns (arr: seq<nat>)
    requires HoldsGraph(src.adjReader.file, src.adjLayout, adj) && u < |adj| && Serves(got, src, u)
    ensures arr == adj[u]
  {
    hide Listed, Ids, RecordAt, Extracted, Present, RecordInFile;
    var rec := ExtractNode(Present(got), src.adjLayout, u);
    assert HoldsList(src.adjReader.file, src.adjLayout, u, adj[u]);
    arr := Listed(Ids(rec.value));
  }

  /** `distance_batch` */
  method ScoreBatch(src: Source, ids: seq<nat>, ghost adj: seq<seq<nat>>, ghost dist: seq<real>, ghost disk: Disk)
    returns (d: seq<real>)
    requires src.Ready(disk) && src.Holds(adj, dist) && forall j :: 0 <= j < |ids| ==> ids[j] < |dist|
    modifies src.Frame()
    ensures src.Ready(disk) && |d| == |ids| && forall j :: 0 <= j < |ids| ==> d[j] == dist[ids[j]]
  {
    hide Sound, RecordInFile, RecordAt, HoldsGraph;
    SoundParts(src.query, src.shared, disk);
    assert AllInPages(src.payload.File(), src.payloadLayout, ids);
    var records := PayloadReads.Records(ids, src.payloadLayout, src.payload, src.query, src.stats, src.coalesce,
                                        src.reuse, disk);
    SoundParts(src.query, src.shared, disk);
    d := [];
    while |d| < |ids|
      invariant |d| <= |ids| && forall j :: 0 <= j < |d| ==> d[j] == dist[ids[j]]
    {
      d := d + [src.score(records.value[|d|])];
    }
  }
}
