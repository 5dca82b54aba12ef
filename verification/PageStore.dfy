/** The page writers, and reading records back from pages. */
module PageStore {
  import opened Arith
  import opened Collections
  import opened Layout
  import opened Wrappers

  /** The records lie at their offsets in the file. */
  ghost predicate Stored(file: Bytes, layout: NodeLayout, records: seq<Bytes>) {
    && layout.Valid()
    && forall i :: 0 <= i < |records| ==> RecordStored(file, layout, i, records[i])
  }

  ghost predicate RecordStored(file: Bytes, layout: NodeLayout, i: nat, record: Bytes)
    requires layout.Valid()
  {
    && |record| == layout.recordBytes
    && layout.NodeOffset(i) + layout.recordBytes <= |file|
    && file[layout.NodeOffset(i)..layout.NodeOffset(i) + layout.recordBytes] == record
  }

  /** Byte k belongs to one of the first n records. */
  ghost predicate InRecord(layout: NodeLayout, n: nat, k: nat)
    requires layout.Valid()
  {
    exists i :: 0 <= i < n && layout.NodeOffset(i) <= k < layout.NodeOffset(i) + layout.recordBytes
  }

  /** Every byte outside the records is zero. */
  ghost predicate ZeroElsewhere(file: Bytes, layout: NodeLayout, n: nat)
    requires layout.Valid()
  {
    forall k :: 0 <= k < |file| && !InRecord(layout, n, k) ==> file[k] == 0
  }

  /** What both writers promise of a flushed file. */
  ghost predicate IsImage(file: Bytes, layout: NodeLayout, records: seq<Bytes>) {
    Stored(file, layout, records) && ZeroElsewhere(file, layout, |records|)
  }

  // --- Records packed into pages ------------------------------------------------------------------------

  /** How many nodes have their first page among those of the layout. */
  function Capacity(layout: NodeLayout): nat
    requires layout.Valid()
  {
    if layout.Small() then layout.TotalPages() * layout.RecordsPerPage() else layout.count
  }

  /** Python's `s[lo:hi] = data`: the slice becomes `data`, whatever its length. */
  function SetSlice(s: Bytes, lo: nat, hi: nat, data: Bytes): Bytes
    requires lo <= hi
  {
    (if lo <= |s| then s[..lo] else s) + data + if hi <= |s| then s[hi..] else []
  }

  function ZeroPages(n: nat): (pages: seq<Bytes>)
    ensures |pages| == n && forall i :: 0 <= i < n ==> pages[i] == Zeros(PAGE_SIZE)
  {
    Repeat(Zeros(PAGE_SIZE), n)
  }

  /** The pages once these records were written. */
  function Written(layout: NodeLayout, records: seq<Bytes>): (pages: seq<Bytes>)
    requires layout.Valid() && |records| <= Capacity(layout)
    ensures |pages| == layout.TotalPages()
    decreases |records|
  {
    if records == [] then ZeroPages(layout.TotalPages())
    else
      var n := |records| - 1;
      PageBound(layout, n);
      PutRecord(Written(layout, records[..n]), layout, n, records[n])
  }

  function PutRecord(pages: seq<Bytes>, layout: NodeLayout, node: nat, record: Bytes): (r: seq<Bytes>)
    requires layout.Valid() && layout.NodePage(node) < |pages|
    ensures |r| == |pages|
  {
    var page, at := layout.NodePage(node), layout.InPage(node);
    pages[page := SetSlice(pages[page], at, at + layout.recordBytes, record)]
  }

  /** `PageWriter` */
  class PageWriter {
    const layout: NodeLayout
    var records: seq<Bytes>

    ghost predicate Valid()
      reads this
    {
      layout.Valid() && forall i :: 0 <= i < |records| ==> |records[i]| == layout.recordBytes
    }

    constructor (layout: NodeLayout)
      requires layout.Valid()
      ensures Valid() && this.layout == layout && records == []
    {
      this.layout := layout;
      records := [];
    }

    method Append(record: Bytes) returns (r: Result<nat>)
      requires Valid()
      modifies this
      ensures Valid()
      ensures |record| > layout.recordBytes ==> r == Err(ValueError) && records == old(records)
      ensures |record| <= layout.recordBytes ==>
        r == Ok(|old(records)|) && records == old(records) + [Pad(record, layout.recordBytes)]
    {
      if |record| > layout.recordBytes {
        return Err(ValueError);
      }
      records := records + [Pad(record, layout.recordBytes)];
      r := Ok(|records| - 1);
    }

    /** Records past the last page of the layout are an index error. Up to a page in size, records lie where the
        layout says; a larger one makes its first page longer, and the file with it. */
    method Flush() returns (r: Result<Bytes>)
      requires Valid()
      ensures r.Ok? <==> |records| <= Capacity(layout)
      ensures r.Ok? && layout.recordBytes <= PAGE_SIZE ==>
        |r.value| == layout.TotalPages() * PAGE_SIZE && IsImage(r.value, layout, records)
      ensures r.Ok? && layout.recordBytes > PAGE_SIZE ==>
        |r.value| == layout.TotalPages() * PAGE_SIZE + |records| * (layout.recordBytes - PAGE_SIZE)
      ensures r.Err? ==> r.error == IndexError
    {
      hide IsImage, PutRecord;
      var pages := ZeroPages(layout.TotalPages());
      var nodeId := 0;
      while nodeId < |records|
        invariant nodeId <= |records| && nodeId <= Capacity(layout)
        invariant pages == Written(layout, records[..nodeId])
      {
        var page := layout.NodeOffset(nodeId) / PAGE_SIZE;
        PageBound(layout, nodeId);
        if page >= layout.TotalPages() {
          return Err(IndexError);
        }
        WrittenNext(layout, records, nodeId);
        pages := PutRecord(pages, layout, nodeId, records[nodeId]);
        nodeId := nodeId + 1;
      }
      assert records[..nodeId] == records;
      r := Ok(Join(pages));
      if layout.recordBytes <= PAGE_SIZE {
        WrittenImage(layout, records);
      } else {
        WrittenGrows(layout, records);
      }
    }
  }

  lemma {:induction false} WrittenNext(layout: NodeLayout, records: seq<Bytes>, n: nat)
    requires layout.Valid() && n < |records| && n < Capacity(layout) && layout.NodePage(n) < layout.TotalPages()
    ensures Written(layout, records[..n + 1]) == PutRecord(Written(layout, records[..n]), layout, n, records[n])
  {
    hide PutRecord;
    assert records[..n + 1][..n] == records[..n];
  }

  predicate AllPages(pages: seq<Bytes>) {
    forall i :: 0 <= i < |pages| ==> |pages[i]| == PAGE_SIZE
  }

  /** Writing inside one page is writing at its place in the file. */
  lemma {:induction false} JoinPut(pages: seq<Bytes>, page: nat, at: nat, data: Bytes)
    requires AllPages(pages) && page < |pages| && at + |data| <= PAGE_SIZE
    ensures var after := pages[page := SetSlice(pages[page], at, at + |data|, data)];
      AllPages(after) && |Join(pages)| == |pages| * PAGE_SIZE && page * PAGE_SIZE + at + |data| <= |Join(pages)|
      && Join(after) == Overwrite(Join(pages), page * PAGE_SIZE + at, data)
  {
    var after := pages[page := SetSlice(pages[page], at, at + |data|, data)];
    JoinParts(pages, PAGE_SIZE);
    JoinParts(after, PAGE_SIZE);
    MulLess(page, |pages|, PAGE_SIZE);
    hide Join, SetSlice;
    var before, file := Join(pages), Join(after);
    var want := Overwrite(before, page * PAGE_SIZE + at, data);
    forall k | 0 <= k < |file| ensures file[k] == want[k] {
      JoinPutAt(pages, page, at, data, before, file, k);
    }
    assert file == want;
  }

  lemma {:induction false} CutByte(file: Bytes, parts: seq<Bytes>, w: nat, k: nat)
    requires CutInto(file, parts, w) && w > 0 && k < |file|
    ensures k / w < |parts| && k % w < |parts[k / w]| && file[k] == parts[k / w][k % w]
  {
    GroupOf(k, |parts|, w);
    var i := k / w;
    assert CutAt(file, i, w, parts[i]);
    assert k == i * w + k % w;
    assert file[i * w..i * w + w][k % w] == file[k];
  }

  lemma {:induction false} JoinPutAt(pages: seq<Bytes>, page: nat, at: nat, data: Bytes, before: Bytes, file: Bytes,
                                     k: nat)
    requires AllPages(pages) && page < |pages| && at + |data| <= PAGE_SIZE && k < |file| == |before|
    requires page * PAGE_SIZE + at + |data| <= |before|
    requires CutInto(before, pages, PAGE_SIZE)
    requires CutInto(file, pages[page := SetSlice(pages[page], at, at + |data|, data)], PAGE_SIZE)
    ensures file[k] == Overwrite(before, page * PAGE_SIZE + at, data)[k]
  {
    CutByte(before, pages, PAGE_SIZE, k);
    CutByte(file, pages[page := SetSlice(pages[page], at, at + |data|, data)], PAGE_SIZE, k);
    hide CutInto;
    var i := k / PAGE_SIZE;
    assert k == i * PAGE_SIZE + k % PAGE_SIZE;
    var lo := page * PAGE_SIZE + at;
    if i < page {
      MulMono(i + 1, page, PAGE_SIZE);
    } else if page < i {
      MulMono(page + 1, i, PAGE_SIZE);
    } else if lo <= k < lo + |data| {
      assert Overwrite(before, lo, data)[lo..lo + |data|][k - lo] == Overwrite(before, lo, data)[k];
    }
  }

  lemma {:induction false} JoinZeros(n: nat)
    ensures AllPages(ZeroPages(n)) && |Join(ZeroPages(n))| == n * PAGE_SIZE
    ensures forall k :: 0 <= k < |Join(ZeroPages(n))| ==> Join(ZeroPages(n))[k] == 0
    decreases n
  {
    if n == 0 {
    } else {
      JoinZeros(n - 1);
      assert ZeroPages(n)[..n - 1] == ZeroPages(n - 1);
    }
  }

  /** A record inside its first page. */
  lemma {:induction false} InsidePage(layout: NodeLayout, node: nat)
    requires layout.Valid() && layout.recordBytes <= PAGE_SIZE
    ensures layout.InPage(node) + layout.recordBytes <= PAGE_SIZE
    ensures layout.NodeOffset(node) == layout.NodePage(node) * PAGE_SIZE + layout.InPage(node)
  {
    if layout.Small() {
      layout.SmallInPage(node);
    } else {
      layout.LargeAligned(node);
    }
  }

  /** Records of up to a page lie where the layout says. */
  lemma {:induction false} WrittenImage(layout: NodeLayout, records: seq<Bytes>)
    requires layout.Valid() && layout.recordBytes <= PAGE_SIZE && |records| <= Capacity(layout)
    requires forall i :: 0 <= i < |records| ==> |records[i]| == layout.recordBytes
    ensures AllPages(Written(layout, records))
    ensures |Join(Written(layout, records))| == layout.TotalPages() * PAGE_SIZE
    ensures IsImage(Join(Written(layout, records)), layout, records)
    decreases |records|
  {
    hide Join, IsImage, AllPages, SetSlice, Capacity;
    if records == [] {
      JoinZeros(layout.TotalPages());
      ZeroImage(Join(ZeroPages(layout.TotalPages())), layout);
    } else {
      var n := |records| - 1;
      var before := Written(layout, records[..n]);
      WrittenImage(layout, records[..n]);
      PageBound(layout, n);
      InsidePage(layout, n);
      JoinPut(before, layout.NodePage(n), layout.InPage(n), records[n]);
      assert Written(layout, records) == PutRecord(before, layout, n, records[n]);
      WriteRecord(Join(before), layout, records, n);
      assert records[..n + 1] == records;
    }
  }

  /** The bytes of all pages together. */
  function Total(pages: seq<Bytes>): nat
    decreases |pages|
  {
    if pages == [] then 0 else Total(pages[..|pages| - 1]) + |pages[|pages| - 1]|
  }

  lemma {:induction false} JoinTotal(pages: seq<Bytes>)
    ensures |Join(pages)| == Total(pages)
    decreases |pages|
  {
    if pages == [] {
    } else {
      JoinTotal(pages[..|pages| - 1]);
    }
  }

  lemma {:induction false} TotalPut(pages: seq<Bytes>, i: nat, page: Bytes)
    requires i < |pages|
    ensures Total(pages[i := page]) == Total(pages) - |pages[i]| + |page|
    decreases |pages|
  {
    var n := |pages| - 1;
    if i == n {
      assert pages[i := page][..n] == pages[..n];
    } else {
      TotalPut(pages[..n], i, page);
      assert pages[i := page][..n] == pages[..n][i := page];
    }
  }

  lemma {:induction false} TotalZeros(n: nat)
    ensures Total(ZeroPages(n)) == n * PAGE_SIZE
    decreases n
  {
    if n == 0 {
    } else {
      TotalZeros(n - 1);
      assert ZeroPages(n)[..n - 1] == ZeroPages(n - 1);
    }
  }

  /** No record has been written to the pages from here on. */
  ghost predicate BlankFrom(pages: seq<Bytes>, first: nat) {
    forall i :: first <= i < |pages| ==> |pages[i]| == PAGE_SIZE
  }

  /** Each record above a page makes the file longer by what it has too much. */
  lemma {:induction false} WrittenBlank(layout: NodeLayout)
    requires layout.Valid()
    ensures BlankFrom(Written(layout, []), 0) && |Join(Written(layout, []))| == layout.TotalPages() * PAGE_SIZE
  {
    JoinTotal(Written(layout, []));
    TotalZeros(layout.TotalPages());
    hide Join, Total;
  }

  lemma {:induction false} WrittenLonger(layout: NodeLayout, records: seq<Bytes>, n: nat)
    requires layout.Valid() && layout.recordBytes > PAGE_SIZE && |records| <= Capacity(layout) && |records| == n + 1
    requires forall i :: 0 <= i < |records| ==> |records[i]| == layout.recordBytes
    requires BlankFrom(Written(layout, records[..n]), n * layout.PagesPerRecord())
    ensures BlankFrom(Written(layout, records), (n + 1) * layout.PagesPerRecord())
    ensures |Join(Written(layout, records))| == |Join(Written(layout, records[..n]))| + layout.recordBytes - PAGE_SIZE
  {
    var rb, before, page := layout.recordBytes, Written(layout, records[..n]), layout.NodePage(n);
    PageBound(layout, n);
    layout.LargeAligned(n);
    var longer := SetSlice(before[page], 0, rb, records[n]);
    assert Written(layout, records) == before[page := longer];
    hide Join, Total, Written, SetSlice, BlankFrom, Capacity;
    MulLess(n, n + 1, layout.PagesPerRecord());
    BlankNext(before, page, longer, n * layout.PagesPerRecord(), (n + 1) * layout.PagesPerRecord());
    LongerPage(before[page], rb, records[n]);
    JoinTotal(before);
    JoinTotal(Written(layout, records));
    TotalPut(before, page, longer);
  }

  lemma {:induction false} WrittenGrows(layout: NodeLayout, records: seq<Bytes>)
    requires layout.Valid() && layout.recordBytes > PAGE_SIZE && |records| <= Capacity(layout)
    requires forall i :: 0 <= i < |records| ==> |records[i]| == layout.recordBytes
    ensures BlankFrom(Written(layout, records), |records| * layout.PagesPerRecord())
    ensures |Join(Written(layout, records))|
      == layout.TotalPages() * PAGE_SIZE + |records| * (layout.recordBytes - PAGE_SIZE)
    decreases |records|
  {
    hide Join, Written, BlankFrom, Capacity;
    if records == [] {
      WrittenBlank(layout);
    } else {
      var n := |records| - 1;
      WrittenGrows(layout, records[..n]);
      WrittenLonger(layout, records, n);
      MulAdd(n, 1, layout.recordBytes - PAGE_SIZE);
    }
  }

  lemma {:induction false} BlankNext(pages: seq<Bytes>, page: nat, record: Bytes, first: nat, next: nat)
    requires BlankFrom(pages, first) && first <= page < next && page < |pages|
    ensures |pages[page]| == PAGE_SIZE && BlankFrom(pages[page := record], next)
  {}

  lemma {:induction false} LongerPage(page: Bytes, n: nat, record: Bytes)
    requires |page| == PAGE_SIZE < n == |record|
    ensures |SetSlice(page, 0, n, record)| == n
  {}

  lemma {:induction false} ZeroImage(file: Bytes, layout: NodeLayout)
    requires layout.Valid() && forall k :: 0 <= k < |file| ==> file[k] == 0
    ensures IsImage(file, layout, [])
  {}

  /** A node has a page exactly when it is below the capacity of the pages. */
  lemma {:induction false} PageBound(layout: NodeLayout, node: nat)
    requires layout.Valid()
    ensures layout.NodePage(node) < layout.TotalPages() <==> node < Capacity(layout)
  {
    if layout.Small() {
      layout.SmallInPage(node);
      var rpp, pages, page := layout.RecordsPerPage(), layout.TotalPages(), node / layout.RecordsPerPage();
      assert node == page * rpp + node % rpp;
      if page < pages {
        MulLess(page, pages, rpp);
      } else {
        MulMono(pages, page, rpp);
      }
    } else {
      layout.LargeAligned(node);
      if node < layout.count {
        MulLess(node, layout.count, layout.PagesPerRecord());
      } else {
        MulMono(layout.count, node, layout.PagesPerRecord());
      }
    }
  }

  /** `file` with `data` written at `at`. */
  function Overwrite(file: Bytes, at: nat, data: Bytes): (r: Bytes)
    requires at + |data| <= |file|
    ensures |r| == |file| && r[at..at + |data|] == data
    ensures forall k :: 0 <= k < |file| && !(0 <= k - at < |data|) ==> r[k] == file[k]
  {
    file[..at] + data + file[at + |data|..]
  }

  /** Writing the next record keeps the earlier ones and the zeros around them. */
  lemma {:induction false} WriteRecord(file: Bytes, layout: NodeLayout, records: seq<Bytes>, n: nat)
    requires layout.Valid() && n < |records| && |records[n]| == layout.recordBytes
    requires IsImage(file, layout, records[..n])
    requires layout.NodeOffset(n) + layout.recordBytes <= |file|
    ensures IsImage(Overwrite(file, layout.NodeOffset(n), records[n]), layout, records[..n + 1])
  {
    hide Overwrite;
    var at, after := layout.NodeOffset(n), Overwrite(file, layout.NodeOffset(n), records[n]);
    var written := records[..n + 1];
    forall i | 0 <= i < |written| ensures RecordStored(after, layout, i, written[i]) {
      if i < n {
        assert records[..n][i] == records[i];
        KeepRecord(file, after, layout, i, n, records[i]);
      }
    }
    forall k | 0 <= k < |after| && !InRecord(layout, n + 1, k) ensures after[k] == 0 {
      assert !(at <= k < at + layout.recordBytes);
      assert !InRecord(layout, n, k);
    }
  }

  lemma {:induction false} KeepRecord(file: Bytes, after: Bytes, layout: NodeLayout, i: nat, n: nat, record: Bytes)
    requires layout.Valid() && i < n && |after| == |file|
    requires RecordStored(file, layout, i, record)
    requires forall k :: 0 <= k < |file| && !(0 <= k - layout.NodeOffset(n) < layout.recordBytes) ==>
      after[k] == file[k]
    ensures RecordStored(after, layout, i, record)
  {
    layout.RecordsInOrder(i, n);
    var at := layout.NodeOffset(i);
    assert after[at..at + layout.recordBytes] == file[at..at + layout.recordBytes];
  }

  // --- Records in pages of their own ----------------------------------------------------------------------

  /** `PageWriterAligned`: one group of whole pages per record. */
  class PageWriterAligned {
    const layout: NodeLayout
    var groups: seq<Bytes>
    ghost var records: seq<Bytes>

    ghost predicate Valid()
      reads this
    {
      layout.Valid() && AreGroups(layout, groups, records)
    }

    constructor (layout: NodeLayout)
      requires layout.Valid()
      ensures Valid() && this.layout == layout && records == []
    {
      this.layout := layout;
      groups := [];
      records := [];
    }

    method Append(record: Bytes) returns (r: Result<nat>)
      requires Valid()
      modifies this
      ensures Valid()
      ensures |record| > layout.recordBytes ==> r == Err(ValueError) && records == old(records)
      ensures |record| <= layout.recordBytes ==>
        r == Ok(|old(records)|) && records == old(records) + [Pad(record, layout.recordBytes)]
    {
      if |record| > layout.recordBytes {
        return Err(ValueError);
      }
      layout.RecordInPages(0);
      assert layout.NodeOffset(0) == 0;
      var padded := Pad(record, layout.recordBytes);
      groups := groups + [Pad(padded, layout.PagesPerRecord() * PAGE_SIZE)];
      records := records + [padded];
      r := Ok(|groups| - 1);
    }

    /** Every record is at the start of its own pages. With one record to a page at most, that is where the layout
        says, and the size returned is that of the file exactly when every node was appended. */
    method Flush() returns (file: Bytes, size: nat)
      requires Valid()
      ensures |file| == |records| * (layout.PagesPerRecord() * PAGE_SIZE)
      ensures forall i :: 0 <= i < |records| ==> StartsGroup(file, layout, i, records[i])
      ensures size == layout.TotalPages() * PAGE_SIZE
      ensures layout.RecordsPerPage() == 1 ==>
        IsImage(file, layout, records) && (size == |file| <==> |records| == layout.count)
    {
      hide AreGroups, IsImage, Join, StartsGroup;
      file := Join(groups);
      GroupsStart(layout, records, groups);
      size := layout.TotalPages() * PAGE_SIZE;
      if layout.RecordsPerPage() == 1 {
        GroupsImage(layout, records, groups);
        OneToAPage(layout);
        SameGroups(|records|, layout.count, layout.PagesPerRecord() * PAGE_SIZE);
      }
    }
  }

  /** Record i starts the i-th group of pages. */
  ghost predicate StartsGroup(file: Bytes, layout: NodeLayout, i: nat, record: Bytes)
    requires layout.Valid()
  {
    var at := i * (layout.PagesPerRecord() * PAGE_SIZE);
    at + |record| <= |file| && file[at..at + |record|] == record
  }

  lemma {:induction false} StartOfGroup(file: Bytes, layout: NodeLayout, i: nat, group: Bytes, record: Bytes)
    requires layout.Valid() && IsGroup(layout, group, record)
    requires CutAt(file, i, layout.PagesPerRecord() * PAGE_SIZE, group)
    ensures StartsGroup(file, layout, i, record)
  {
    var at := i * (layout.PagesPerRecord() * PAGE_SIZE);
    assert file[at..at + |record|] == group[..|record|];
  }

  lemma {:induction false} GroupsStart(layout: NodeLayout, records: seq<Bytes>, groups: seq<Bytes>)
    requires layout.Valid() && AreGroups(layout, groups, records)
    ensures |Join(groups)| == |records| * (layout.PagesPerRecord() * PAGE_SIZE)
    ensures forall i :: 0 <= i < |records| ==> StartsGroup(Join(groups), layout, i, records[i])
  {
    var w := layout.PagesPerRecord() * PAGE_SIZE;
    assert forall i :: 0 <= i < |groups| ==> IsGroup(layout, groups[i], records[i]) && |groups[i]| == w;
    JoinParts(groups, w);
    hide Join, IsGroup, StartsGroup, CutAt;
    forall i | 0 <= i < |records| ensures StartsGroup(Join(groups), layout, i, records[i]) {
      StartOfGroup(Join(groups), layout, i, groups[i], records[i]);
    }
  }

  /** Where several records share a page, the layout has the second one where the aligned writer left zeros: it is
      stored only if it is zeros itself. */
  lemma {:induction false} AlignedSmallLost(layout: NodeLayout, a: Bytes, b: Bytes, file: Bytes)
    requires layout.Valid() && layout.RecordsPerPage() > 1 && |a| == |b| == layout.recordBytes
    requires |file| == 2 * PAGE_SIZE && file[..PAGE_SIZE] == Pad(a, PAGE_SIZE)
    ensures RecordStored(file, layout, 1, b) <==> b == Zeros(|b|)
  {
    var at, rb := layout.NodeOffset(1), layout.recordBytes;
    layout.SmallInPage(1);
    assert at == rb && at + rb <= PAGE_SIZE;
    var found := file[at..at + rb];
    forall i | 0 <= i < rb ensures found[i] == 0 {
      assert found[i] == file[..PAGE_SIZE][rb + i];
    }
    assert found == Zeros(rb);
  }

  lemma {:induction false} SameGroups(a: nat, b: nat, w: nat)
    requires w > 0
    ensures a * w == b * w <==> a == b
  {
    if a < b {
      MulLess(a, b, w);
    } else if b < a {
      MulLess(b, a, w);
    }
  }

  /** Group i is record i, padded to whole pages. */
  ghost predicate IsGroup(layout: NodeLayout, group: Bytes, record: Bytes) {
    && |record| == layout.recordBytes <= |group| == layout.PagesPerRecord() * PAGE_SIZE
    && group[..|record|] == record
    && forall i :: |record| <= i < |group| ==> group[i] == 0
  }

  ghost predicate AreGroups(layout: NodeLayout, groups: seq<Bytes>, records: seq<Bytes>) {
    |groups| == |records| && forall i :: 0 <= i < |records| ==> IsGroup(layout, groups[i], records[i])
  }

  lemma {:induction false} GroupsStored(layout: NodeLayout, records: seq<Bytes>, groups: seq<Bytes>, file: Bytes,
                                        w: nat)
    requires layout.Valid() && layout.RecordsPerPage() == 1 && AreGroups(layout, groups, records)
      && CutInto(file, groups, w)
    ensures Stored(file, layout, records)
  {
    hide IsGroup, RecordStored, CutAt;
    forall i | 0 <= i < |records| ensures RecordStored(file, layout, i, records[i]) {
      GroupStored(layout, file, i, w, groups[i], records[i]);
    }
  }

  lemma {:induction false} GroupsZero(layout: NodeLayout, records: seq<Bytes>, groups: seq<Bytes>, file: Bytes, w: nat)
    requires layout.Valid() && layout.RecordsPerPage() == 1 && AreGroups(layout, groups, records)
      && CutInto(file, groups, w)
    requires w > 0
    ensures ZeroElsewhere(file, layout, |records|)
  {
    hide IsGroup, InRecord, CutAt;
    forall k | 0 <= k < |file| && !InRecord(layout, |records|, k) ensures file[k] == 0 {
      var i := k / w;
      GroupOf(k, |records|, w);
      GroupZero(layout, file, |records|, i, w, groups[i], records[i], k);
    }
  }

  lemma {:induction false} GroupsImage(layout: NodeLayout, records: seq<Bytes>, groups: seq<Bytes>)
    requires layout.Valid() && layout.RecordsPerPage() == 1 && AreGroups(layout, groups, records)
    ensures |Join(groups)| == |records| * (layout.PagesPerRecord() * PAGE_SIZE)
    ensures IsImage(Join(groups), layout, records)
  {
    var w := layout.PagesPerRecord() * PAGE_SIZE;
    assert forall i :: 0 <= i < |groups| ==> IsGroup(layout, groups[i], records[i]) && |groups[i]| == w;
    JoinParts(groups, w);
    hide Join, IsGroup, Stored, ZeroElsewhere, CutAt;
    GroupsStored(layout, records, groups, Join(groups), w);
    GroupsZero(layout, records, groups, Join(groups), w);
  }

  lemma {:induction false} GroupOf(k: nat, n: nat, w: nat)
    requires w > 0 && k < n * w
    ensures k / w < n && (k / w) * w <= k < (k / w) * w + w
  {
    assert k == (k / w) * w + k % w;
    if n <= k / w {
      MulMono(n, k / w, w);
    }
  }

  lemma {:induction false} GroupStored(layout: NodeLayout, file: Bytes, i: nat, w: nat, group: Bytes, record: Bytes)
    requires layout.Valid() && layout.RecordsPerPage() == 1 && IsGroup(layout, group, record)
    requires CutAt(file, i, w, group)
    ensures RecordStored(file, layout, i, record)
  {
    GroupOffset(layout, i);
    var at := i * w;
    assert file[at..at + |record|] == group[..|record|];
  }

  lemma {:induction false} GroupZero(layout: NodeLayout, file: Bytes, n: nat, i: nat, w: nat, group: Bytes,
                                     record: Bytes, k: nat)
    requires layout.Valid() && layout.RecordsPerPage() == 1 && IsGroup(layout, group, record) && i < n
    requires CutAt(file, i, w, group) && i * w <= k < i * w + w && !InRecord(layout, n, k)
    ensures file[k] == 0
  {
    GroupOffset(layout, i);
    var at := i * w;
    assert !(layout.NodeOffset(i) <= k < layout.NodeOffset(i) + layout.recordBytes);
    assert file[k] == group[k - at];
  }

  lemma {:induction false} GroupOffset(layout: NodeLayout, i: nat)
    requires layout.Valid() && layout.RecordsPerPage() == 1
    ensures layout.NodeOffset(i) == i * (layout.PagesPerRecord() * PAGE_SIZE)
  {
    if layout.Small() {
      layout.RecordInPages(0);
    }
  }

  lemma {:induction false} OneToAPage(layout: NodeLayout)
    requires layout.Valid() && layout.RecordsPerPage() == 1
    ensures layout.TotalPages() * PAGE_SIZE == layout.count * (layout.PagesPerRecord() * PAGE_SIZE)
  {
    if layout.Small() {
      layout.RecordInPages(0);
    }
  }

  // --- Reading back ---------------------------------------------------------------------------------------

  /** `extract_node` */
  method ExtractNode(data: map<nat, Bytes>, layout: NodeLayout, node: nat) returns (r: Result<Bytes>)
    requires layout.Valid()
    ensures r == Extracted(data, layout, node)
  {
    if layout.Small() {
      var page, inPage := layout.NodePage(node), layout.NodeOffset(node) % PAGE_SIZE;
      if page !in data {
        return Err(KeyError);
      }
      return Ok(Slice(data[page], inPage, inPage + layout.recordBytes));
    }
    var pages := layout.NodePages(node);
    var parts: seq<Bytes> := [];
    var t := 0;
    while t < |pages|
      invariant t <= |pages| && |parts| == t
      invariant forall u :: 0 <= u < t ==> pages[u] in data && parts[u] == data[pages[u]]
    {
      if pages[t] !in data {
        return Err(KeyError);
      }
      parts := parts + [data[pages[t]]];
      t := t + 1;
    }
    assert parts == Lookups(data, pages);
    r := Ok(Slice(Join(parts), 0, layout.recordBytes));
  }

  /** Python's `s[lo:hi]`. */
  function Slice(s: Bytes, lo: nat, hi: nat): Bytes {
    if lo >= |s| || lo >= hi then [] else if hi > |s| then s[lo..] else s[lo..hi]
  }

  function Lookups(data: map<nat, Bytes>, pages: seq<nat>): (parts: seq<Bytes>)
    requires forall t :: 0 <= t < |pages| ==> pages[t] in data
    ensures |parts| == |pages| && forall t :: 0 <= t < |pages| ==> parts[t] == data[pages[t]]
    decreases |pages|
  {
    if pages == [] then [] else Lookups(data, pages[..|pages| - 1]) + [data[pages[|pages| - 1]]]
  }

  predicate HasPages(data: map<nat, Bytes>, pages: seq<nat>) {
    forall t :: 0 <= t < |pages| ==> pages[t] in data
  }

  /** A missing page is a key error; otherwise the record's bytes are cut out. */
  function Extracted(data: map<nat, Bytes>, layout: NodeLayout, node: nat): Result<Bytes>
    requires layout.Valid()
  {
    if layout.Small() then
      if layout.NodePage(node) !in data then Err(KeyError)
      else Ok(Slice(data[layout.NodePage(node)], layout.InPage(node), layout.InPage(node) + layout.recordBytes))
    else if !HasPages(data, layout.NodePages(node)) then Err(KeyError)
    else Ok(Slice(Join(Lookups(data, layout.NodePages(node))), 0, layout.recordBytes))
  }

  /** Every page in `data` is that page of the file. */
  ghost predicate PagesOf(data: map<nat, Bytes>, file: Bytes) {
    forall p :: p in data ==> (p + 1) * PAGE_SIZE <= |file| && data[p] == FilePage(file, p)
  }

  lemma {:induction false} LastPage(data: map<nat, Bytes>, file: Bytes, first: nat, n: nat)
    requires PagesOf(data, file) && HasPages(data, Range(first, n)) && n >= 1
    ensures first + n - 1 in data && (first + n) * PAGE_SIZE <= |file|
    ensures data[first + n - 1] == FilePage(file, first + n - 1)
  {
    assert Range(first, n)[n - 1] == first + n - 1;
    hide FilePage;
  }

  /** Consecutive pages join to a stretch of the file. */
  lemma {:induction false} JoinPages(data: map<nat, Bytes>, file: Bytes, first: nat, n: nat)
    requires PagesOf(data, file) && HasPages(data, Range(first, n)) && n >= 1
    ensures (first + n) * PAGE_SIZE <= |file|
    ensures Join(Lookups(data, Range(first, n))) == file[first * PAGE_SIZE..(first + n) * PAGE_SIZE]
    decreases n
  {
    LastPage(data, file, first, n);
    SplitLookups(data, first, n);
    var front := Lookups(data, Range(first, n - 1));
    JoinSnoc(front, data[first + n - 1]);
    PageBehind(file, first, n - 1);
    if n == 1 {
      JoinNone(front);
    } else {
      hide PagesOf, HasPages, Lookups, Range, Join, FilePage;
      JoinPages(data, file, first, n - 1);
    }
  }

  lemma {:induction false} JoinSnoc(parts: seq<Bytes>, part: Bytes)
    ensures Join(parts + [part]) == Join(parts) + part
  {
    assert (parts + [part])[..|parts|] == parts;
  }

  lemma {:induction false} JoinNone(parts: seq<Bytes>)
    requires parts == []
    ensures Join(parts) == []
  {}

  lemma {:induction false} PageBehind(file: Bytes, first: nat, n: nat)
    requires (first + n + 1) * PAGE_SIZE <= |file|
    ensures file[first * PAGE_SIZE..(first + n) * PAGE_SIZE] + FilePage(file, first + n)
      == file[first * PAGE_SIZE..(first + n + 1) * PAGE_SIZE]
  {}

  lemma {:induction false} SplitLookups(data: map<nat, Bytes>, first: nat, n: nat)
    requires HasPages(data, Range(first, n)) && n >= 1
    ensures HasPages(data, Range(first, n - 1)) && first + n - 1 in data
    ensures Lookups(data, Range(first, n)) == Lookups(data, Range(first, n - 1)) + [data[first + n - 1]]
  {
    var pages := Range(first, n);
    assert pages[n - 1] == first + n - 1;
    assert Range(first, n - 1) == pages[..n - 1];
  }

  lemma {:induction false} ExtractSmall(data: map<nat, Bytes>, file: Bytes, layout: NodeLayout, node: nat,
                                        record: Bytes)
    requires layout.Valid() && layout.Small() && PagesOf(data, file) && layout.NodePage(node) in data
    requires RecordStored(file, layout, node, record)
    ensures Extracted(data, layout, node) == Ok(record)
  {
    layout.SmallInPage(node);
    var at, page, lo := layout.NodeOffset(node), layout.NodePage(node), layout.InPage(node);
    assert at == page * PAGE_SIZE + lo;
    assert (page + 1) * PAGE_SIZE <= |file| && data[page] == FilePage(file, page);
    InsideSlice(file, page, lo, lo + layout.recordBytes);
    hide PagesOf, FilePage;
  }

  lemma {:induction false} InsideSlice(file: Bytes, page: nat, lo: nat, hi: nat)
    requires (page + 1) * PAGE_SIZE <= |file| && lo < hi <= PAGE_SIZE
    ensures page * PAGE_SIZE + hi <= |file|
    ensures Slice(FilePage(file, page), lo, hi) == file[page * PAGE_SIZE + lo..page * PAGE_SIZE + hi]
  {
    SliceSlice(file, page * PAGE_SIZE, (page + 1) * PAGE_SIZE, lo, hi);
  }

  lemma {:induction false} ExtractLarge(data: map<nat, Bytes>, file: Bytes, layout: NodeLayout, node: nat,
                                        record: Bytes)
    requires layout.Valid() && !layout.Small() && PagesOf(data, file) && HasPages(data, layout.NodePages(node))
    requires RecordStored(file, layout, node, record)
    ensures Extracted(data, layout, node) == Ok(record)
  {
    layout.LargeAligned(node);
    var at, page, n := layout.NodeOffset(node), layout.NodePage(node), layout.PagesPerRecord();
    MulAdd(page, n, PAGE_SIZE);
    assert at == page * PAGE_SIZE;
    JoinPages(data, file, page, n);
    HeadSlice(file, at, (page + n) * PAGE_SIZE, layout.recordBytes);
    hide Join, Lookups, PagesOf, Slice;
  }

  lemma {:induction false} HeadSlice(file: Bytes, at: nat, end: nat, n: nat)
    requires at + n <= end <= |file| && n >= 1
    ensures Slice(file[at..end], 0, n) == file[at..at + n]
  {
    SliceSlice(file, at, end, 0, n);
  }

  /** Round trip: whatever the writers stored is what `extract_node` returns, from any set of pages
      of the file that contains the record's pages. */
  lemma {:induction false} ExtractStored(data: map<nat, Bytes>, file: Bytes, layout: NodeLayout, records: seq<Bytes>,
                                         node: nat)
    requires Stored(file, layout, records) && node < |records| && PagesOf(data, file)
    requires HasPages(data, layout.NodePages(node))
    ensures Extracted(data, layout, node) == Ok(records[node])
  {
    assert RecordStored(file, layout, node, records[node]);
    if layout.Small() {
      assert layout.NodePages(node)[0] == layout.NodePage(node);
      ExtractSmall(data, file, layout, node, records[node]);
    } else {
      ExtractLarge(data, file, layout, node, records[node]);
    }
  }

  /** And a page missing from the set is reported. */
  lemma {:induction false} ExtractMissing(data: map<nat, Bytes>, layout: NodeLayout, node: nat)
    requires layout.Valid()
    ensures Extracted(data, layout, node).Err? <==> !HasPages(data, layout.NodePages(node))
  {
    layout.RecordInPages(node);
    assert layout.NodePages(node)[0] == layout.NodePage(node);
  }
}
