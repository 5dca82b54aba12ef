/** `NodeLayout`: where fixed-size records live in a file of 4 KiB pages. */
module Layout {
  import opened Arith
  import opened Collections

  const PAGE_SIZE: nat := 4096

  type byte = b: int | 0 <= b < 256
  type Bytes = seq<byte>

  /** Groups of w, the last one perhaps in part, cover all of n. */
  lemma {:induction false} RoundUpDiv(n: nat, i: nat, w: nat)
    requires i < n && w >= 1
    ensures i / w < (n + w - 1) / w
  {
    var all, pages, page := n + w - 1, (n + w - 1) / w, i / w;
    assert all == pages * w + all % w && i == page * w + i % w;
    if pages <= page {
      MulMono(pages, page, w);
    }
  }

  lemma {:induction false} NextGroup(i: nat, w: nat)
    requires w >= 1
    ensures (i + w) / w == i / w + 1
  {
    var q, r := i / w, i % w;
    assert i == q * w + r;
    MulAdd(q, 1, w);
    DivModUnique(q + 1, r, w);
  }

  datatype NodeLayout = NodeLayout(recordBytes: nat, count: nat) {

    /** Division by the record size needs it to be positive. */
    predicate Valid() {
      recordBytes >= 1
    }

    predicate Small() {
      recordBytes < PAGE_SIZE
    }

    function RecordsPerPage(): (n: nat)
      requires Valid()
      ensures n >= 1
    {
      var n := PAGE_SIZE / recordBytes; if n >= 1 then n else 1
    }

    function PagesPerRecord(): (n: nat)
      ensures n >= 1
    {
      var n := (recordBytes + PAGE_SIZE - 1) / PAGE_SIZE; if n >= 1 then n else 1
    }

    function NodeOffset(node: nat): nat
      requires Valid()
    {
      MulNonneg(node % RecordsPerPage(), recordBytes);
      MulNonneg(node, PagesPerRecord());
      if Small() then (node / RecordsPerPage()) * PAGE_SIZE + (node % RecordsPerPage()) * recordBytes
      else node * PagesPerRecord() * PAGE_SIZE
    }

    function NodePage(node: nat): nat
      requires Valid()
    {
      NodeOffset(node) / PAGE_SIZE
    }

    function InPage(node: nat): nat
      requires Valid()
    {
      NodeOffset(node) % PAGE_SIZE
    }

    function TotalPages(): nat
      requires Valid()
    {
      if Small() then (count + RecordsPerPage() - 1) / RecordsPerPage() else count * PagesPerRecord()
    }

    /** A page holds as many small records as fit, and a record gets no more pages than it needs. */
    lemma {:induction false} Tight()
      requires Valid()
      ensures Small() ==> RecordsPerPage() * recordBytes <= PAGE_SIZE < (RecordsPerPage() + 1) * recordBytes
      ensures (PagesPerRecord() - 1) * PAGE_SIZE < recordBytes <= PagesPerRecord() * PAGE_SIZE
    {
      var q, r := PAGE_SIZE / recordBytes, PAGE_SIZE % recordBytes;
      assert PAGE_SIZE == q * recordBytes + r;
      MulAdd(q, 1, recordBytes);
      if Small() && q == 0 {
        assert false;
      }
    }

    /** No page is left over: the last page of the file is the last page of the last record. */
    lemma {:induction false} NoPageToSpare()
      requires Valid()
      ensures TotalPages() == if count == 0 then 0 else NodePage(count - 1) + PagesPerRecord()
    {
      if count > 0 {
        if Small() {
          SmallInPage(count - 1);
          RecordInPages(count - 1);
          NextGroup(count - 1, RecordsPerPage());
        } else {
          LargeAligned(count - 1);
          MulAdd(count - 1, 1, PagesPerRecord());
        }
      } else if Small() {
        DivModUnique(0, RecordsPerPage() - 1, RecordsPerPage());
      }
    }

    /** A small record lies inside one page. */
    lemma {:induction false} SmallInPage(node: nat)
      requires Valid() && Small()
      ensures NodePage(node) == node / RecordsPerPage()
      ensures InPage(node) == (node % RecordsPerPage()) * recordBytes
      ensures InPage(node) + recordBytes <= PAGE_SIZE
    {
      var rpp, slot := RecordsPerPage(), node % RecordsPerPage();
      assert rpp * recordBytes <= PAGE_SIZE by {
        MulMono(rpp, PAGE_SIZE / recordBytes, recordBytes);
        assert PAGE_SIZE == (PAGE_SIZE / recordBytes) * recordBytes + PAGE_SIZE % recordBytes;
      }
      MulLess(slot, rpp, recordBytes);
    }

    /** A large record starts a page and fits in its pages. */
    lemma {:induction false} LargeAligned(node: nat)
      requires Valid() && !Small()
      ensures NodePage(node) == node * PagesPerRecord() && InPage(node) == 0
      ensures recordBytes <= PagesPerRecord() * PAGE_SIZE
    {
      DivModUnique(node * PagesPerRecord(), 0, PAGE_SIZE);
    }

    /** The pages a record touches: `PagesPerRecord` of them from `NodePage` on. */
    function NodePages(node: nat): (pages: seq<nat>)
      requires Valid()
      ensures |pages| == PagesPerRecord()
      ensures forall t :: 0 <= t < |pages| ==> pages[t] == NodePage(node) + t
    {
      Range(NodePage(node), PagesPerRecord())
    }

    /** No record straddles a page unless it owns whole pages. */
    lemma {:induction false} RecordInPages(node: nat)
      requires Valid()
      ensures NodePage(node) * PAGE_SIZE <= NodeOffset(node)
      ensures NodeOffset(node) + recordBytes <= (NodePage(node) + PagesPerRecord()) * PAGE_SIZE
      ensures Small() ==> PagesPerRecord() == 1
    {
      if Small() {
        SmallInPage(node);
      } else {
        LargeAligned(node);
        MulAdd(NodePage(node), PagesPerRecord(), PAGE_SIZE);
      }
    }

    /** Records follow each other without overlap. */
    lemma {:induction false} RecordsInOrder(i: nat, j: nat)
      requires Valid() && i < j
      ensures NodeOffset(i) + recordBytes <= NodeOffset(j)
    {
      if Small() {
        var rpp := RecordsPerPage();
        SmallInPage(i);
        SmallInPage(j);
        var pi, pj := i / rpp, j / rpp;
        assert i == pi * rpp + i % rpp && j == pj * rpp + j % rpp;
        if pi == pj {
          MulLess(i % rpp, j % rpp, recordBytes);
        } else {
          if pj < pi {
            MulLess(pj, pi, rpp);
          }
          assert pi + 1 <= pj;
        }
      } else {
        LargeAligned(i);
        MulLess(i, j, PagesPerRecord());
      }
    }

    /** Every record of the layout ends inside its pages. */
    lemma {:induction false} RecordInFile(node: nat)
      requires Valid() && node < count
      ensures NodePage(node) + PagesPerRecord() <= TotalPages()
      ensures NodeOffset(node) + recordBytes <= TotalPages() * PAGE_SIZE
    {
      RecordInPages(node);
      if Small() {
        SmallInPage(node);
        RoundUpDiv(count, node, RecordsPerPage());
      } else {
        LargeAligned(node);
        MulLess(node, count, PagesPerRecord());
      }
      MulMono(NodePage(node) + PagesPerRecord(), TotalPages(), PAGE_SIZE);
    }
  }

  function Range(first: nat, n: nat): (r: seq<nat>)
    ensures |r| == n && forall t :: 0 <= t < n ==> r[t] == first + t
    decreases n
  {
    if n == 0 then [] else Range(first, n - 1) + [first + n - 1]
  }

  // --- Bytes ------------------------------------------------------------------------------------------

  function Zeros(n: nat): (z: Bytes)
    ensures |z| == n && forall i :: 0 <= i < n ==> z[i] == 0
  {
    Repeat<byte>(0, n)
  }

  /** `record.ljust(n, b"\0")` */
  function Pad(record: Bytes, n: nat): (r: Bytes)
    requires |record| <= n
    ensures |r| == n && r[..|record|] == record && forall i :: |record| <= i < n ==> r[i] == 0
  {
    record + Zeros(n - |record|)
  }

  /** `b"".join(parts)` */
  function Join(parts: seq<Bytes>): Bytes
    decreases |parts|
  {
    if parts == [] then [] else Join(parts[..|parts| - 1]) + parts[|parts| - 1]
  }

  ghost predicate CutAt(file: Bytes, i: nat, w: nat, part: Bytes) {
    |part| == w && 0 <= i * w && i * w + w <= |file| && file[i * w..i * w + w] == part
  }

  /** The file is these parts of w bytes, one after the other. */
  ghost predicate CutInto(file: Bytes, parts: seq<Bytes>, w: nat) {
    |file| == |parts| * w && forall i :: 0 <= i < |parts| ==> CutAt(file, i, w, parts[i])
  }

  lemma {:induction false} CutLonger(file: Bytes, i: nat, w: nat, part: Bytes, more: Bytes)
    requires CutAt(file, i, w, part)
    ensures CutAt(file + more, i, w, part)
  {
    assert (file + more)[i * w..i * w + w] == file[i * w..i * w + w];
  }

  lemma {:induction false} CutLast(file: Bytes, n: nat, w: nat, part: Bytes)
    requires |file| == n * w && |part| == w
    ensures |file + part| == (n + 1) * w && CutAt(file + part, n, w, part)
  {
    MulAdd(n, 1, w);
    assert (file + part)[n * w..n * w + w] == part;
  }

  /** Equal parts can be cut out of their join again. */
  lemma {:induction false} JoinParts(parts: seq<Bytes>, w: nat)
    requires forall i :: 0 <= i < |parts| ==> |parts[i]| == w
    ensures CutInto(Join(parts), parts, w)
    decreases |parts|
  {
    hide CutAt;
    if parts == [] {
    } else {
      var n := |parts| - 1;
      var front, last := parts[..n], parts[n];
      JoinParts(front, w);
      CutLast(Join(front), n, w, last);
      forall i | 0 <= i < n ensures CutAt(Join(parts), i, w, parts[i]) {
        assert CutAt(Join(front), i, w, front[i]);
        CutLonger(Join(front), i, w, front[i], last);
      }
    }
  }

  lemma {:induction false} SliceSlice(s: seq<int>, a: nat, b: nat, lo: nat, hi: nat)
    requires a <= b <= |s| && lo <= hi <= b - a
    ensures s[a..b][lo..hi] == s[a + lo..a + hi]
  {
    var inner, outer := s[a..b][lo..hi], s[a + lo..a + hi];
    assert |inner| == |outer| && forall i :: 0 <= i < |inner| ==> inner[i] == outer[i];
  }

  /** Page p of a file. */
  function FilePage(file: Bytes, p: nat): (page: Bytes)
    requires (p + 1) * PAGE_SIZE <= |file|
    ensures |page| == PAGE_SIZE
  {
    file[p * PAGE_SIZE..(p + 1) * PAGE_SIZE]
  }
}
