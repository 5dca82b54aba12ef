/** `DirectPageReader` and `MemoryPageReader`: page reads through the two caches. */
module PageReaders {
  import opened Layout
  import opened SortedSets
  import opened PageCache
  import opened ReadPlan
  import opened Wrappers

  /** The files, by name. */
  type Disk = map<Namespace, Bytes>

  type Pages = map<nat, Option<Bytes>>

  predicate HasPage(file: Bytes, p: nat) {
    (p + 1) * PAGE_SIZE <= |file|
  }

  predicate InFile(file: Bytes, pages: seq<nat>) {
    forall i :: 0 <= i < |pages| ==> HasPage(file, pages[i])
  }

  // --- The reader without caches ------------------------------------------------------------------------

  /** Reading without caches and without planning. */
  function PlainRead(file: Bytes, pages: seq<nat>): Result<Pages> {
    if InFile(file, pages) then
      Ok(map p | p in Elements(pages) :: Some(FilePage(file, p)))
    else Err(ShortRead)
  }

  // --- Coherence ------------------------------------------------------------------------------------------

  ghost predicate IsPage(data: Bytes, key: Key, disk: Disk) {
    key.namespace in disk && HasPage(disk[key.namespace], key.page) && data == FilePage(disk[key.namespace], key.page)
  }

  /** Every cached page is that page of its file. */
  ghost predicate Coherent(contents: Contents, disk: Disk) {
    forall k :: k in contents ==> IsPage(contents[k], k, disk)
  }

  ghost predicate Sound(query: QueryPageCache?, shared: SharedPageCache?, disk: Disk)
    reads query, shared
  {
    Usable(shared) && Coherent(QueryPages(query), disk) && Coherent(SharedPages(shared).at, disk)
  }

  // --- What fetching a list of pages leaves behind ------------------------------------------------------

  /** In the result. */
  function Fetched(out: Pages, pages: seq<nat>, file: Bytes): (r: Pages)
    requires InFile(file, pages)
    ensures forall p :: p in r <==> p in out || p in pages
    ensures forall p :: p in r ==> r[p] == if p in pages then Some(FilePage(file, p)) else out[p]
    decreases |pages|
  {
    if pages == [] then out
    else
      var front, p := pages[..|pages| - 1], pages[|pages| - 1];
      assert pages == front + [p];
      Fetched(out, front, file)[p := Some(FilePage(file, p))]
  }

  /** In the query cache. */
  function Kept(q: Contents, pages: seq<nat>, namespace: Namespace, file: Bytes): (r: Contents)
    requires InFile(file, pages)
    ensures forall k :: k in r <==> k in q || (k.namespace == namespace && k.page in pages)
    decreases |pages|
  {
    if pages == [] then q
    else
      var front, p := pages[..|pages| - 1], pages[|pages| - 1];
      assert pages == front + [p];
      Kept(q, front, namespace, file)[Key(namespace, p) := FilePage(file, p)]
  }

  /** In the shared cache. */
  ghost function FilledAll(d: Dict, pages: seq<nat>, namespace: Namespace, file: Bytes, capacity: int): (r: Dict)
    requires ValidDict(d) && InFile(file, pages) && capacity >= 1
    ensures ValidDict(r) && (Fits(d, capacity) ==> Fits(r, capacity))
    decreases |pages|
  {
    if pages == [] then d
    else
      var p := pages[|pages| - 1];
      Filled(FilledAll(d, pages[..|pages| - 1], namespace, file, capacity), Key(namespace, p), FilePage(file, p),
             capacity)
  }

  lemma {:induction false} KeptCoherent(q: Contents, pages: seq<nat>, namespace: Namespace, disk: Disk)
    requires Coherent(q, disk) && namespace in disk && InFile(disk[namespace], pages)
    ensures Coherent(Kept(q, pages, namespace, disk[namespace]), disk)
    decreases |pages|
  {
    hide FilePage;
    if pages == [] {
    } else {
      KeptCoherent(q, pages[..|pages| - 1], namespace, disk);
    }
  }

  lemma {:induction false} FilledCoherent(d: Dict, pages: seq<nat>, namespace: Namespace, disk: Disk, capacity: int)
    requires ValidDict(d) && Coherent(d.at, disk) && capacity >= 1
    requires namespace in disk && InFile(disk[namespace], pages)
    ensures Coherent(FilledAll(d, pages, namespace, disk[namespace], capacity).at, disk)
    decreases |pages|
  {
    hide FilePage, ValidDict, Filled;
    if pages == [] {
    } else {
      FilledCoherent(d, pages[..|pages| - 1], namespace, disk, capacity);
    }
  }

  /** A call under way: the result so far and the contents of the caches when fetching began. */
  datatype Job = Job(out: Pages, query: Contents, shared: Dict, namespace: Namespace, file: Bytes)

  /** The pages `done` have been fetched: they are in the result and in the caches there are. */
  ghost predicate After(job: Job, done: seq<nat>, out: Pages, query: QueryPageCache?, shared: SharedPageCache?)
    reads query, shared
  {
    && Usable(shared) && ValidDict(job.shared) && InFile(job.file, done)
    && out == Fetched(job.out, done, job.file)
    && QueryPages(query) == (if query == null then map[] else Kept(job.query, done, job.namespace, job.file))
    && SharedPages(shared) == (if shared == null then Dict([], map[])
         else FilledAll(job.shared, done, job.namespace, job.file, shared.capacityBytes))
  }

  lemma {:induction false} AfterNone(out: Pages, query: QueryPageCache?, shared: SharedPageCache?, namespace: Namespace,
                                     file: Bytes)
    requires Usable(shared)
    ensures After(Job(out, QueryPages(query), SharedPages(shared), namespace, file), [], out, query, shared)
  {}

  lemma {:induction false} AfterSound(job: Job, done: seq<nat>, out: Pages, query: QueryPageCache?,
                                      shared: SharedPageCache?, disk: Disk)
    requires After(job, done, out, query, shared) && job.namespace in disk && disk[job.namespace] == job.file
    requires Coherent(job.query, disk) && Coherent(job.shared.at, disk)
    ensures Sound(query, shared, disk)
  {
    hide Coherent, Fetched;
    NoPages(disk);
    if query != null {
      KeptCoherent(job.query, done, job.namespace, disk);
    }
    if shared != null {
      FilledCoherent(job.shared, done, job.namespace, disk, shared.capacityBytes);
    }
  }

  lemma {:induction false} NoPages(disk: Disk)
    ensures Coherent(map[], disk)
  {}

  /** One page more. */
  lemma {:induction false} NextPage(job: Job, done: seq<nat>, p: nat, capacity: int)
    requires InFile(job.file, done) && HasPage(job.file, p) && ValidDict(job.shared) && capacity >= 1
    ensures InFile(job.file, done + [p])
    ensures Fetched(job.out, done + [p], job.file) == Fetched(job.out, done, job.file)[p := Some(FilePage(job.file, p))]
    ensures Kept(job.query, done + [p], job.namespace, job.file)
      == Kept(job.query, done, job.namespace, job.file)[Key(job.namespace, p) := FilePage(job.file, p)]
    ensures FilledAll(job.shared, done + [p], job.namespace, job.file, capacity)
      == Filled(FilledAll(job.shared, done, job.namespace, job.file, capacity), Key(job.namespace, p),
                FilePage(job.file, p), capacity)
  {
    hide FilePage, Filled, ValidDict, Fits;
    assert (done + [p])[..|done|] == done;
  }

  /** Store one page in the result and in the caches there are. */
  method StorePage(p: nat, piece: Bytes, out: Pages, query: QueryPageCache?, shared: SharedPageCache?,
                   namespace: Namespace, ghost job: Job, ghost done: seq<nat>) returns (r: Pages)
    requires After(job, done, out, query, shared) && job.namespace == namespace
    requires HasPage(job.file, p) && piece == FilePage(job.file, p)
    modifies if query == null then {} else {query}`pages, if shared == null then {} else {shared}`pages
    ensures After(job, done + [p], r, query, shared)
  {
    hide FilePage, Filled, ValidDict, Fits, Fetched, Kept, FilledAll, InFile, HasPage;
    NextPage(job, done, p, if shared == null then 1 else shared.capacityBytes);
    r := out[p := Some(piece)];
    if query != null {
      query.Put(p, piece, namespace);
    }
    if shared != null {
      shared.Put(p, piece, namespace);
    }
  }

  /** The pages a read of this run returns, one by one. */
  method StoreRun(start: nat, data: Bytes, out: Pages, query: QueryPageCache?, shared: SharedPageCache?,
                  namespace: Namespace, ghost run: Run, ghost job: Job, ghost done: seq<nat>) returns (r: Pages)
    requires After(job, done, out, query, shared) && job.namespace == namespace
    requires run.start == start && IsRunData(data, run, job.file)
    modifies if query == null then {} else {query}`pages, if shared == null then {} else {shared}`pages
    ensures After(job, done + Range(run.start, run.len), r, query, shared)
  {
    hide After;
    r := out;
    var n := |data| / PAGE_SIZE;
    assert n == run.len;
    var i := 0;
    assert done + Range(run.start, 0) == done;
    while i < n
      invariant i <= n && After(job, done + Range(run.start, i), r, query, shared)
    {
      Piece(data, run, job.file, i);
      var piece := data[i * PAGE_SIZE..(i + 1) * PAGE_SIZE];
      r := StorePage(start + i, piece, r, query, shared, namespace, job, done + Range(run.start, i));
      assert done + Range(run.start, i) + [run.start + i] == done + Range(run.start, i + 1);
      i := i + 1;
    }
  }

  /** The bytes of a run. */
  ghost predicate IsRunData(data: Bytes, run: Run, file: Bytes) {
    && (run.start + run.len) * PAGE_SIZE <= |file|
    && data == file[run.start * PAGE_SIZE..(run.start + run.len) * PAGE_SIZE]
  }

  lemma {:induction false} Piece(data: Bytes, run: Run, file: Bytes, i: nat)
    requires IsRunData(data, run, file) && i < run.len
    ensures HasPage(file, run.start + i) && (i + 1) * PAGE_SIZE <= |data|
    ensures data[i * PAGE_SIZE..(i + 1) * PAGE_SIZE] == FilePage(file, run.start + i)
  {
    var at, lo := run.start * PAGE_SIZE, i * PAGE_SIZE;
    assert (run.start + i) * PAGE_SIZE == at + lo;
    assert |data| == run.len * PAGE_SIZE && lo + PAGE_SIZE <= |data|;
    SliceSlice(file, at, at + |data|, lo, lo + PAGE_SIZE);
  }

  /** `align_up` */
  function AlignUp(value: nat): (r: nat)
    ensures value <= r < value + PAGE_SIZE && r % PAGE_SIZE == 0
  {
    (value + PAGE_SIZE - 1) / PAGE_SIZE * PAGE_SIZE
  }

  // --- Hits -----------------------------------------------------------------------------------------------

  /** A page as the caches show it: the query cache first. */
  function Peeked(q: Contents, d: Contents, key: Key): Option<Bytes> {
    if key in q then Some(q[key]) else Lookup(d, key)
  }

  /** `out` holds exactly the hits, as the caches show them. */
  ghost predicate HitsShown(out: Pages, hits: seq<nat>, q: Contents, d: Contents, namespace: Namespace) {
    && (forall p :: p in out <==> p in hits)
    && forall p :: p in out ==> out[p] == Peeked(q, d, Key(namespace, p))
  }

  /** The loop that copies the hits out of the caches, into a result that has none of them yet. */
  method CopyHits(hits: seq<nat>, query: QueryPageCache?, shared: SharedPageCache?, namespace: Namespace, out: Pages)
    returns (r: Pages)
    ensures forall p :: p in r <==> p in out || p in hits
    ensures forall p :: p in r ==>
      r[p] == if p in hits then Peeked(QueryPages(query), SharedPages(shared).at, Key(namespace, p)) else out[p]
  {
    r := out;
    var i := 0;
    while i < |hits|
      invariant i <= |hits|
      invariant forall p :: p in r <==> p in out || p in hits[..i]
      invariant forall p :: p in r ==>
        r[p] == if p in hits[..i] then Peeked(QueryPages(query), SharedPages(shared).at, Key(namespace, p)) else out[p]
    {
      var p := hits[i];
      assert hits[..i + 1] == hits[..i] + [p];
      var data := None;
      if query != null {
        data := query.Peek(p, namespace);
      }
      if data.None? && shared != null {
        data := shared.Peek(p, namespace);
      }
      r := r[p := data];
      i := i + 1;
    }
    assert hits[..i] == hits;
  }

  /** A coherent cache shows the pages of the file. */
  lemma {:induction false} HitRight(p: nat, q: Contents, d: Contents, namespace: Namespace, disk: Disk)
    requires Coherent(q, disk) && Coherent(d, disk) && namespace in disk
    requires FoundAt(q, d, Key(namespace, p)) != Nowhere
    ensures HasPage(disk[namespace], p)
    ensures Peeked(q, d, Key(namespace, p)) == Some(FilePage(disk[namespace], p))
  {
    hide FilePage;
    var key := Key(namespace, p);
    assert if key in q then IsPage(q[key], key, disk) else IsPage(d[key], key, disk);
  }

  /** Hits and misses partition the requested pages; hits were found in a cache. */
  lemma {:induction false} PlanSplits(requested: seq<nat>, q: Contents, d: Contents, namespace: Namespace,
                                      hits: seq<nat>, misses: seq<nat>, runs: seq<Run>)
    requires IsPlan(requested, q, d, namespace, hits, misses, runs)
    ensures Rising(misses) && AreRuns(runs, misses)
    ensures forall p :: p in requested <==> p in hits || p in misses
    ensures forall p :: p in hits ==> FoundAt(q, d, Key(namespace, p)) != Nowhere && p !in misses
  {
    hide AreRuns, FoundAt, Rising, Sorted;
  }

  /** The misses decide whether the read succeeds. */
  lemma {:induction false} MissesDecide(requested: seq<nat>, hits: seq<nat>, misses: seq<nat>, file: Bytes)
    requires forall p :: p in requested <==> p in hits || p in misses
    requires forall p :: p in hits ==> HasPage(file, p)
    ensures InFile(file, misses) <==> InFile(file, requested)
  {
    AllInFile(file, requested);
    AllInFile(file, misses);
  }

  lemma {:induction false} SameMap(requested: seq<nat>, hits: seq<nat>, misses: seq<nat>, file: Bytes, out: Pages)
    requires forall p :: p in requested <==> p in hits || p in misses
    requires forall p :: p in out <==> p in hits
    requires forall p :: p in hits ==> HasPage(file, p) && out[p] == Some(FilePage(file, p))
    requires InFile(file, requested) && InFile(file, misses)
    ensures PlainRead(file, requested) == Ok(Fetched(out, misses, file))
  {
    hide FilePage, HasPage;
    var plain, fetched := PlainRead(file, requested).value, Fetched(out, misses, file);
    assert forall p :: p in plain <==> p in requested;
    assert plain == fetched;
  }

  /** With the hits copied and the misses fetched, the result is what reading without caches returns. */
  lemma {:induction false} SameAsPlain(requested: seq<nat>, q: Contents, d: Contents, namespace: Namespace,
                                       hits: seq<nat>, misses: seq<nat>, runs: seq<Run>, disk: Disk, out: Pages)
    requires IsPlan(requested, q, d, namespace, hits, misses, runs)
    requires Coherent(q, disk) && Coherent(d, disk) && namespace in disk
    requires HitsShown(out, hits, q, d, namespace)
    ensures InFile(disk[namespace], misses) <==> InFile(disk[namespace], requested)
    ensures InFile(disk[namespace], misses) ==>
      PlainRead(disk[namespace], requested) == Ok(Fetched(out, misses, disk[namespace]))
    ensures !InFile(disk[namespace], misses) ==> PlainRead(disk[namespace], requested) == Err(ShortRead)
    ensures misses == [] ==> PlainRead(disk[namespace], requested) == Ok(out)
  {
    PlanSplits(requested, q, d, namespace, hits, misses, runs);
    hide FilePage, Peeked, IsPlan, Coherent, PlainRead, HasPage, InFile, FoundAt, AreRuns, Rising;
    forall p | p in hits
      ensures HasPage(disk[namespace], p) && Peeked(q, d, Key(namespace, p)) == Some(FilePage(disk[namespace], p))
    {
      HitRight(p, q, d, namespace, disk);
    }
    MissesDecide(requested, hits, misses, disk[namespace]);
    if InFile(disk[namespace], misses) {
      SameMap(requested, hits, misses, disk[namespace], out);
    } else {
      PlainFails(disk[namespace], requested);
      SomeMissing(disk[namespace], misses);
    }
  }

  lemma {:induction false} PlainFails(file: Bytes, pages: seq<nat>)
    requires !InFile(file, pages)
    ensures PlainRead(file, pages) == Err(ShortRead)
  {}

  lemma {:induction false} SomeMissing(file: Bytes, pages: seq<nat>)
    ensures pages == [] ==> InFile(file, pages)
  {}

  lemma {:induction false} AllInFile(file: Bytes, pages: seq<nat>)
    ensures InFile(file, pages) <==> forall p :: p in pages ==> HasPage(file, p)
  {}

  lemma {:induction false} RunsList(runs: seq<Run>, pages: seq<nat>)
    requires AreRuns(runs, pages)
    ensures Expand(runs) == pages && forall i :: 0 <= i < |runs| ==> runs[i].len >= 1
  {}

  lemma {:induction false} RunInFileByPages(run: Run, pages: seq<nat>, file: Bytes)
    requires run.len >= 1 && forall p :: InRun(run, p) ==> p in pages
    requires InFile(file, pages)
    ensures RunInFile(run, file)
  {
    var last := run.start + run.len - 1;
    assert InRun(run, last);
  }

  /** The runs are in the file exactly when their pages are. */
  lemma {:induction false} RunsInFile(runs: seq<Run>, pages: seq<nat>, file: Bytes)
    requires AreRuns(runs, pages)
    ensures (forall i :: 0 <= i < |runs| ==> RunInFile(runs[i], file)) <==> InFile(file, pages)
  {
    RunsCover(runs, pages);
    RunsList(runs, pages);
    hide Expand, AreRuns, RunInFile, HasPage, InRun;
    if InFile(file, pages) {
      forall i | 0 <= i < |runs| ensures RunInFile(runs[i], file) {
        RunInFileByPages(runs[i], pages, file);
      }
    } else {
      var k :| 0 <= k < |pages| && !HasPage(file, pages[k]);
      assert pages[k] in pages;
      var i :| 0 <= i < |runs| && InRun(runs[i], pages[k]);
      RunPastFile(runs[i], pages[k], file);
    }
  }

  lemma {:induction false} RunPastFile(run: Run, p: nat, file: Bytes)
    requires InRun(run, p) && !HasPage(file, p)
    ensures !RunInFile(run, file)
  {}

  /** What a call planned: the split of the pages, the runs, the counts, and the shared cache it left. */
  datatype Plan = Plan(hits: seq<nat>, misses: seq<nat>, runs: seq<Run>, count: Counters, touched: Dict) {
    ghost predicate Of(requested: seq<nat>, q: Contents, d: Dict, namespace: Namespace, hasQuery: bool,
                       hasShared: bool)
    {
      && IsPlan(requested, q, d.at, namespace, hits, misses, runs)
      && IsCount(requested, q, d.at, namespace, hasQuery, hasShared, |runs|, count)
      && LookedUp(Sorted(PagesFound(Elements(requested), q, d.at, namespace, InShared)), namespace, touched, d)
    }

    /** The caches once the misses were stored. */
    ghost predicate Done(q: Contents, namespace: Namespace, file: Bytes, query: QueryPageCache?,
                         shared: SharedPageCache?)
      reads query, shared
    {
      && InFile(file, misses) && Usable(shared)
      && (query != null ==> query.pages == Kept(q, misses, namespace, file))
      && (shared != null ==> ValidDict(touched))
      && (shared != null ==> shared.pages == FilledAll(touched, misses, namespace, file, shared.capacityBytes))
    }
  }

  lemma {:induction false} AfterDone(job: Job, done: seq<nat>, out: Pages, query: QueryPageCache?,
                                     shared: SharedPageCache?, plan: Plan)
    requires After(job, done, out, query, shared) && done == plan.misses && job.shared == plan.touched
    ensures InFile(job.file, done) && out == Fetched(job.out, done, job.file)
    ensures plan.Done(job.query, job.namespace, job.file, query, shared)
  {}

  lemma {:induction false} PlanIs(plan: Plan, requested: seq<nat>, q: Contents, d: Dict, namespace: Namespace,
                                  hasQuery: bool, hasShared: bool)
    requires plan.Of(requested, q, d, namespace, hasQuery, hasShared)
    ensures IsPlan(requested, q, d.at, namespace, plan.hits, plan.misses, plan.runs)
  {}

  /** How both readers begin: plan the read and merge its counts. What the caches hold is unchanged. */
  method Begin(pages: seq<nat>, query: QueryPageCache?, shared: SharedPageCache?, stats: IOStats?, namespace: Namespace,
               ghost disk: Disk) returns (hits: seq<nat>, misses: seq<nat>, ghost plan: Plan)
    requires namespace in disk && Sound(query, shared, disk)
    modifies if query == null then {} else {query}, if shared == null then {} else {shared}, stats
    ensures Sound(query, shared, disk)
    ensures hits == plan.hits && misses == plan.misses && Rising(misses)
    ensures plan.Of(pages, old(QueryPages(query)), old(SharedPages(shared)), namespace, query != null, shared != null)
    ensures QueryPages(query) == old(QueryPages(query)) && SharedPages(shared).at == old(SharedPages(shared).at)
    ensures SharedPages(shared) == plan.touched
    ensures stats != null ==> stats.counters == Plus(old(stats.counters), plan.count)
    ensures stats != null && old(Conserved(stats.counters)) ==> Conserved(stats.counters)
  {
    hide Coherent, IsPlan, IsCount, LookedUp, Sorted, PagesFound, Conserved, Rising, AreRuns, ValidDict, Fits, Plus;
    ghost var q, d := QueryPages(query), SharedPages(shared);
    var count;
    ghost var s, runs;
    hits, misses, count, s, runs := PlanReads(pages, query, shared, namespace);
    plan := Plan(hits, misses, runs, count, SharedPages(shared));
    LookedUpSame(s.inShared, namespace, SharedPages(shared), d);
    PlanSplits(pages, q, d.at, namespace, hits, misses, runs);
    if stats != null {
      stats.Merge(count);
    }
  }

  // --- The direct reader ----------------------------------------------------------------------------------

  datatype RunData = RunData(start: nat, data: Bytes)

  predicate RunInFile(run: Run, file: Bytes) {
    (run.start + run.len) * PAGE_SIZE <= |file|
  }

  ghost predicate AreRead(results: seq<RunData>, runs: seq<Run>, file: Bytes) {
    |results| == |runs| && forall i :: 0 <= i < |runs| ==> IsRead(results[i], runs[i], file)
  }

  ghost predicate IsRead(result: RunData, run: Run, file: Bytes) {
    result.start == run.start && IsRunData(result.data, run, file)
  }

  lemma {:induction false} SameLength(results: seq<RunData>, runs: seq<Run>, file: Bytes)
    requires AreRead(results, runs, file)
    ensures |results| == |runs|
  {}

  lemma {:induction false} ReadAt(results: seq<RunData>, runs: seq<Run>, file: Bytes, i: nat)
    requires AreRead(results, runs, file) && i < |runs|
    ensures i < |results| && results[i].start == runs[i].start && IsRunData(results[i].data, runs[i], file)
  {
    assert IsRead(results[i], runs[i], file);
  }

  lemma {:induction false} Associate(a: seq<nat>, b: seq<nat>, c: seq<nat>)
    ensures (a + b) + c == a + (b + c)
  {}

  lemma {:induction false} ExpandNone()
    ensures Expand([]) == []
  {}

  lemma {:induction false} ExpandAppend(a: seq<Run>, b: seq<Run>)
    ensures Expand(a + b) == Expand(a) + Expand(b)
    decreases |b|
  {
    hide Expand, Range;
    ExpandNone();
    if b == [] {
      assert a + b == a;
    } else {
      var front, last := b[..|b| - 1], b[|b| - 1];
      ExpandAppend(a, front);
      ExpandSnoc(a + front, last);
      ExpandSnoc(front, last);
      assert a + b == (a + front) + [last] && b == front + [last];
      Associate(Expand(a), Expand(front), Range(last.start, last.len));
    }
  }

  lemma {:induction false} ExpandNext(done: seq<nat>, chunk: seq<Run>, i: nat)
    requires i < |chunk|
    ensures done + Expand(chunk[..i + 1]) == (done + Expand(chunk[..i])) + Range(chunk[i].start, chunk[i].len)
  {
    hide Expand, Range;
    ExpandSnoc(chunk[..i], chunk[i]);
    assert chunk[..i + 1] == chunk[..i] + [chunk[i]];
    Associate(done, Expand(chunk[..i]), Range(chunk[i].start, chunk[i].len));
  }

  /** Store the runs of a chunk, in order. */
  method StoreChunk(results: seq<RunData>, out: Pages, query: QueryPageCache?, shared: SharedPageCache?,
                    namespace: Namespace, ghost chunk: seq<Run>, ghost job: Job, ghost done: seq<nat>)
    returns (r: Pages)
    requires After(job, done, out, query, shared) && job.namespace == namespace && AreRead(results, chunk, job.file)
    modifies if query == null then {} else {query}`pages, if shared == null then {} else {shared}`pages
    ensures After(job, done + Expand(chunk), r, query, shared)
  {
    assert done + Expand(chunk[..0]) == done;
    SameLength(results, chunk, job.file);
    hide After, AreRead, IsRunData, Expand, Range;
    r := out;
    var i := 0;
    while i < |results|
      invariant i <= |results| && After(job, done + Expand(chunk[..i]), r, query, shared)
    {
      var result := results[i];
      ReadAt(results, chunk, job.file, i);
      r := StoreRun(result.start, result.data, r, query, shared, namespace, chunk[i], job, done + Expand(chunk[..i]));
      ExpandNext(done, chunk, i);
      i := i + 1;
    }
    assert chunk[..i] == chunk;
  }

  class DirectPageReader {
    const file: Bytes
    const namespace: Namespace
    const maxInflight: nat

    ghost predicate Valid() {
      maxInflight >= 1
    }

    constructor (file: Bytes, namespace: Namespace, maxInflight: nat)
      requires maxInflight >= 1
      ensures Valid() && this.file == file && this.namespace == namespace && this.maxInflight == maxInflight
    {
      this.file, this.namespace, this.maxInflight := file, namespace, maxInflight;
    }

    /** `_read_aligned`: a read that the file cannot fill is an error. */
    method ReadAligned(offset: nat, size: nat) returns (r: Result<Bytes>)
      ensures r.Ok? <==> offset + AlignUp(size) <= |file|
      ensures r.Ok? ==> r.value == file[offset..offset + AlignUp(size)]
      ensures r.Err? ==> r.error == ShortRead
    {
      if offset + AlignUp(size) <= |file| {
        r := Ok(file[offset..offset + AlignUp(size)]);
      } else {
        r := Err(ShortRead);
      }
    }

    /** Read the runs of a chunk; nothing of it is stored when one of them fails. */
    method ReadChunk(chunk: seq<Run>) returns (r: Result<seq<RunData>>)
      ensures r.Ok? <==> forall i :: 0 <= i < |chunk| ==> RunInFile(chunk[i], file)
      ensures r.Ok? ==> AreRead(r.value, chunk, file)
      ensures r.Err? ==> r.error == ShortRead
    {
      var results: seq<RunData> := [];
      var i := 0;
      while i < |chunk|
        invariant i <= |chunk| && AreRead(results, chunk[..i], file)
        invariant forall k :: 0 <= k < i ==> RunInFile(chunk[k], file)
      {
        var run := chunk[i];
        assert AlignUp(run.len * PAGE_SIZE) == run.len * PAGE_SIZE;
        var read := ReadAligned(run.start * PAGE_SIZE, run.len * PAGE_SIZE);
        if read.Err? {
          assert !RunInFile(chunk[i], file);
          return Err(ShortRead);
        }
        results := results + [RunData(run.start, read.value)];
        assert chunk[..i + 1] == chunk[..i] + [run];
        i := i + 1;
      }
      assert chunk[..i] == chunk;
      r := Ok(results);
    }

    /** The runs, `maxInflight` at a time. `done` and `part` are what was fetched, also on an error. */
    method ReadRuns(runs: seq<Run>, out: Pages, query: QueryPageCache?, shared: SharedPageCache?, ghost job: Job)
      returns (r: Result<Pages>, ghost done: seq<nat>, ghost part: Pages)
      requires Valid() && After(job, [], out, query, shared) && job.namespace == namespace && job.file == file
      modifies if query == null then {} else {query}`pages, if shared == null then {} else {shared}`pages
      ensures After(job, done, part, query, shared)
      ensures r.Ok? <==> forall i :: 0 <= i < |runs| ==> RunInFile(runs[i], file)
      ensures r.Ok? ==> done == Expand(runs) && part == r.value
      ensures r.Err? ==> r.error == ShortRead
    {
      ExpandNone();
      hide After, AreRead, RunInFile, Expand;
      var chunkStart := 0;
      var got := out;
      done := [];
      while chunkStart < |runs|
        invariant chunkStart <= |runs| && done == Expand(runs[..chunkStart]) && After(job, done, got, query, shared)
        invariant forall i :: 0 <= i < chunkStart ==> RunInFile(runs[i], file)
        decreases |runs| - chunkStart
      {
        var end := if chunkStart + maxInflight < |runs| then chunkStart + maxInflight else |runs|;
        var chunk := runs[chunkStart..end];
        var read := ReadChunk(chunk);
        if read.Err? {
          ghost var k :| 0 <= k < |chunk| && !RunInFile(chunk[k], file);
          assert chunk[k] == runs[chunkStart + k];
          part := got;
          return Err(ShortRead), done, part;
        }
        got := StoreChunk(read.value, got, query, shared, namespace, chunk, job, done);
        ExpandAppend(runs[..chunkStart], chunk);
        assert runs[..end] == runs[..chunkStart] + chunk;
        forall i | chunkStart <= i < end ensures RunInFile(runs[i], file) {
          assert runs[i] == chunk[i - chunkStart];
        }
        done := done + Expand(chunk);
        chunkStart := end;
      }
      assert runs[..chunkStart] == runs;
      part := got;
      r := Ok(got);
    }

    /** The part of a call that reads: the misses, in runs, into the result and the caches. */
    method Fetch(misses: seq<nat>, out: Pages, query: QueryPageCache?, shared: SharedPageCache?, ghost job: Job,
                 ghost plan: Plan, ghost disk: Disk) returns (r: Result<Pages>)
      requires Valid() && namespace in disk && disk[namespace] == file && Rising(misses)
      requires After(job, [], out, query, shared) && job.namespace == namespace && job.file == file && job.out == out
      requires Coherent(job.query, disk) && Coherent(job.shared.at, disk)
      requires plan.misses == misses && plan.touched == job.shared
      modifies if query == null then {} else {query}, if shared == null then {} else {shared}
      ensures Sound(query, shared, disk)
      ensures r.Ok? <==> InFile(file, misses)
      ensures r.Ok? ==> r.value == Fetched(out, misses, file) && plan.Done(job.query, namespace, file, query, shared)
      ensures r.Err? ==> r.error == ShortRead
    {
      hide After, Coherent, InFile, Rising, AreRuns, RunInFile, Sound;
      var runs := Coalesce(misses);
      RunsInFile(runs, misses, file);
      ghost var done, part;
      r, done, part := ReadRuns(runs, out, query, shared, job);
      AfterSound(job, done, part, query, shared, disk);
      if r.Ok? {
        RunsList(runs, misses);
        AfterDone(job, done, part, query, shared, plan);
      }
    }

    /** `read_pages`. Whatever coherent caches hold, the result is what reading without caches returns,
        the caches stay coherent, on an error as well, and the counters are conserved. */
    method ReadPages(pages: seq<nat>, query: QueryPageCache?, shared: SharedPageCache?, stats: IOStats?,
                     ghost disk: Disk)
      returns (r: Result<Pages>, ghost plan: Plan)
      requires Valid() && namespace in disk && disk[namespace] == file && Sound(query, shared, disk)
      modifies if query == null then {} else {query}, if shared == null then {} else {shared}, stats
      ensures Sound(query, shared, disk)
      ensures r == PlainRead(file, pages)
      ensures plan.Of(pages, old(QueryPages(query)), old(SharedPages(shared)), namespace, query != null, shared != null)
      ensures stats != null ==> stats.counters == Plus(old(stats.counters), plan.count)
      ensures stats != null && old(Conserved(stats.counters)) ==> Conserved(stats.counters)
      ensures r.Ok? ==> plan.Done(old(QueryPages(query)), namespace, file, query, shared)
    {
      hide After, Coherent, InFile, PlainRead, Peeked, Fetched, Plan.Of, Plan.Done, Conserved, Plus, Rising, Sorted,
        LookedUp, IsPlan, IsCount;
      ghost var q, d := QueryPages(query), SharedPages(shared);
      var hits, misses;
      hits, misses, plan := Begin(pages, query, shared, stats, namespace, disk);
      var out := CopyHits(hits, query, shared, namespace, map[]);
      PlanIs(plan, pages, q, d, namespace, query != null, shared != null);
      SameAsPlain(pages, q, d.at, namespace, hits, misses, plan.runs, disk, out);
      AfterNone(out, query, shared, namespace, file);
      ghost var job := Job(out, q, SharedPages(shared), namespace, file);
      if misses == [] {
        AfterDone(job, misses, out, query, shared, plan);
        r := Ok(out);
        return;
      }
      r := Fetch(misses, out, query, shared, job, plan, disk);
    }
  }

  // --- Whole runs -----------------------------------------------------------------------------------------

  datatype Request = Request(reader: DirectPageReader, pages: seq<nat>)

  ghost predicate OnDisk(request: Request, disk: Disk) {
    request.reader.Valid() && request.reader.namespace in disk && disk[request.reader.namespace] == request.reader.file
  }

  /** Any run of reads, one after another, on any files that share the two caches: every answer is what reading
      without caches returns, whatever came before it; the shared cache is never above its capacity rounded up to
      a page. */
  method ReadRun(requests: seq<Request>, query: QueryPageCache?, shared: SharedPageCache?, stats: IOStats,
                 ghost disk: Disk)
    returns (answers: seq<Result<Pages>>)
    requires Sound(query, shared, disk) && forall i :: 0 <= i < |requests| ==> OnDisk(requests[i], disk)
    modifies if query == null then {} else {query}, if shared == null then {} else {shared}, stats
    ensures Sound(query, shared, disk) && |answers| == |requests|
    ensures forall i :: 0 <= i < |requests| ==> answers[i] == PlainRead(requests[i].reader.file, requests[i].pages)
    ensures old(Conserved(stats.counters)) ==> Conserved(stats.counters)
    ensures shared != null ==> |shared.pages.order| * PAGE_SIZE < shared.capacityBytes + PAGE_SIZE
  {
    hide PlainRead, Conserved, Sound, Plan.Of, Plan.Done;
    answers := [];
    var i := 0;
    while i < |requests|
      invariant i <= |requests| && |answers| == i && Sound(query, shared, disk)
      invariant forall k :: 0 <= k < i ==> answers[k] == PlainRead(requests[k].reader.file, requests[k].pages)
      invariant old(Conserved(stats.counters)) ==> Conserved(stats.counters)
    {
      assert OnDisk(requests[i], disk);
      var answer, _ := requests[i].reader.ReadPages(requests[i].pages, query, shared, stats, disk);
      answers := answers + [answer];
      i := i + 1;
    }
    SoundFits(query, shared, disk);
  }

  lemma {:induction false} SoundFits(query: QueryPageCache?, shared: SharedPageCache?, disk: Disk)
    requires Sound(query, shared, disk)
    ensures shared != null ==> Fits(shared.pages, shared.capacityBytes)
  {}
}
