/** `plan_reads`: which pages to read, and in which contiguous runs. */
module ReadPlan {
  import opened Layout
  import opened SortedSets
  import opened PageCache

  // --- Runs -----------------------------------------------------------------------------------------------

  datatype Run = Run(start: nat, len: nat)

  predicate InRun(run: Run, p: nat) {
    run.start <= p < run.start + run.len
  }

  /** The pages of the runs, in order. */
  function Expand(runs: seq<Run>): seq<nat>
    decreases |runs|
  {
    if runs == [] then [] else Expand(runs[..|runs| - 1]) + Range(runs[|runs| - 1].start, runs[|runs| - 1].len)
  }

  /** A run starts here: the page before it is not wanted. */
  predicate Starts(p: nat, pages: seq<nat>) {
    p in pages && (p == 0 || p - 1 !in pages)
  }

  ghost predicate RunsFrom(runs: seq<Run>, pages: seq<nat>) {
    forall i :: 0 <= i < |runs| ==> runs[i].len >= 1 && Starts(runs[i].start, pages)
  }

  ghost predicate Ascending(runs: seq<Run>) {
    forall i, j :: 0 <= i < j < |runs| ==> runs[i].start < runs[j].start
  }

  /** The runs list exactly these pages, and none could be merged into the one before it. */
  ghost predicate AreRuns(runs: seq<Run>, pages: seq<nat>) {
    Expand(runs) == pages && RunsFrom(runs, pages) && Ascending(runs)
  }

  lemma {:induction false} ExpandSnoc(runs: seq<Run>, run: Run)
    ensures Expand(runs + [run]) == Expand(runs) + Range(run.start, run.len)
  {
    assert (runs + [run])[..|runs|] == runs;
  }

  lemma {:induction false} RangeSnoc(first: nat, n: nat)
    ensures Range(first, n + 1) == Range(first, n) + [first + n]
  {}

  lemma {:induction false} ExpandLonger(runs: seq<Run>, run: Run)
    ensures Expand(runs + [run.(len := run.len + 1)]) == Expand(runs + [run]) + [run.start + run.len]
  {
    hide Expand, Range;
    ExpandSnoc(runs, run);
    ExpandSnoc(runs, run.(len := run.len + 1));
    RangeSnoc(run.start, run.len);
    assert Expand(runs) + (Range(run.start, run.len) + [run.start + run.len])
        == Expand(runs) + Range(run.start, run.len) + [run.start + run.len];
  }

  /** Some read fetches this page. */
  predicate Fetches(reads_: seq<Run>, p: nat) {
    exists j :: 0 <= j < |reads_| && InRun(reads_[j], p)
  }

  lemma {:induction false} InExpand(runs: seq<Run>, p: nat)
    ensures p in Expand(runs) <==> Fetches(runs, p)
    decreases |runs|
  {
    if runs == [] {
      return;
    }
    var front, last := runs[..|runs| - 1], runs[|runs| - 1];
    InExpand(front, p);
    var tail := Range(last.start, last.len);
    assert p in tail <==> InRun(last, p) by {
      if InRun(last, p) {
        assert tail[p - last.start] == p;
      }
    }
    assert runs == front + [last];
    if InRun(last, p) {
      assert InRun(runs[|runs| - 1], p);
    } else if p in Expand(front) {
      var i :| 0 <= i < |front| && InRun(front[i], p);
      assert InRun(runs[i], p);
    }
  }

  /** The runs of the first i pages. */
  ghost predicate RunsSoFar(runs: seq<Run>, pages: seq<nat>, i: nat) {
    && i <= |pages| && Expand(runs) == pages[..i] && RunsFrom(runs, pages) && Ascending(runs)
    && (runs == [] <==> i == 0)
    && (runs != [] ==> pages[i - 1] == runs[|runs| - 1].start + runs[|runs| - 1].len - 1)
  }

  lemma {:induction false} LongerRun(front: seq<Run>, last: Run, pages: seq<nat>, i: nat)
    requires RunsSoFar(front + [last], pages, i) && i < |pages| && pages[i] == last.start + last.len
    ensures RunsSoFar(front + [last.(len := last.len + 1)], pages, i + 1)
  {
    ExpandLonger(front, last);
    hide Expand;
    var before, after := front + [last], front + [last.(len := last.len + 1)];
    assert before[|before| - 1] == last;
    assert pages[..i + 1] == pages[..i] + [pages[i]];
    forall k | 0 <= k < |after| ensures after[k].start == before[k].start && after[k].len >= before[k].len {}
  }

  lemma {:induction false} StartsHere(pages: seq<nat>, i: nat)
    requires Rising(pages) && i < |pages| && (i > 0 ==> pages[i] != pages[i - 1] + 1)
    ensures Starts(pages[i], pages)
  {
    var p := pages[i];
    forall j | 0 <= j < |pages| ensures pages[j] + 1 != p {
      if j < i - 1 {
        assert pages[j] < pages[i - 1] < p;
      }
    }
  }

  lemma {:induction false} NewRun(runs: seq<Run>, pages: seq<nat>, i: nat)
    requires Rising(pages) && RunsSoFar(runs, pages, i) && i < |pages|
    requires runs != [] ==> pages[i] != runs[|runs| - 1].start + runs[|runs| - 1].len
    ensures RunsSoFar(runs + [Run(pages[i], 1)], pages, i + 1)
  {
    var run := Run(pages[i], 1);
    NewStart(runs, pages, i);
    assert Expand(runs) == pages[..i] && RunsFrom(runs, pages) && Ascending(runs);
    hide Expand, Starts, Rising, RunsFrom, Ascending, RunsSoFar;
    RunsFromNext(runs, run, pages);
    AscendingNext(runs, run);
    LastRun(runs, pages, i);
  }

  lemma {:induction false} LastRun(runs: seq<Run>, pages: seq<nat>, i: nat)
    requires i < |pages| && Expand(runs) == pages[..i]
    requires RunsFrom(runs + [Run(pages[i], 1)], pages) && Ascending(runs + [Run(pages[i], 1)])
    ensures RunsSoFar(runs + [Run(pages[i], 1)], pages, i + 1)
  {
    hide Expand, Starts, Range, RunsFrom, Ascending;
    ExpandSnoc(runs, Run(pages[i], 1));
    OnePage(pages[i]);
    assert pages[..i + 1] == pages[..i] + [pages[i]];
  }

  lemma {:induction false} NewStart(runs: seq<Run>, pages: seq<nat>, i: nat)
    requires Rising(pages) && RunsSoFar(runs, pages, i) && i < |pages|
    requires runs != [] ==> pages[i] != runs[|runs| - 1].start + runs[|runs| - 1].len
    ensures Starts(pages[i], pages) && (runs != [] ==> runs[|runs| - 1].start < pages[i])
  {
    hide Expand, Starts, RunsFrom, Ascending;
    assert i > 0 ==> pages[i - 1] < pages[i];
    if runs != [] {
      LastIsFull(runs, pages, i);
    }
    StartsHere(pages, i);
  }

  lemma {:induction false} LastIsFull(runs: seq<Run>, pages: seq<nat>, i: nat)
    requires RunsSoFar(runs, pages, i) && runs != []
    ensures i > 0 && runs[|runs| - 1].len >= 1
  {
    hide Expand, Starts, Ascending;
  }

  lemma {:induction false} RunsFromNext(runs: seq<Run>, run: Run, pages: seq<nat>)
    requires RunsFrom(runs, pages) && run.len >= 1 && Starts(run.start, pages)
    ensures RunsFrom(runs + [run], pages)
  {
    hide Starts;
  }

  lemma {:induction false} AscendingNext(runs: seq<Run>, run: Run)
    requires Ascending(runs) && (runs != [] ==> runs[|runs| - 1].start < run.start)
    ensures Ascending(runs + [run])
  {}

  lemma {:induction false} OnePage(p: nat)
    ensures Range(p, 1) == [p]
  {}

  /** The loop that merges adjacent pages. */
  method Coalesce(pages: seq<nat>) returns (runs: seq<Run>)
    requires Rising(pages)
    ensures AreRuns(runs, pages)
  {
    runs := [];
    var i := 0;
    while i < |pages|
      invariant RunsSoFar(runs, pages, i)
    {
      hide RunsSoFar;
      var p := pages[i];
      if runs != [] && p == runs[|runs| - 1].start + runs[|runs| - 1].len {
        var front, last := runs[..|runs| - 1], runs[|runs| - 1];
        assert runs == front + [last];
        LongerRun(front, last, pages, i);
        runs := front + [Run(last.start, last.len + 1)];
      } else {
        NewRun(runs, pages, i);
        runs := runs + [Run(p, 1)];
      }
      i := i + 1;
    }
    assert pages[..i] == pages;
  }

  // --- No fewer reads would do ----------------------------------------------------------------------------

  /** These reads fetch exactly these pages. */
  ghost predicate Covers(reads_: seq<Run>, pages: seq<nat>) {
    forall p :: p in pages <==> Fetches(reads_, p)
  }

  function StartsOf(runs: seq<Run>): (s: set<nat>)
    ensures |s| <= |runs|
    ensures forall i :: 0 <= i < |runs| ==> runs[i].start in s
    ensures forall p :: p in s ==> exists i :: 0 <= i < |runs| && runs[i].start == p
    decreases |runs|
  {
    if runs == [] then {} else StartsOf(runs[..|runs| - 1]) + {runs[|runs| - 1].start}
  }

  lemma {:induction false} AscendingStarts(runs: seq<Run>)
    requires Ascending(runs)
    ensures |StartsOf(runs)| == |runs|
    decreases |runs|
  {
    if runs == [] {
    } else {
      var front := runs[..|runs| - 1];
      AscendingStarts(front);
      assert runs[|runs| - 1].start !in StartsOf(front);
    }
  }

  /** A read that fetches the first page of a run starts there. */
  lemma {:induction false} StartIsRead(p: nat, pages: seq<nat>, reads_: seq<Run>)
    requires Starts(p, pages) && Covers(reads_, pages)
    ensures p in StartsOf(reads_)
  {
    var j :| 0 <= j < |reads_| && InRun(reads_[j], p);
    if reads_[j].start < p {
      assert InRun(reads_[j], p - 1);
    }
  }

  /** The runs are the fewest contiguous reads that fetch exactly the missing pages. */
  lemma {:induction false} FewestReads(pages: seq<nat>, runs: seq<Run>, reads_: seq<Run>)
    requires AreRuns(runs, pages) && Covers(reads_, pages)
    ensures |runs| <= |reads_|
  {
    AscendingStarts(runs);
    hide Expand, Covers, Starts, Ascending;
    forall p | p in StartsOf(runs) ensures p in StartsOf(reads_) {
      var i :| 0 <= i < |runs| && runs[i].start == p;
      StartIsRead(p, pages, reads_);
    }
    SubsetSize(StartsOf(runs), StartsOf(reads_));
  }

  /** So any two such lists have as many runs: the planner and the reader count the same requests. */
  lemma {:induction false} SameCount(pages: seq<nat>, a: seq<Run>, b: seq<Run>)
    requires AreRuns(a, pages) && AreRuns(b, pages)
    ensures |a| == |b|
  {
    RunsCover(a, pages);
    RunsCover(b, pages);
    FewestReads(pages, a, b);
    FewestReads(pages, b, a);
  }

  lemma {:induction false} RunsCover(runs: seq<Run>, pages: seq<nat>)
    requires AreRuns(runs, pages)
    ensures Covers(runs, pages)
  {
    assert Expand(runs) == pages;
    hide Expand, Fetches, RunsFrom, Ascending;
    forall p: nat ensures p in pages <==> Fetches(runs, p) {
      InExpand(runs, p);
    }
  }

  // --- Hits and misses ------------------------------------------------------------------------------------

  function QueryPages(query: QueryPageCache?): Contents
    reads query
  {
    if query == null then map[] else query.pages
  }

  function SharedPages(shared: SharedPageCache?): Dict
    reads shared
  {
    if shared == null then Dict([], map[]) else shared.pages
  }

  ghost predicate Usable(shared: SharedPageCache?)
    reads shared
  {
    shared != null ==> shared.Valid()
  }

  datatype Found = InQuery | InShared | Nowhere

  function FoundAt(query: Contents, shared: Contents, key: Key): Found {
    if key in query then InQuery else if key in shared then InShared else Nowhere
  }

  /** Ask the query cache, then the shared cache. */
  method Find(p: nat, query: QueryPageCache?, shared: SharedPageCache?, namespace: Namespace) returns (found: Found)
    requires Usable(shared)
    modifies if query == null then {} else {query}, if shared == null then {} else {shared}
    ensures Usable(shared) && found == FoundAt(QueryPages(query), old(SharedPages(shared).at), Key(namespace, p))
    ensures QueryPages(query) == old(QueryPages(query))
    ensures found != InShared ==> SharedPages(shared) == old(SharedPages(shared))
    ensures found == InShared ==> SharedPages(shared) == Touched(old(SharedPages(shared)), Key(namespace, p))
    ensures query != null ==>
      query.hits == old(query.hits) + (if found == InQuery then 1 else 0)
      && query.misses == old(query.misses) + (if found != InQuery then 1 else 0)
    ensures shared != null ==>
      shared.hits == old(shared.hits) + (if found == InShared then 1 else 0)
      && shared.misses == old(shared.misses) + (if found == Nowhere then 1 else 0)
  {
    if query != null {
      var data := query.Get(p, namespace);
      if data.Some? {
        return InQuery;
      }
    }
    if shared != null {
      var data := shared.Get(p, namespace);
      if data.Some? {
        return InShared;
      }
    }
    found := Nowhere;
  }

  /** The pages of `unique` found in one place. */
  ghost function PagesFound(unique: set<nat>, query: Contents, shared: Contents, namespace: Namespace,
                            f: Found): set<nat>
  {
    set p | p in unique && FoundAt(query, shared, Key(namespace, p)) == f
  }

  /** `got` lists the members of `wanted` among the first i pages. */
  ghost predicate Picked(got: seq<nat>, pages: seq<nat>, i: nat, wanted: set<nat>) {
    i <= |pages| && Rising(got) && forall x :: x in got <==> x in pages[..i] && x in wanted
  }

  lemma {:induction false} PickNext(got: seq<nat>, pages: seq<nat>, i: nat, wanted: set<nat>)
    requires Picked(got, pages, i, wanted) && i < |pages| && Rising(pages)
    ensures pages[i] in wanted ==> Picked(got + [pages[i]], pages, i + 1, wanted)
    ensures pages[i] !in wanted ==> Picked(got, pages, i + 1, wanted)
  {
    assert pages[..i + 1] == pages[..i] + [pages[i]];
    assert forall k :: 0 <= k < |got| ==> got[k] in pages[..i];
  }

  lemma {:induction false} PickAll(got: seq<nat>, pages: seq<nat>, wanted: set<nat>)
    requires Picked(got, pages, |pages|, wanted) && forall x :: x in wanted ==> x in pages
    ensures got == Sorted(wanted)
  {
    assert pages[..|pages|] == pages;
    RisingUnique(got, Sorted(wanted));
  }

  /** The shared cache after these pages were looked up in it. */
  ghost function TouchedAll(d: Dict, pages: seq<nat>, namespace: Namespace): (r: Dict)
    requires ValidDict(d) && forall i :: 0 <= i < |pages| ==> Key(namespace, pages[i]) in d.at
    ensures ValidDict(r) && r.at == d.at && |r.order| == |d.order|
    decreases |pages|
  {
    if pages == [] then d
    else Touched(TouchedAll(d, pages[..|pages| - 1], namespace), Key(namespace, pages[|pages| - 1]))
  }

  /** Where the first i pages were found. */
  datatype Split = Split(inQuery: seq<nat>, inShared: seq<nat>, hits: seq<nat>, misses: seq<nat>)

  ghost predicate SplitSoFar(s: Split, pages: seq<nat>, i: nat, q: Contents, d: Contents, namespace: Namespace) {
    var unique := Elements(pages);
    var inQuery := PagesFound(unique, q, d, namespace, InQuery);
    var inShared := PagesFound(unique, q, d, namespace, InShared);
    && Picked(s.inQuery, pages, i, inQuery) && Picked(s.inShared, pages, i, inShared)
    && Picked(s.hits, pages, i, inQuery + inShared)
    && Picked(s.misses, pages, i, PagesFound(unique, q, d, namespace, Nowhere))
    && |s.hits| == |s.inQuery| + |s.inShared| && |s.hits| + |s.misses| == i
  }

  function Extended(s: Split, p: nat, found: Found): Split {
    match found
    case InQuery => Split(s.inQuery + [p], s.inShared, s.hits + [p], s.misses)
    case InShared => Split(s.inQuery, s.inShared + [p], s.hits + [p], s.misses)
    case Nowhere => Split(s.inQuery, s.inShared, s.hits, s.misses + [p])
  }

  lemma {:induction false} SplitNext(s: Split, pages: seq<nat>, i: nat, q: Contents, d: Contents, namespace: Namespace)
    requires SplitSoFar(s, pages, i, q, d, namespace) && i < |pages| && Rising(pages)
    ensures SplitSoFar(Extended(s, pages[i], FoundAt(q, d, Key(namespace, pages[i]))), pages, i + 1, q, d, namespace)
  {
    hide Picked;
    var unique := Elements(pages);
    var inQuery := PagesFound(unique, q, d, namespace, InQuery);
    var inShared := PagesFound(unique, q, d, namespace, InShared);
    assert pages[i] in unique;
    PickNext(s.inQuery, pages, i, inQuery);
    PickNext(s.inShared, pages, i, inShared);
    PickNext(s.hits, pages, i, inQuery + inShared);
    PickNext(s.misses, pages, i, PagesFound(unique, q, d, namespace, Nowhere));
  }

  lemma {:induction false} SplitAll(s: Split, pages: seq<nat>, q: Contents, d: Contents, namespace: Namespace)
    requires SplitSoFar(s, pages, |pages|, q, d, namespace)
    ensures s.inQuery == Sorted(PagesFound(Elements(pages), q, d, namespace, InQuery))
    ensures s.inShared == Sorted(PagesFound(Elements(pages), q, d, namespace, InShared))
    ensures s.misses == Sorted(PagesFound(Elements(pages), q, d, namespace, Nowhere))
    ensures s.hits == Sorted(PagesFound(Elements(pages), q, d, namespace, InQuery)
                             + PagesFound(Elements(pages), q, d, namespace, InShared))
  {
    hide Picked;
    var unique := Elements(pages);
    var inQuery := PagesFound(unique, q, d, namespace, InQuery);
    var inShared := PagesFound(unique, q, d, namespace, InShared);
    PickAll(s.inQuery, pages, inQuery);
    PickAll(s.inShared, pages, inShared);
    PickAll(s.hits, pages, inQuery + inShared);
    PickAll(s.misses, pages, PagesFound(unique, q, d, namespace, Nowhere));
  }

  /** `after` is the shared cache `d` once these pages were looked up in it. */
  ghost predicate LookedUp(found: seq<nat>, namespace: Namespace, after: Dict, d: Dict) {
    && ValidDict(d) && (forall k :: 0 <= k < |found| ==> Key(namespace, found[k]) in d.at)
    && after == TouchedAll(d, found, namespace)
  }

  lemma {:induction false} LookUpNext(found: seq<nat>, p: nat, namespace: Namespace, after: Dict, d: Dict)
    requires LookedUp(found, namespace, after, d) && Key(namespace, p) in d.at
    ensures ValidDict(after) && after.at == d.at
    ensures LookedUp(found + [p], namespace, Touched(after, Key(namespace, p)), d)
  {
    hide Without, Distinct, Touched, ValidDict;
    assert (found + [p])[..|found|] == found;
  }

  lemma {:induction false} LookedUpSame(found: seq<nat>, namespace: Namespace, after: Dict, d: Dict)
    requires LookedUp(found, namespace, after, d)
    ensures ValidDict(after) && after.at == d.at
  {}

  lemma {:induction false} LookUpNone(namespace: Namespace, d: Dict)
    requires ValidDict(d)
    ensures LookedUp([], namespace, d, d)
  {}

  lemma {:induction false} UsableDict(shared: SharedPageCache?)
    requires Usable(shared)
    ensures ValidDict(SharedPages(shared))
  {}

  /** One turn of the loop over the distinct pages. */
  method SplitPage(pages: seq<nat>, i: nat, s: Split, query: QueryPageCache?, shared: SharedPageCache?,
                   namespace: Namespace, ghost q: Contents, ghost d: Dict) returns (next: Split)
    requires Usable(shared) && Rising(pages) && i < |pages| && SplitSoFar(s, pages, i, q, d.at, namespace)
    requires QueryPages(query) == q && LookedUp(s.inShared, namespace, SharedPages(shared), d)
    modifies if query == null then {} else {query}, if shared == null then {} else {shared}
    ensures next == Extended(s, pages[i], FoundAt(q, d.at, Key(namespace, pages[i])))
    ensures SplitSoFar(next, pages, i + 1, q, d.at, namespace)
    ensures Usable(shared) && QueryPages(query) == q && LookedUp(next.inShared, namespace, SharedPages(shared), d)
    ensures query != null ==>
      query.hits - old(query.hits) == |next.inQuery| - |s.inQuery|
      && query.misses - old(query.misses) == 1 - |next.inQuery| + |s.inQuery|
    ensures shared != null ==>
      shared.hits - old(shared.hits) == |next.inShared| - |s.inShared|
      && shared.misses - old(shared.misses) == |next.misses| - |s.misses|
  {
    hide SplitSoFar, LookedUp, Touched, Rising, ValidDict, Distinct, Fits;
    LookedUpSame(s.inShared, namespace, SharedPages(shared), d);
    ghost var after := SharedPages(shared);
    var found := Find(pages[i], query, shared, namespace);
    SplitNext(s, pages, i, q, d.at, namespace);
    if found == InShared {
      LookUpNext(s.inShared, pages[i], namespace, after, d);
    }
    next := Extended(s, pages[i], found);
  }

  /** The loop over the distinct pages. */
  method SplitPages(pages: seq<nat>, query: QueryPageCache?, shared: SharedPageCache?, namespace: Namespace)
    returns (s: Split)
    requires Usable(shared) && Rising(pages)
    modifies if query == null then {} else {query}, if shared == null then {} else {shared}
    ensures SplitSoFar(s, pages, |pages|, old(QueryPages(query)), old(SharedPages(shared).at), namespace)
    ensures Usable(shared) && QueryPages(query) == old(QueryPages(query))
    ensures LookedUp(s.inShared, namespace, SharedPages(shared), old(SharedPages(shared)))
    ensures query != null ==>
      query.hits == old(query.hits) + |s.inQuery| && query.misses == old(query.misses) + |pages| - |s.inQuery|
    ensures shared != null ==>
      shared.hits == old(shared.hits) + |s.inShared| && shared.misses == old(shared.misses) + |s.misses|
  {
    hide SplitSoFar, LookedUp, Rising, Usable, FoundAt, ValidDict, Extended;
    ghost var q, d := QueryPages(query), SharedPages(shared);
    UsableDict(shared);
    LookUpNone(namespace, d);
    NothingYet(pages, q, d.at, namespace);
    s := Split([], [], [], []);
    var i := 0;
    while i < |pages|
      invariant i <= |pages| && SplitSoFar(s, pages, i, q, d.at, namespace)
      invariant Usable(shared) && QueryPages(query) == q
      invariant LookedUp(s.inShared, namespace, SharedPages(shared), d)
      invariant query != null ==>
        query.hits == old(query.hits) + |s.inQuery| && query.misses == old(query.misses) + i - |s.inQuery|
      invariant shared != null ==>
        shared.hits == old(shared.hits) + |s.inShared| && shared.misses == old(shared.misses) + |s.misses|
    {
      s := SplitPage(pages, i, s, query, shared, namespace, q, d);
      i := i + 1;
    }
  }

  lemma {:induction false} NothingYet(pages: seq<nat>, q: Contents, d: Contents, namespace: Namespace)
    ensures SplitSoFar(Split([], [], [], []), pages, 0, q, d, namespace)
  {}

  /** `sum(n for _, n in runs)` */
  function Sectors(runs: seq<Run>): (n: nat)
    ensures n == |Expand(runs)|
    decreases |runs|
  {
    if runs == [] then 0 else Sectors(runs[..|runs| - 1]) + runs[|runs| - 1].len
  }

  lemma {:induction false} RunsAtMostSectors(runs: seq<Run>)
    requires forall i :: 0 <= i < |runs| ==> runs[i].len >= 1
    ensures |runs| <= Sectors(runs)
    decreases |runs|
  {
    if runs == [] {
    } else {
      RunsAtMostSectors(runs[..|runs| - 1]);
    }
  }

  lemma {:induction false} RunsAtMost(runs: seq<Run>, pages: seq<nat>)
    requires AreRuns(runs, pages)
    ensures |runs| <= Sectors(runs) == |pages|
  {
    RunsAtMostSectors(runs);
  }

  lemma {:induction false} ElementsSize(pages: seq<nat>)
    ensures |Elements(pages)| <= |pages|
    decreases |pages|
  {
    if pages == [] {
    } else {
      var front := pages[..|pages| - 1];
      ElementsSize(front);
      assert pages == front + [pages[|pages| - 1]];
      assert Elements(pages) == Elements(front) + {pages[|pages| - 1]};
    }
  }

  /** The requested pages, each once, split into hits and misses; the misses in runs; and the counters. */
  ghost predicate IsPlan(requested: seq<nat>, q: Contents, d: Contents, namespace: Namespace, hits: seq<nat>,
                         misses: seq<nat>, runs: seq<Run>)
  {
    var unique := Elements(requested);
    && hits == Sorted(PagesFound(unique, q, d, namespace, InQuery) + PagesFound(unique, q, d, namespace, InShared))
    && misses == Sorted(PagesFound(unique, q, d, namespace, Nowhere))
    && AreRuns(runs, misses)
  }

  ghost predicate IsCount(requested: seq<nat>, q: Contents, d: Contents, namespace: Namespace, hasQuery: bool,
                          hasShared: bool, runs: nat, stats: Counters)
  {
    var unique := Elements(requested);
    var missing := |PagesFound(unique, q, d, namespace, Nowhere)|;
    && stats.requestedPages == |requested|
    && stats.duplicatePagesRemoved == |requested| - |unique|
    && stats.preCoalesceRequests == |unique|
    && stats.queryCacheHits == |PagesFound(unique, q, d, namespace, InQuery)|
    && stats.sharedCacheHits == |PagesFound(unique, q, d, namespace, InShared)|
    && stats.queryCacheMisses == (if hasQuery then missing else 0)
    && stats.sharedCacheMisses == (if hasShared then missing else 0)
    && stats.ioRequests == runs && stats.coalescedRequests == missing - runs
    && stats.sectors4k == missing && stats.bytesRead == missing * PAGE_SIZE
  }

  /** The pages in the query cache; the others in the shared cache; and those in neither. */
  lemma {:induction false} FoundWhere(unique: set<nat>, q: Contents, d: Contents, namespace: Namespace)
    ensures PagesFound(unique, q, d, namespace, InQuery) == set p | p in unique && Key(namespace, p) in q
    ensures PagesFound(unique, q, d, namespace, InShared)
         == set p | p in unique && Key(namespace, p) in d && Key(namespace, p) !in q
    ensures PagesFound(unique, q, d, namespace, Nowhere)
         == set p | p in unique && Key(namespace, p) !in d && Key(namespace, p) !in q
  {}

  /** What the plan lists: the hits are the pages in some cache, and the pages in none are read. */
  lemma {:induction false} PlanLists(requested: seq<nat>, q: Contents, d: Contents, namespace: Namespace,
                                     hits: seq<nat>, misses: seq<nat>, runs: seq<Run>)
    requires IsPlan(requested, q, d, namespace, hits, misses, runs)
    ensures Rising(hits)
    ensures forall p :: p in hits <==> p in requested && (Key(namespace, p) in q || Key(namespace, p) in d)
    ensures Rising(misses)
    ensures forall p :: p in misses <==> p in requested && Key(namespace, p) !in q && Key(namespace, p) !in d
  {
    FoundWhere(Elements(requested), q, d, namespace);
    hide Sorted, PagesFound, FoundAt, AreRuns, Rising;
  }

  /** What the plan counts: a page in both caches is a hit of the query cache. */
  lemma {:induction false} PlanCounts(requested: seq<nat>, q: Contents, d: Contents, namespace: Namespace,
                                      hasQuery: bool, hasShared: bool, runs: nat, stats: Counters)
    requires IsCount(requested, q, d, namespace, hasQuery, hasShared, runs, stats)
    ensures stats.queryCacheHits == |set p | p in Elements(requested) && Key(namespace, p) in q|
    ensures stats.sharedCacheHits
         == |set p | p in Elements(requested) && Key(namespace, p) in d && Key(namespace, p) !in q|
    ensures stats.sectors4k
         == |set p | p in Elements(requested) && Key(namespace, p) !in d && Key(namespace, p) !in q|
  {
    FoundWhere(Elements(requested), q, d, namespace);
    hide PagesFound, FoundAt;
  }

  /** `plan_reads` */
  method PlanReads(requested: seq<nat>, query: QueryPageCache?, shared: SharedPageCache?, namespace: Namespace)
    returns (hits: seq<nat>, misses: seq<nat>, stats: Counters, ghost s: Split, ghost runs: seq<Run>)
    requires Usable(shared)
    modifies if query == null then {} else {query}, if shared == null then {} else {shared}
    ensures IsPlan(requested, old(QueryPages(query)), old(SharedPages(shared).at), namespace, hits, misses, runs)
    ensures IsCount(requested, old(QueryPages(query)), old(SharedPages(shared).at), namespace, query != null,
      shared != null, |runs|, stats)
    ensures Conserved(stats)
    ensures s.inShared == Sorted(PagesFound(Elements(requested), old(QueryPages(query)), old(SharedPages(shared).at),
      namespace, InShared))
    ensures Usable(shared) && QueryPages(query) == old(QueryPages(query))
    ensures LookedUp(s.inShared, namespace, SharedPages(shared), old(SharedPages(shared)))
    ensures query != null ==>
      query.hits == old(query.hits) + |s.inQuery|
      && query.misses == old(query.misses) + |Elements(requested)| - |s.inQuery|
    ensures shared != null ==>
      shared.hits == old(shared.hits) + |s.inShared| && shared.misses == old(shared.misses) + |misses|
  {
    hide LookedUp, SplitSoFar, Sorted, PagesFound, ValidDict, Expand, RunsFrom, Ascending, Rising;
    ghost var q, d := QueryPages(query), SharedPages(shared).at;
    var unique := Sort(Elements(requested));
    assert Elements(unique) == Elements(requested);
    var split := SplitPages(unique, query, shared, namespace);
    SplitAll(split, unique, q, d, namespace);
    s, hits, misses := split, split.hits, split.misses;
    assert Rising(misses);
    var found := Coalesce(misses);
    runs := found;
    RunsAtMost(found, misses);
    ElementsSize(requested);
    SplitSizes(split, unique, q, d, namespace);
    var sectors := Sectors(found);
    stats := Counters(|requested|, |requested| - |unique|, |unique|, |misses| - |found|, |found|, sectors,
      sectors * PAGE_SIZE, |split.inQuery|, if query != null then |misses| else 0, |split.inShared|,
      if shared != null then |misses| else 0);
  }

  lemma {:induction false} SplitSizes(s: Split, pages: seq<nat>, q: Contents, d: Contents, namespace: Namespace)
    requires SplitSoFar(s, pages, |pages|, q, d, namespace)
    ensures |s.hits| == |s.inQuery| + |s.inShared| && |s.hits| + |s.misses| == |pages|
  {}
}
