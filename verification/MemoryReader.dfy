/** `MemoryPageReader`: it stores the misses before it copies the hits, so a small shared cache may
    have evicted a hit by then. */
module MemoryReader {
  import opened Layout
  import opened SortedSets
  import opened PageCache
  import opened ReadPlan
  import opened PageReaders
  import opened Wrappers

  /** How many pages the shared cache keeps: its capacity in pages, rounded up. */
  function Slots(capacity: int): (n: nat)
    requires capacity >= 1
    ensures (n - 1) * PAGE_SIZE < capacity <= n * PAGE_SIZE
  {
    (capacity + PAGE_SIZE - 1) / PAGE_SIZE
  }

  function Keys(namespace: Namespace, pages: seq<nat>): (keys: seq<Key>)
    ensures |keys| == |pages| && forall i :: 0 <= i < |keys| ==> keys[i] == Key(namespace, pages[i])
    decreases |pages|
  {
    if pages == [] then [] else Keys(namespace, pages[..|pages| - 1]) + [Key(namespace, pages[|pages| - 1])]
  }

  // --- The order of the shared cache --------------------------------------------------------------------

  lemma {:induction false} WithoutAbsent(order: seq<Key>, key: Key)
    requires Distinct(order) && key !in order
    ensures Without(order, key) == order
    decreases |order|
  {
    if order == [] {
    } else {
      WithoutAbsent(order[..|order| - 1], key);
      assert order == order[..|order| - 1] + [order[|order| - 1]];
    }
  }

  lemma {:induction false} WithoutFront(a: seq<Key>, b: seq<Key>, key: Key)
    requires Distinct(a + b) && key !in b
    ensures Distinct(a) && Without(a + b, key) == Without(a, key) + b
    decreases |b|
  {
    assert Distinct(a) by {
      assert forall i :: 0 <= i < |a| ==> (a + b)[i] == a[i];
    }
    if b == [] {
      assert a + b == a;
      assert Without(a, key) + b == Without(a, key);
    } else {
      var front, last := b[..|b| - 1], b[|b| - 1];
      var all := a + b;
      assert all[..|all| - 1] == a + front && all[|all| - 1] == last;
      assert last in b && last != key;
      WithoutFront(a, front, key);
      assert (Without(a, key) + front) + [last] == Without(a, key) + b;
    }
  }

  lemma {:induction false} TouchStep(before: seq<Key>, keys: seq<Key>, key: Key)
    requires Distinct(before + keys) && key !in keys
    ensures Distinct(before) && Without(before + keys, key) + [key] == Without(before, key) + (keys + [key])
  {
    WithoutFront(before, keys, key);
    hide Without;
    var others := Without(before, key);
    assert (others + keys) + [key] == others + (keys + [key]);
  }

  lemma {:induction false} KeysNext(namespace: Namespace, pages: seq<nat>)
    requires Rising(pages) && pages != []
    ensures var front, p := pages[..|pages| - 1], pages[|pages| - 1];
      Rising(front) && Keys(namespace, pages) == Keys(namespace, front) + [Key(namespace, p)]
      && Key(namespace, p) !in Keys(namespace, front)
  {}

  /** Looking pages up moves them, in order, behind all others. */
  lemma {:induction false} TouchedOrder(d: Dict, pages: seq<nat>, namespace: Namespace) returns (others: seq<Key>)
    requires ValidDict(d) && Rising(pages) && forall i :: 0 <= i < |pages| ==> Key(namespace, pages[i]) in d.at
    ensures TouchedAll(d, pages, namespace).order == others + Keys(namespace, pages)
    decreases |pages|
  {
    if pages == [] {
      others := d.order;
      assert others + Keys(namespace, pages) == d.order;
      return;
    }
    KeysNext(namespace, pages);
    var front, p := pages[..|pages| - 1], pages[|pages| - 1];
    var before := TouchedOrder(d, front, namespace);
    var after := TouchedAll(d, front, namespace);
    assert TouchedAll(d, pages, namespace) == Touched(after, Key(namespace, p));
    assert Distinct(after.order);
    hide Keys, TouchedAll, Without, Distinct, Rising;
    TouchStep(before, Keys(namespace, front), Key(namespace, p));
    others := Without(before, Key(namespace, p));
  }

  /** What is left when a cache of `slots` pages took all of these, oldest first. */
  function Newest(order: seq<Key>, slots: nat): seq<Key> {
    if |order| <= slots then order else order[|order| - slots..]
  }

  lemma {:induction false} NewestNext(order: seq<Key>, slots: nat, key: Key)
    requires slots >= 1
    ensures var kept := Newest(order, slots);
      Newest(order + [key], slots) == (if |kept| >= slots then kept[1..] else kept) + [key]
  {}

  /** The keys still to come are new to the cache. */
  ghost predicate AreNew(d: Dict, pages: seq<nat>, namespace: Namespace) {
    Rising(pages) && forall i :: 0 <= i < |pages| ==> Key(namespace, pages[i]) !in d.at
  }

  lemma {:induction false} NotThere(d: Dict, key: Key)
    requires ValidDict(d) && key !in d.order
    ensures key !in d.at
  {}

  lemma {:induction false} FilledStep(before: Dict, order: seq<Key>, keys: seq<Key>, key: Key, data: Bytes,
                                      capacity: int)
    requires ValidDict(before) && capacity >= 1 && Fits(before, capacity)
    requires before.order == Newest(order + keys, Slots(capacity)) && key !in order && key !in keys
    ensures Filled(before, key, data, capacity).order == Newest(order + (keys + [key]), Slots(capacity))
  {
    hide Newest, Filled, ValidDict, Distinct, Fits, Slots;
    InNewest(order, keys, Slots(capacity), key);
    NotThere(before, key);
    FilledNew(before, key, data, capacity);
    NewestNext(order + keys, Slots(capacity), key);
    assert (order + keys) + [key] == order + (keys + [key]);
  }

  lemma {:induction false} NewNext(d: Dict, pages: seq<nat>, namespace: Namespace)
    requires ValidDict(d) && AreNew(d, pages, namespace) && pages != []
    ensures AreNew(d, pages[..|pages| - 1], namespace) && Key(namespace, pages[|pages| - 1]) !in d.order
  {}

  /** Storing new pages keeps the newest of all. */
  lemma {:induction false} FilledOrder(d: Dict, pages: seq<nat>, namespace: Namespace, file: Bytes, capacity: int)
    requires ValidDict(d) && capacity >= 1 && Fits(d, capacity) && InFile(file, pages) && AreNew(d, pages, namespace)
    ensures FilledAll(d, pages, namespace, file, capacity).order
      == Newest(d.order + Keys(namespace, pages), Slots(capacity))
    decreases |pages|
  {
    if pages == [] {
      FilledNone(d, capacity);
      assert d.order + Keys(namespace, pages) == d.order;
      return;
    }
    assert Rising(pages);
    KeysNext(namespace, pages);
    NewNext(d, pages, namespace);
    var front, p := pages[..|pages| - 1], pages[|pages| - 1];
    assert InFile(file, front) && HasPage(file, p);
    var before := FilledAll(d, front, namespace, file, capacity);
    assert FilledAll(d, pages, namespace, file, capacity)
      == Filled(before, Key(namespace, p), FilePage(file, p), capacity);
    hide FilledAll, Filled, FilePage, Keys, Newest, AreNew, ValidDict, Fits, Slots, Rising;
    FilledOrder(d, front, namespace, file, capacity);
    FilledStep(before, d.order, Keys(namespace, front), Key(namespace, p), FilePage(file, p), capacity);
  }

  lemma {:induction false} FilledNone(d: Dict, capacity: int)
    requires capacity >= 1 && Fits(d, capacity)
    ensures Newest(d.order, Slots(capacity)) == d.order
  {}

  lemma {:induction false} InNewest(a: seq<Key>, b: seq<Key>, slots: nat, key: Key)
    ensures key in Newest(a + b, slots) ==> key in a || key in b
  {}

  lemma {:induction false} FilledNew(d: Dict, key: Key, data: Bytes, capacity: int)
    requires ValidDict(d) && capacity >= 1 && Fits(d, capacity) && key !in d.at
    ensures Filled(d, key, data, capacity).order
      == (if |d.order| >= Slots(capacity) then d.order[1..] else d.order) + [key]
  {}

  // --- Which hits survive -------------------------------------------------------------------------------

  lemma {:induction false} NewestAt(order: seq<Key>, slots: nat, i: nat)
    requires i < |order| && Distinct(order)
    ensures order[i] in Newest(order, slots) <==> |order| - i <= slots
  {
    var kept := Newest(order, slots);
    var gone := |order| - |kept|;
    assert forall k :: 0 <= k < |kept| ==> kept[k] == order[gone + k];
    if |order| - i <= slots {
      assert kept[i - gone] == order[i];
    }
  }

  /** The middle part of a sequence of distinct keys survives exactly when what follows leaves room. */
  lemma {:induction false} MiddleSurvives(a: seq<Key>, b: seq<Key>, c: seq<Key>, slots: nat)
    requires Distinct((a + b) + c) && |a + b| <= slots
    ensures (forall k :: k in b ==> k in Newest((a + b) + c, slots)) <==> b == [] || |b| + |c| <= slots
  {
    hide Newest, Distinct;
    var all := (a + b) + c;
    forall i | 0 <= i < |b| ensures b[i] in Newest(all, slots) <==> |b| - i + |c| <= slots {
      assert all[|a| + i] == b[i];
      NewestAt(all, slots, |a| + i);
    }
    if b != [] {
      assert b[0] in b;
    }
  }

  /** Pages looked up in the shared cache are still there after new ones were stored, exactly when there
      were none or the cache has room for both. */
  lemma {:induction false} HitsSurvive(d: Dict, found: seq<nat>, pages: seq<nat>, namespace: Namespace, file: Bytes,
                                       capacity: int)
    requires ValidDict(d) && capacity >= 1 && Fits(d, capacity) && InFile(file, pages) && AreNew(d, pages, namespace)
    requires Rising(found) && forall i :: 0 <= i < |found| ==> Key(namespace, found[i]) in d.at
    ensures (
      var after := FilledAll(TouchedAll(d, found, namespace), pages, namespace, file, capacity);
      (forall k :: k in Keys(namespace, found) ==> k in after.at)
        <==> found == [] || |found| + |pages| <= Slots(capacity))
  {
    var others := TouchedOrder(d, found, namespace);
    var touched := TouchedAll(d, found, namespace);
    assert |touched.order| == |d.order| && Fits(touched, capacity);
    FitsSlots(touched, capacity);
    assert AreNew(touched, pages, namespace);
    FilledOrder(touched, pages, namespace, file, capacity);
    KeysApart(touched, pages, namespace);
    hide FilledAll, TouchedAll, Newest, AreNew, Fits, Distinct;
    MiddleSurvives(others, Keys(namespace, found), Keys(namespace, pages), Slots(capacity));
  }

  lemma {:induction false} FitsSlots(d: Dict, capacity: int)
    requires capacity >= 1 && Fits(d, capacity)
    ensures |d.order| <= Slots(capacity)
  {}

  lemma {:induction false} KeysApart(d: Dict, pages: seq<nat>, namespace: Namespace)
    requires ValidDict(d) && AreNew(d, pages, namespace)
    ensures Distinct(d.order + Keys(namespace, pages))
  {}

  /** Of the pages requested, none is found in the shared cache, or it has room for those found in it together with
      those found nowhere. */
  ghost predicate Room(requested: seq<nat>, q: Contents, d: Contents, namespace: Namespace, hasShared: bool,
                       capacity: int)
  {
    var inShared := PagesFound(Elements(requested), q, d, namespace, InShared);
    var nowhere := PagesFound(Elements(requested), q, d, namespace, Nowhere);
    !hasShared || inShared == {} || (capacity >= 1 && |inShared| + |nowhere| <= Slots(capacity))
  }

  /** A hit as the caches show it after the misses were stored. */
  lemma {:induction false} HitAfter(p: nat, q: Contents, d: Contents, q2: Contents, d2: Contents, namespace: Namespace,
                                    disk: Disk)
    requires Coherent(q2, disk) && Coherent(d2, disk) && namespace in disk
    requires Key(namespace, p) in q2 <==> Key(namespace, p) in q
    requires FoundAt(q, d, Key(namespace, p)) != Nowhere && HasPage(disk[namespace], p)
    ensures Peeked(q2, d2, Key(namespace, p)) == Some(FilePage(disk[namespace], p))
      <==> FoundAt(q, d, Key(namespace, p)) == InQuery || Key(namespace, p) in d2
  {
    hide FilePage;
    var key := Key(namespace, p);
    if key in q2 {
      assert IsPage(q2[key], key, disk);
    } else if key in d2 {
      assert IsPage(d2[key], key, disk);
    }
  }

  /** These pages are in the result, and they are the file's. */
  ghost predicate ShownRight(out: Pages, pages: seq<nat>, file: Bytes) {
    forall p :: p in pages ==> HasPage(file, p) && p in out && out[p] == Some(FilePage(file, p))
  }

  /** The result is right exactly when every hit is shown right. */
  lemma {:induction false} RightIfShown(requested: seq<nat>, hits: seq<nat>, misses: seq<nat>, file: Bytes, out: Pages)
    requires InFile(file, requested)
    requires forall p :: p in requested <==> p in hits || p in misses
    requires forall p :: p in out <==> p in requested
    requires ShownRight(out, misses, file)
    ensures Ok(out) == PlainRead(file, requested) <==> ShownRight(out, hits, file)
  {
    AllInFile(file, requested);
    hide FilePage, HasPage;
    var plain := PlainRead(file, requested).value;
    assert forall p :: p in plain <==> p in requested;
    if ShownRight(out, hits, file) {
      assert out == plain;
    }
  }

  /** The shared hits of a plan are among its hits, and its misses are new to the shared cache. */
  lemma {:induction false} SharedHits(requested: seq<nat>, q: Contents, d: Dict, namespace: Namespace, hits: seq<nat>,
                                      misses: seq<nat>, runs: seq<Run>, found: seq<nat>)
    requires IsPlan(requested, q, d.at, namespace, hits, misses, runs)
    requires found == Sorted(PagesFound(Elements(requested), q, d.at, namespace, InShared))
    ensures Rising(found) && AreNew(d, misses, namespace)
    ensures forall i :: 0 <= i < |found| ==> Key(namespace, found[i]) in d.at
    ensures forall p :: p in found <==> p in hits && FoundAt(q, d.at, Key(namespace, p)) == InShared
  {
    hide AreRuns, Rising;
    forall i | 0 <= i < |found| ensures Key(namespace, found[i]) in d.at {
      assert found[i] in found;
    }
    forall i | 0 <= i < |misses| ensures Key(namespace, misses[i]) !in d.at {
      assert misses[i] in misses;
    }
  }

  lemma {:induction false} InKeys(namespace: Namespace, pages: seq<nat>, contents: Contents)
    ensures (forall k :: k in Keys(namespace, pages) ==> k in contents)
      <==> (forall p :: p in pages ==> Key(namespace, p) in contents)
  {
    var keys := Keys(namespace, pages);
    if forall k :: k in keys ==> k in contents {
      forall p | p in pages ensures Key(namespace, p) in contents {
        var i :| 0 <= i < |pages| && pages[i] == p;
        assert keys[i] in keys;
      }
    } else {
      var k :| k in keys && k !in contents;
      var i :| 0 <= i < |keys| && keys[i] == k;
      assert pages[i] in pages;
    }
  }

  /** What a call leaves in the caches and in the result, as values. */
  datatype Outcome = Outcome(query: Contents, shared: Contents, out: Pages)

  ghost predicate Shown(o: Outcome, hits: seq<nat>, namespace: Namespace) {
    forall p :: p in hits ==> p in o.out && o.out[p] == Peeked(o.query, o.shared, Key(namespace, p))
  }

  ghost predicate Leaves(o: Outcome, requested: seq<nat>, q: Contents, d: Dict, namespace: Namespace, plan: Plan,
                         file: Bytes, hasQuery: bool, hasShared: bool, capacity: int)
  {
    && InFile(file, plan.misses)
    && (if hasQuery then o.query == Kept(q, plan.misses, namespace, file) else q == map[] && o.query == map[])
    && ValidDict(d) && ValidDict(plan.touched)
    && (if hasShared then capacity >= 1 && Fits(d, capacity)
        && o.shared == FilledAll(plan.touched, plan.misses, namespace, file, capacity).at
        else d.at == map[] && o.shared == map[])
    && (forall p :: p in o.out <==> p in requested) && Shown(o, plan.hits, namespace)
    && ShownRight(o.out, plan.misses, file)
  }

  /** Every hit is shown right exactly when the shared hits are still cached. */
  lemma {:induction false} ShownIfCached(o: Outcome, hits: seq<nat>, q: Contents, d: Contents, namespace: Namespace,
                                         disk: Disk, found: seq<nat>)
    requires namespace in disk && Coherent(q, disk) && Coherent(d, disk)
    requires Coherent(o.query, disk) && Coherent(o.shared, disk) && Shown(o, hits, namespace)
    requires forall p :: p in hits ==> FoundAt(q, d, Key(namespace, p)) != Nowhere
    requires forall p :: p in hits ==> (Key(namespace, p) in o.query <==> Key(namespace, p) in q)
    requires forall p :: p in found <==> p in hits && FoundAt(q, d, Key(namespace, p)) == InShared
    ensures ShownRight(o.out, hits, disk[namespace]) <==> (forall p :: p in found ==> Key(namespace, p) in o.shared)
  {
    hide FilePage, Coherent, Peeked, FoundAt;
    forall p | p in hits
      ensures HasPage(disk[namespace], p)
        && (o.out[p] == Some(FilePage(disk[namespace], p))
            <==> FoundAt(q, d, Key(namespace, p)) == InQuery || Key(namespace, p) in o.shared)
    {
      HitRight(p, q, d, namespace, disk);
      HitAfter(p, q, d, o.query, o.shared, namespace, disk);
    }
  }

  lemma {:induction false} LeavesShown(o: Outcome, requested: seq<nat>, q: Contents, d: Dict, namespace: Namespace,
                                       plan: Plan, file: Bytes, hasQuery: bool, hasShared: bool, capacity: int)
    requires Leaves(o, requested, q, d, namespace, plan, file, hasQuery, hasShared, capacity)
    requires plan.Of(requested, q, d, namespace, hasQuery, hasShared)
    ensures Shown(o, plan.hits, namespace) && ShownRight(o.out, plan.misses, file)
    ensures forall p :: p in plan.hits ==> (Key(namespace, p) in o.query <==> Key(namespace, p) in q)
    ensures forall p :: p in plan.misses ==> FoundAt(q, d.at, Key(namespace, p)) == Nowhere
  {
    PlanSplits(requested, q, d.at, namespace, plan.hits, plan.misses, plan.runs);
    QueryKeeps(o, requested, q, d, namespace, plan, file, hasQuery, hasShared, capacity);
    hide AreRuns, FoundAt, FilledAll, Kept, Rising;
  }

  lemma {:induction false} QueryKeeps(o: Outcome, requested: seq<nat>, q: Contents, d: Dict, namespace: Namespace,
                                      plan: Plan, file: Bytes, hasQuery: bool, hasShared: bool, capacity: int)
    requires Leaves(o, requested, q, d, namespace, plan, file, hasQuery, hasShared, capacity)
    requires forall p :: p in plan.hits ==> p !in plan.misses
    ensures forall p :: p in plan.hits ==> (Key(namespace, p) in o.query <==> Key(namespace, p) in q)
  {}

  lemma {:induction false} RoomSizes(requested: seq<nat>, q: Contents, d: Contents, namespace: Namespace, plan: Plan,
                                     found: seq<nat>, hasShared: bool, capacity: int)
    requires IsPlan(requested, q, d, namespace, plan.hits, plan.misses, plan.runs)
    requires found == Sorted(PagesFound(Elements(requested), q, d, namespace, InShared))
    ensures Room(requested, q, d, namespace, hasShared, capacity)
      <==> !hasShared || found == [] || (capacity >= 1 && |found| + |plan.misses| <= Slots(capacity))
  {
    hide PagesFound, AreRuns, Slots, Rising;
    var inShared := PagesFound(Elements(requested), q, d, namespace, InShared);
    assert inShared == {} <==> |inShared| == 0;
  }

  /** The answer is right exactly when the pages found in the shared cache are still there. */
  lemma {:induction false} RightIfCached(o: Outcome, requested: seq<nat>, q: Contents, d: Dict, namespace: Namespace,
                                         plan: Plan, disk: Disk, hasQuery: bool, hasShared: bool, capacity: int,
                                         found: seq<nat>)
    requires namespace in disk && Coherent(q, disk) && Coherent(d.at, disk)
    requires Leaves(o, requested, q, d, namespace, plan, disk[namespace], hasQuery, hasShared, capacity)
    requires Coherent(o.query, disk) && Coherent(o.shared, disk)
    requires plan.Of(requested, q, d, namespace, hasQuery, hasShared)
    requires forall p :: p in found <==> p in plan.hits && FoundAt(q, d.at, Key(namespace, p)) == InShared
    ensures Ok(o.out) == PlainRead(disk[namespace], requested)
      <==> forall p :: p in found ==> Key(namespace, p) in o.shared
  {
    var file := disk[namespace];
    PlanSplits(requested, q, d.at, namespace, plan.hits, plan.misses, plan.runs);
    QueryKeeps(o, requested, q, d, namespace, plan, file, hasQuery, hasShared, capacity);
    ShownIfCached(o, plan.hits, q, d.at, namespace, disk, found);
    hide FilePage, IsPlan, Coherent, Peeked, FilledAll, HasPage, FoundAt, Rising, AreRuns, IsCount, LookedUp, PlainRead,
      Kept, InFile, ShownRight, Shown;
    MissesDecide(requested, plan.hits, plan.misses, file);
    RightIfShown(requested, plan.hits, plan.misses, file, o.out);
  }

  /** The answer of the memory reader is what reading without caches returns, exactly when the shared
      cache has room for the hits found in it and the misses. */
  lemma {:induction false} RightIffRoom(o: Outcome, requested: seq<nat>, q: Contents, d: Dict, namespace: Namespace,
                                        plan: Plan, disk: Disk, hasQuery: bool, hasShared: bool, capacity: int)
    requires namespace in disk && Coherent(q, disk) && Coherent(d.at, disk)
    requires Leaves(o, requested, q, d, namespace, plan, disk[namespace], hasQuery, hasShared, capacity)
    requires Coherent(o.query, disk) && Coherent(o.shared, disk)
    requires plan.Of(requested, q, d, namespace, hasQuery, hasShared)
    ensures Ok(o.out) == PlainRead(disk[namespace], requested)
      <==> Room(requested, q, d.at, namespace, hasShared, capacity)
  {
    var file, found := disk[namespace], Sorted(PagesFound(Elements(requested), q, d.at, namespace, InShared));
    RoomSizes(requested, q, d.at, namespace, plan, found, hasShared, capacity);
    SharedHits(requested, q, d, namespace, plan.hits, plan.misses, plan.runs, found);
    RightIfCached(o, requested, q, d, namespace, plan, disk, hasQuery, hasShared, capacity, found);
    assert plan.touched == TouchedAll(d, found, namespace);
    hide FilePage, IsPlan, Coherent, FilledAll, TouchedAll, FoundAt, Rising, Fits, Sorted, PagesFound, IsCount,
      LookedUp, AreNew, PlainRead, Kept, InFile, Slots, ShownRight, Shown, Room;
    if hasShared {
      HitsSurvive(d, found, plan.misses, namespace, file, capacity);
      InKeys(namespace, found, o.shared);
    }
  }

  /** Each page requested is the file's, except that one found in the shared cache that is no longer there comes
      back as nothing. */
  ghost predicate Answers(out: Pages, requested: seq<nat>, q: Contents, d: Contents, after: Contents,
                          namespace: Namespace, file: Bytes)
  {
    forall p :: p in requested ==>
      && p in out && HasPage(file, p)
      && out[p] == if FoundAt(q, d, Key(namespace, p)) == InShared && Key(namespace, p) !in after then None
                   else Some(FilePage(file, p))
  }

  lemma {:induction false} AnswersHold(o: Outcome, requested: seq<nat>, q: Contents, d: Contents, namespace: Namespace,
                                       hits: seq<nat>, misses: seq<nat>, disk: Disk)
    requires namespace in disk && InFile(disk[namespace], requested)
    requires Coherent(o.query, disk) && Coherent(o.shared, disk) && Shown(o, hits, namespace)
    requires ShownRight(o.out, misses, disk[namespace])
    requires forall p :: p in hits ==> (Key(namespace, p) in o.query <==> Key(namespace, p) in q)
    requires forall p :: p in hits ==> FoundAt(q, d, Key(namespace, p)) != Nowhere
    requires forall p :: p in misses ==> FoundAt(q, d, Key(namespace, p)) == Nowhere
    requires forall p :: p in requested <==> p in hits || p in misses
    ensures Answers(o.out, requested, q, d, o.shared, namespace, disk[namespace])
  {
    var file := disk[namespace];
    AllInFile(file, requested);
    hide FilePage;
    forall p | p in hits
      ensures p in o.out && o.out[p] ==
        if FoundAt(q, d, Key(namespace, p)) == InShared && Key(namespace, p) !in o.shared then None
        else Some(FilePage(file, p))
    {
      var key := Key(namespace, p);
      assert key in o.query ==> IsPage(o.query[key], key, disk);
      assert key in o.shared ==> IsPage(o.shared[key], key, disk);
    }
  }

  class MemoryPageReader {
    const file: Bytes
    const namespace: Namespace

    ghost predicate Valid() {
      |file| % PAGE_SIZE == 0
    }

    /** A file that is not whole pages is refused. */
    constructor (file: Bytes, namespace: Namespace)
      requires |file| % PAGE_SIZE == 0
      ensures Valid() && this.file == file && this.namespace == namespace
    {
      this.file, this.namespace := file, namespace;
    }

    /** The loop that stores the misses: a page the file does not have is a key error. */
    method StoreMisses(misses: seq<nat>, query: QueryPageCache?, shared: SharedPageCache?, ghost job: Job)
      returns (r: Result<Pages>, ghost done: seq<nat>, ghost part: Pages)
      requires After(job, [], map[], query, shared) && job.namespace == namespace && job.file == file
      modifies if query == null then {} else {query}`pages, if shared == null then {} else {shared}`pages
      ensures After(job, done, part, query, shared)
      ensures r.Ok? <==> InFile(file, misses)
      ensures r.Ok? ==> done == misses && part == r.value
      ensures r.Err? ==> r.error == KeyError
    {
      hide After;
      var out: Pages := map[];
      var i := 0;
      while i < |misses|
        invariant i <= |misses| && After(job, misses[..i], out, query, shared)
        invariant forall k :: 0 <= k < i ==> HasPage(file, misses[k])
      {
        var p := misses[i];
        if p >= |file| / PAGE_SIZE {
          assert !HasPage(file, misses[i]);
          done, part := misses[..i], out;
          return Err(KeyError), done, part;
        }
        out := StorePage(p, FilePage(file, p), out, query, shared, namespace, job, misses[..i]);
        assert misses[..i + 1] == misses[..i] + [p];
        i := i + 1;
      }
      assert misses[..i] == misses;
      r, done, part := Ok(out), misses, out;
    }

    /** `read_pages`. The caches stay coherent as in the direct reader, but the answer is the one of a
        read without caches exactly when the shared cache has room for the hits found in it and the
        misses. */
    method ReadPages(pages: seq<nat>, query: QueryPageCache?, shared: SharedPageCache?, stats: IOStats?,
                     ghost disk: Disk)
      returns (r: Result<Pages>, ghost plan: Plan)
      requires Valid() && namespace in disk && disk[namespace] == file && Sound(query, shared, disk)
      modifies if query == null then {} else {query}, if shared == null then {} else {shared}, stats
      ensures Sound(query, shared, disk)
      ensures r.Ok? <==> InFile(file, pages)
      ensures r.Err? ==> r.error == KeyError
      ensures plan.Of(pages, old(QueryPages(query)), old(SharedPages(shared)), namespace, query != null, shared != null)
      ensures stats != null ==> stats.counters == Plus(old(stats.counters), plan.count)
      ensures stats != null && old(Conserved(stats.counters)) ==> Conserved(stats.counters)
      ensures r.Ok? ==> plan.Done(old(QueryPages(query)), namespace, file, query, shared)
      ensures r.Ok? ==> forall p :: p in r.value <==> p in pages
      ensures r.Ok? ==> (r == PlainRead(file, pages) <==>
        Room(pages, old(QueryPages(query)), old(SharedPages(shared).at), namespace, shared != null,
             if shared == null then 1 else shared.capacityBytes))
      ensures r.Ok? ==> Answers(r.value, pages, old(QueryPages(query)), old(SharedPages(shared).at),
                                SharedPages(shared).at, namespace, file)
    {
      hide After, Coherent, IsPlan, IsCount, LookedUp, InFile, Sorted, PagesFound, Conserved, PlainRead, Rising,
        FoundAt, AreRuns, Peeked, Fetched, ValidDict, Fits, Plus, Leaves, Room, Shown, ShownRight, Answers;
      ghost var q, d := QueryPages(query), SharedPages(shared);
      var hits, misses;
      hits, misses, plan := Begin(pages, query, shared, stats, namespace, disk);
      PlanIs(plan, pages, q, d, namespace, query != null, shared != null);
      PlanSplits(pages, q, d.at, namespace, hits, misses, plan.runs);
      PlanDecides(pages, q, d.at, namespace, hits, misses, disk);
      AfterNone(map[], query, shared, namespace, file);
      ghost var job := Job(map[], q, SharedPages(shared), namespace, file);
      ghost var done, part;
      r, done, part := StoreMisses(misses, query, shared, job);
      AfterSound(job, done, part, query, shared, disk);
      if r.Err? {
        return;
      }
      AfterDone(job, done, part, query, shared, plan);
      var out := CopyHits(hits, query, shared, namespace, r.value);
      ghost var o := Outcome(QueryPages(query), SharedPages(shared).at, out);
      ghost var capacity := if shared == null then 1 else shared.capacityBytes;
      OutcomeStored(o, r.value, pages, q, d, namespace, plan, file, query, shared, capacity);
      RightIffRoom(o, pages, q, d, namespace, plan, disk, query != null, shared != null, capacity);
      LeavesShown(o, pages, q, d, namespace, plan, file, query != null, shared != null, capacity);
      AnswersHold(o, pages, q, d.at, namespace, hits, misses, disk);
      r := Ok(out);
    }
  }

  /** Misses decide whether the read succeeds, also here. */
  lemma {:induction false} PlanDecides(requested: seq<nat>, q: Contents, d: Contents, namespace: Namespace,
                                       hits: seq<nat>, misses: seq<nat>, disk: Disk)
    requires Coherent(q, disk) && Coherent(d, disk) && namespace in disk
    requires forall p :: p in requested <==> p in hits || p in misses
    requires forall p :: p in hits ==> FoundAt(q, d, Key(namespace, p)) != Nowhere
    ensures InFile(disk[namespace], misses) <==> InFile(disk[namespace], requested)
  {
    hide Coherent, FoundAt;
    forall p | p in hits ensures HasPage(disk[namespace], p) {
      HitRight(p, q, d, namespace, disk);
    }
    MissesDecide(requested, hits, misses, disk[namespace]);
  }

  lemma {:induction false} OutcomeStored(o: Outcome, fetched: Pages, requested: seq<nat>, q: Contents, d: Dict,
                                         namespace: Namespace, plan: Plan, file: Bytes, query: QueryPageCache?,
                                         shared: SharedPageCache?, capacity: int)
    requires plan.Done(q, namespace, file, query, shared) && fetched == Fetched(map[], plan.misses, file)
    requires o.query == QueryPages(query) && o.shared == SharedPages(shared).at
    requires query == null ==> q == map[]
    requires shared == null ==> d == Dict([], map[]) && plan.touched == d
    requires shared != null ==> capacity == shared.capacityBytes && Fits(d, capacity)
    requires ValidDict(d) && ValidDict(plan.touched)
    requires forall p :: p in requested <==> p in plan.hits || p in plan.misses
    requires forall p :: p in plan.hits ==> p !in plan.misses
    requires forall p :: p in o.out <==> p in fetched || p in plan.hits
    requires forall p :: p in o.out ==>
      o.out[p] == if p in plan.hits then Peeked(o.query, o.shared, Key(namespace, p)) else fetched[p]
    ensures Leaves(o, requested, q, d, namespace, plan, file, query != null, shared != null, capacity)
  {
    hide FilePage, Peeked, ValidDict, Fits, Kept, FilledAll;
    assert forall i :: 0 <= i < |plan.misses| ==> HasPage(file, plan.misses[i]);
  }

  // --- A hit that is lost -------------------------------------------------------------------------------

  lemma {:induction false} OldestCached(d: Dict)
    requires ValidDict(d)
    ensures d.order == [] || d.order[0] in d.at
  {}

  lemma {:induction false} OneCached(d: Dict, namespace: Namespace, file: Bytes)
    requires ValidDict(d) && d.at == map[] && HasPage(file, 0)
    ensures FilledAll(d, [0], namespace, file, PAGE_SIZE).at == map[Key(namespace, 0) := FilePage(file, 0)]
  {
    hide FilePage;
    OldestCached(d);
    assert [0][..0] == [];
    assert FilledAll(d, [], namespace, file, PAGE_SIZE) == d;
  }

  lemma {:induction false} NoRoom(namespace: Namespace, d: Contents)
    requires Key(namespace, 0) in d && Key(namespace, 1) !in d
    ensures !Room([0, 1], map[], d, namespace, true, PAGE_SIZE)
  {
    var unique := Elements([0, 1]);
    assert [0, 1][0] == 0 && [0, 1][1] == 1;
    assert PagesFound(unique, map[], d, namespace, InShared) == {0};
    assert PagesFound(unique, map[], d, namespace, Nowhere) == {1};
  }

  lemma {:induction false} FirstMisses(namespace: Namespace, hits: seq<nat>, misses: seq<nat>, runs: seq<Run>)
    requires IsPlan([0], map[], map[], namespace, hits, misses, runs)
    ensures misses == [0]
  {
    hide AreRuns, Sorted;
    assert [0][0] == 0;
    assert PagesFound(Elements([0]), map[], map[], namespace, Nowhere) == {0};
    RisingUnique(Sorted({0}), [0]);
  }

  /** The first read leaves page 0 alone in the cache. */
  lemma {:induction false} FirstRead(plan: Plan, namespace: Namespace, file: Bytes, shared: SharedPageCache, d: Dict)
    requires d.at == map[] && HasPage(file, 0)
    requires plan.Of([0], map[], d, namespace, false, true) && plan.Done(map[], namespace, file, null, shared)
    requires shared.capacityBytes == PAGE_SIZE
    ensures shared.pages.at == map[Key(namespace, 0) := FilePage(file, 0)]
  {
    hide FilePage, IsPlan, IsCount, FilledAll;
    FirstMisses(namespace, plan.hits, plan.misses, plan.runs);
    OneCached(plan.touched, namespace, file);
  }

  lemma {:induction false} BothRight(file: Bytes, out: Pages)
    requires InFile(file, [0, 1]) && (forall p :: p in out <==> p in [0, 1])
    requires out[0] == Some(FilePage(file, 0)) && out[1] == Some(FilePage(file, 1))
    ensures Ok(out) == PlainRead(file, [0, 1])
  {
    hide FilePage;
    assert [0, 1][0] == 0 && [0, 1][1] == 1;
    assert forall p :: p in out ==> p == 0 || p == 1;
    assert out == PlainRead(file, [0, 1]).value;
  }

  /** Two reads through a cache of one page: pages 0 and 1 are asked for while page 0 is cached. Storing page 1
      evicts page 0, and the answer has nothing for page 0. */
  method EvictedHit(file: Bytes, namespace: Namespace) returns (r: Result<Pages>)
    requires |file| == 2 * PAGE_SIZE
    ensures r.Ok? && 0 in r.value && r.value[0].None? && r != PlainRead(file, [0, 1])
  {
    hide PlainRead, Plan.Of, Plan.Done, IsPlan, Room, FilePage;
    var shared := new SharedPageCache(PAGE_SIZE);
    var reader := new MemoryPageReader(file, namespace);
    ghost var disk := map[namespace := file];
    ghost var plan;
    ghost var d := shared.pages;
    r, plan := reader.ReadPages([0], null, shared, null, disk);
    FirstRead(plan, namespace, file, shared, d);
    NoRoom(namespace, shared.pages.at);
    r, plan := reader.ReadPages([0, 1], null, shared, null, disk);
    assert [0, 1][0] == 0 && [0, 1][1] == 1;
    if r.value[0].Some? {
      BothRight(file, r.value);
    }
  }
}
