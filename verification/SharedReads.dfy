/** Readers at work at the same time on one shared cache. Each call of the cache is locked, so any number of readers
    make one sequence of calls; what a reader found when it looked a page up may be gone when it peeks at it. */
module SharedReads {
  import opened Layout
  import opened PageCache
  import opened ReadPlan
  import opened PageReaders
  import opened MemoryReader
  import opened Wrappers

  /** One call on the cache, by any reader: `get`, `peek`, or `put` of the page read from its file. */
  datatype Call = Get(key: Key) | Peek(key: Key) | Put(key: Key)

  ghost predicate OnFile(call: Call, disk: Disk) {
    call.key.namespace in disk && HasPage(disk[call.key.namespace], call.key.page)
  }

  ghost predicate OnFiles(calls: seq<Call>, disk: Disk) {
    forall i :: 0 <= i < |calls| ==> OnFile(calls[i], disk)
  }

  ghost function Called(d: Dict, call: Call, disk: Disk, capacity: int): (r: Dict)
    requires ValidDict(d) && capacity >= 1 && OnFile(call, disk)
    ensures ValidDict(r)
  {
    match call
    case Get(key) => if key in d.at then Touched(d, key) else d
    case Peek(_) => d
    case Put(key) => Filled(d, key, FilePage(disk[key.namespace], key.page), capacity)
  }

  ghost function Run(d: Dict, calls: seq<Call>, disk: Disk, capacity: int): (r: Dict)
    requires ValidDict(d) && capacity >= 1 && OnFiles(calls, disk)
    ensures ValidDict(r)
    decreases |calls|
  {
    if calls == [] then d
    else Called(Run(d, calls[..|calls| - 1], disk, capacity), calls[|calls| - 1], disk, capacity)
  }

  lemma {:induction false} CalledSafe(d: Dict, call: Call, disk: Disk, capacity: int)
    requires ValidDict(d) && capacity >= 1 && OnFile(call, disk) && Coherent(d.at, disk) && Fits(d, capacity)
    ensures Coherent(Called(d, call, disk, capacity).at, disk) && Fits(Called(d, call, disk, capacity), capacity)
  {
    hide FilePage, Without, Distinct;
    if call.Put? {
      assert IsPage(FilePage(disk[call.key.namespace], call.key.page), call.key, disk);
    }
  }

  /** In any interleaving the cache holds pages of the files only, within its capacity rounded up to a page, so a
      page looked at is the file's or missing, never another one. */
  lemma {:induction false} RunSafe(d: Dict, calls: seq<Call>, disk: Disk, capacity: int, key: Key)
    requires ValidDict(d) && capacity >= 1 && OnFiles(calls, disk) && Coherent(d.at, disk) && Fits(d, capacity)
    ensures var r := Run(d, calls, disk, capacity);
      && Coherent(r.at, disk) && Fits(r, capacity)
      && (key in r.at ==> IsPage(r.at[key], key, disk))
    decreases |calls|
  {
    hide IsPage, ValidDict, Called, Fits;
    if calls == [] {
    } else {
      RunSafe(d, calls[..|calls| - 1], disk, capacity, key);
      CalledSafe(Run(d, calls[..|calls| - 1], disk, capacity), calls[|calls| - 1], disk, capacity);
    }
  }

  // --- How long a page that was found stays ---------------------------------------------------------------

  /** The other pages that calls may put behind this one. */
  function Others(calls: seq<Call>, key: Key): (s: set<Key>)
    ensures key !in s
    decreases |calls|
  {
    if calls == [] then {} else Others(calls[..|calls| - 1], key) + Behind(calls[|calls| - 1], key)
  }

  /** The other page that this call may put behind it. */
  function Behind(call: Call, key: Key): (s: set<Key>)
    ensures key !in s
  {
    if call.Peek? || call.key == key then {} else {call.key}
  }

  /** The key is there, and all behind it are among these. */
  ghost predicate Tail(order: seq<Key>, key: Key, others: set<Key>) {
    exists at: nat :: TailFrom(order, key, others, at)
  }

  ghost predicate TailFrom(order: seq<Key>, key: Key, others: set<Key>, at: nat) {
    at < |order| && order[at] == key && forall i :: at < i < |order| ==> order[i] in others
  }

  lemma {:induction false} TailEnd(order: seq<Key>, key: Key, others: set<Key>)
    ensures Tail(order + [key], key, others)
  {
    assert TailFrom(order + [key], key, others, |order|);
  }

  lemma {:induction false} TailAppend(order: seq<Key>, key: Key, others: set<Key>, k: Key)
    requires Tail(order, key, others)
    ensures Tail(order + [k], key, others + {k})
  {
    var at: nat :| TailFrom(order, key, others, at);
    assert TailFrom(order + [k], key, others + {k}, at);
  }

  lemma {:induction false} TailMore(order: seq<Key>, key: Key, others: set<Key>, more: set<Key>)
    requires Tail(order, key, others) && others <= more
    ensures Tail(order, key, more)
  {
    var at: nat :| TailFrom(order, key, others, at);
    assert TailFrom(order, key, more, at);
  }

  lemma {:induction false} TailEvict(order: seq<Key>, key: Key, others: set<Key>)
    requires Tail(order, key, others) && order != [] && order[0] != key
    ensures Tail(order[1..], key, others)
  {
    var at: nat :| TailFrom(order, key, others, at);
    assert order[at] == key && at > 0;
    assert TailFrom(order[1..], key, others, at - 1);
  }

  lemma {:induction false} TailFront(order: seq<Key>, key: Key, others: set<Key>)
    requires Tail(order, key, others) && order != [] && order[|order| - 1] != key
    ensures Tail(order[..|order| - 1], key, others) && order[|order| - 1] in others
  {
    var at: nat :| TailFrom(order, key, others, at);
    assert TailFrom(order[..|order| - 1], key, others, at);
  }

  lemma {:induction false} TailWithout(order: seq<Key>, key: Key, others: set<Key>, k: Key)
    requires Distinct(order) && k != key && Tail(order, key, others)
    ensures Tail(Without(order, k), key, others)
    decreases |order|
  {
    var at: nat :| TailFrom(order, key, others, at);
    var front, last := order[..|order| - 1], order[|order| - 1];
    assert Distinct(front);
    hide Tail, Distinct;
    if last == key {
      TailEnd(Without(front, k), key, others);
    } else {
      TailFront(order, key, others);
      TailWithout(front, key, others, k);
      if last != k {
        TailAppend(Without(front, k), key, others, last);
        assert others + {last} == others;
      }
    }
  }

  lemma {:induction false} DistinctSize(order: seq<Key>, s: set<Key>)
    requires Distinct(order) && forall i :: 0 <= i < |order| ==> order[i] in s
    ensures |order| <= |s|
    decreases |order|
  {
    if order == [] {
    } else {
      var n := |order| - 1;
      DistinctSize(order[..n], s - {order[n]});
    }
  }

  /** The oldest page is not this one while fewer others than the cache has room for came behind it. */
  lemma {:induction false} NotOldest(d: Dict, key: Key, others: set<Key>, k: Key, capacity: int)
    requires ValidDict(d) && Tail(d.order, key, others) && k !in d.order && capacity >= 1
    requires |others + {k}| < Slots(capacity) && |d.order| * PAGE_SIZE >= capacity
    ensures d.order[0] != key
  {
    var at: nat :| TailFrom(d.order, key, others, at);
    if d.order[0] == key {
      assert at == 0;
      var rest := d.order[1..] + [k];
      DistinctSize(rest, others + {k});
    }
  }

  /** Where a call leaves the page. */
  lemma {:induction false} CalledKeeps(d: Dict, call: Call, disk: Disk, capacity: int, key: Key, others: set<Key>)
    requires ValidDict(d) && capacity >= 1 && OnFile(call, disk) && Tail(d.order, key, others)
    requires |others + Behind(call, key)| < Slots(capacity)
    ensures Tail(Called(d, call, disk, capacity).order, key, others + Behind(call, key))
  {
    hide Tail, Slots, FilePage, Without, Distinct;
    var k := call.key;
    TailMore(d.order, key, others, others + Behind(call, key));
    match call
    case Peek(_) =>
    case Get(_) =>
      if k in d.at {
        if k == key {
          TailEnd(Without(d.order, k), key, others);
        } else {
          TailWithout(d.order, key, others, k);
          TailAppend(Without(d.order, k), key, others, k);
        }
      }
    case Put(_) =>
      if k !in d.at {
        assert k != key by {
          TailMember(d.order, key, others);
        }
        if |d.order| * PAGE_SIZE >= capacity {
          NotOldest(d, key, others, k, capacity);
          TailEvict(d.order, key, others);
          TailAppend(d.order[1..], key, others, k);
        } else {
          TailAppend(d.order, key, others, k);
        }
      }
  }

  lemma {:induction false} TailMember(order: seq<Key>, key: Key, others: set<Key>)
    requires Tail(order, key, others)
    ensures order != [] && key in order
  {}

  lemma {:induction false} RunKeeps(d: Dict, calls: seq<Call>, disk: Disk, capacity: int, key: Key)
    requires ValidDict(d) && capacity >= 1 && OnFiles(calls, disk) && Tail(d.order, key, {})
    requires |Others(calls, key)| < Slots(capacity)
    ensures Tail(Run(d, calls, disk, capacity).order, key, Others(calls, key))
    decreases |calls|
  {
    hide Tail, Called, Slots, ValidDict;
    if calls == [] {
    } else {
      var front, last := calls[..|calls| - 1], calls[|calls| - 1];
      assert Others(calls, key) == Others(front, key) + Behind(last, key);
      FewerOthers(Others(front, key), Behind(last, key));
      RunKeeps(d, front, disk, capacity, key);
      CalledKeeps(Run(d, front, disk, capacity), last, disk, capacity, key, Others(front, key));
    }
  }

  lemma {:induction false} FewerOthers(a: set<Key>, b: set<Key>)
    ensures |a| <= |a + b|
  {
    assert a + b == a + (b - a);
  }

  /** A page that was found is still there when its reader peeks at it, whatever calls other readers made in between,
      as long as these brought fewer other pages than the cache has room for. */
  lemma {:induction false} HitStays(d: Dict, key: Key, calls: seq<Call>, disk: Disk, capacity: int)
    requires ValidDict(d) && Fits(d, capacity) && capacity >= 1 && Coherent(d.at, disk) && key in d.at
    requires OnFile(Get(key), disk) && OnFiles(calls, disk) && |Others(calls, key)| < Slots(capacity)
    ensures var after := Run(Called(d, Get(key), disk, capacity), calls, disk, capacity);
      Lookup(after.at, key) == Some(FilePage(disk[key.namespace], key.page))
  {
    var found := Called(d, Get(key), disk, capacity);
    TailEnd(Without(d.order, key), key, {});
    CalledSafe(d, Get(key), disk, capacity);
    RunKeeps(found, calls, disk, capacity, key);
    RunSafe(found, calls, disk, capacity, key);
    hide Tail, Fits, Coherent, FilePage;
    TailMember(Run(found, calls, disk, capacity).order, key, Others(calls, key));
  }

  // --- The bound is exact ---------------------------------------------------------------------------------

  function Puts(namespace: Namespace, pages: seq<nat>): (calls: seq<Call>)
    ensures |calls| == |pages| && forall i :: 0 <= i < |calls| ==> calls[i] == Put(Key(namespace, pages[i]))
    decreases |pages|
  {
    if pages == [] then [] else Puts(namespace, pages[..|pages| - 1]) + [Put(Key(namespace, pages[|pages| - 1]))]
  }

  lemma {:induction false} RunPuts(d: Dict, pages: seq<nat>, namespace: Namespace, disk: Disk, capacity: int)
    requires ValidDict(d) && capacity >= 1 && namespace in disk && InFile(disk[namespace], pages)
    ensures OnFiles(Puts(namespace, pages), disk)
    ensures Run(d, Puts(namespace, pages), disk, capacity) == FilledAll(d, pages, namespace, disk[namespace], capacity)
    decreases |pages|
  {
    hide Filled, FilePage, ValidDict, HasPage;
    if pages == [] {
    } else {
      RunPuts(d, pages[..|pages| - 1], namespace, disk, capacity);
    }
  }

  /** When another reader stores new pages, the page found stays exactly when they are fewer than the cache has room
      for. */
  lemma {:induction false} StaysIff(d: Dict, page: nat, pages: seq<nat>, namespace: Namespace, disk: Disk,
                                    capacity: int)
    requires ValidDict(d) && Fits(d, capacity) && capacity >= 1 && namespace in disk && Key(namespace, page) in d.at
    requires InFile(disk[namespace], pages) && AreNew(d, pages, namespace) && HasPage(disk[namespace], page)
    ensures OnFiles(Puts(namespace, pages), disk)
    ensures var found := Called(d, Get(Key(namespace, page)), disk, capacity);
      Key(namespace, page) in Run(found, Puts(namespace, pages), disk, capacity).at <==> |pages| < Slots(capacity)
  {
    var found := Called(d, Get(Key(namespace, page)), disk, capacity);
    assert TouchedAll(d, [page], namespace) == found by {
      assert [page][..0] == [];
    }
    RunPuts(found, pages, namespace, disk, capacity);
    HitsSurvive(d, [page], pages, namespace, disk[namespace], capacity);
    assert Keys(namespace, [page]) == [Key(namespace, page)];
    hide FilledAll, AreNew, Fits, Slots, Called;
    OnlyOne(Key(namespace, page), FilledAll(found, pages, namespace, disk[namespace], capacity).at);
  }

  lemma {:induction false} OnlyOne(key: Key, at: Contents)
    ensures (forall k :: k in [key] ==> k in at) <==> key in at
  {
    assert key in [key];
  }
}
