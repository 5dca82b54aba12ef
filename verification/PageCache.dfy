/** The two page caches, and the counters kept per query. */
module PageCache {
  import opened Layout
  import opened Wrappers

  type Namespace = string

  datatype Key = Key(namespace: Namespace, page: nat)

  type Contents = map<Key, Bytes>

  // --- Dictionaries in insertion order ------------------------------------------------------------------

  /** A dictionary: its keys, oldest first, and what they map to. */
  datatype Dict = Dict(order: seq<Key>, at: Contents)

  ghost predicate Distinct(order: seq<Key>) {
    forall i, j :: 0 <= i < j < |order| ==> order[i] != order[j]
  }

  ghost predicate ValidDict(d: Dict) {
    Distinct(d.order) && forall k :: k in d.order <==> k in d.at
  }

  function Without(order: seq<Key>, key: Key): (r: seq<Key>)
    requires Distinct(order)
    ensures forall k :: k in r <==> k in order && k != key
    ensures Distinct(r) && |r| == |order| - (if key in order then 1 else 0)
    decreases |order|
  {
    if order == [] then []
    else
      var front, last := order[..|order| - 1], order[|order| - 1];
      assert order == front + [last];
      if last == key then assert forall k :: k in front ==> k != key; Without(front, key)
      else Without(front, key) + [last]
  }

  /** `pages.pop(key)` and `pages[key] = data`: the key becomes the newest. */
  function Touched(d: Dict, key: Key): (r: Dict)
    requires ValidDict(d) && key in d.at
    ensures ValidDict(r) && r.at == d.at && |r.order| == |d.order|
  {
    Dict(Without(d.order, key) + [key], d.at)
  }

  /** `pages[key] = data` */
  function Inserted(d: Dict, key: Key, data: Bytes): (r: Dict)
    requires ValidDict(d)
    ensures ValidDict(r) && r.at == d.at[key := data]
  {
    Dict(if key in d.at then d.order else d.order + [key], d.at[key := data])
  }

  /** `pages.pop(next(iter(pages)))` */
  function Evicted(d: Dict): (r: Dict)
    requires ValidDict(d) && d.order != []
    ensures ValidDict(r) && r.at == d.at - {d.order[0]}
  {
    assert d.order == [d.order[0]] + d.order[1..];
    Dict(d.order[1..], d.at - {d.order[0]})
  }

  /** What `put` leaves in a cache of this capacity. */
  function Filled(d: Dict, key: Key, data: Bytes, capacity: int): (r: Dict)
    requires ValidDict(d) && capacity >= 1
    ensures ValidDict(r) && key in r.at && r.at[key] == data
    ensures forall k :: k in r.at && k != key ==> k in d.at && r.at[k] == d.at[k]
    ensures Fits(d, capacity) ==> Fits(r, capacity)
  {
    if |d.order| * PAGE_SIZE >= capacity && key !in d.at then Inserted(Evicted(d), key, data)
    else Inserted(d, key, data)
  }

  /** The capacity, rounded up to a page, is never exceeded. */
  predicate Fits(d: Dict, capacity: int) {
    |d.order| * PAGE_SIZE < capacity + PAGE_SIZE
  }

  // --- The caches -----------------------------------------------------------------------------------------

  function Lookup(pages: Contents, key: Key): Option<Bytes> {
    if key in pages then Some(pages[key]) else None
  }

  /** `QueryPageCache`: unbounded, for one query. */
  class QueryPageCache {
    var pages: Contents
    var hits: nat
    var misses: nat

    constructor ()
      ensures pages == map[] && hits == 0 && misses == 0
    {
      pages, hits, misses := map[], 0, 0;
    }

    method Get(page: nat, namespace: Namespace) returns (r: Option<Bytes>)
      modifies `hits, `misses
      ensures r == Lookup(pages, Key(namespace, page))
      ensures hits == old(hits) + (if r.Some? then 1 else 0) && misses == old(misses) + (if r.None? then 1 else 0)
    {
      r := Lookup(pages, Key(namespace, page));
      if r.None? {
        misses := misses + 1;
      } else {
        hits := hits + 1;
      }
    }

    function Peek(page: nat, namespace: Namespace): Option<Bytes>
      reads this
    {
      Lookup(pages, Key(namespace, page))
    }

    method Put(page: nat, data: Bytes, namespace: Namespace)
      modifies `pages
      ensures pages == old(pages)[Key(namespace, page) := data]
    {
      pages := pages[Key(namespace, page) := data];
    }

    method Clear()
      modifies `pages
      ensures pages == map[]
    {
      pages := map[];
    }
  }

  /** `SharedPageCache`: bounded, least recently used pages go first. */
  class SharedPageCache {
    const capacityBytes: int
    var pages: Dict
    var hits: nat
    var misses: nat

    ghost predicate Valid()
      reads this
    {
      capacityBytes >= 1 && ValidDict(pages) && Fits(pages, capacityBytes)
    }

    constructor (capacityBytes: int)
      requires capacityBytes >= 1
      ensures Valid() && this.capacityBytes == capacityBytes && pages.at == map[] && hits == 0 && misses == 0
    {
      this.capacityBytes := capacityBytes;
      pages, hits, misses := Dict([], map[]), 0, 0;
    }

    method Get(page: nat, namespace: Namespace) returns (r: Option<Bytes>)
      requires Valid()
      modifies `pages, `hits, `misses
      ensures Valid() && r == Lookup(old(pages).at, Key(namespace, page))
      ensures pages == if r.Some? then Touched(old(pages), Key(namespace, page)) else old(pages)
      ensures hits == old(hits) + (if r.Some? then 1 else 0) && misses == old(misses) + (if r.None? then 1 else 0)
    {
      var key := Key(namespace, page);
      r := Lookup(pages.at, key);
      if r.None? {
        misses := misses + 1;
        return;
      }
      hits := hits + 1;
      pages := Touched(pages, key);
    }

    function Peek(page: nat, namespace: Namespace): Option<Bytes>
      reads this
    {
      Lookup(pages.at, Key(namespace, page))
    }

    method Put(page: nat, data: Bytes, namespace: Namespace)
      requires Valid()
      modifies `pages
      ensures Valid() && pages == Filled(old(pages), Key(namespace, page), data, capacityBytes)
    {
      var key := Key(namespace, page);
      if |pages.order| * PAGE_SIZE >= capacityBytes && key !in pages.at {
        pages := Evicted(pages);
      }
      pages := Inserted(pages, key, data);
    }

    function SizeBytes(): (n: nat)
      requires Valid()
      reads this
      ensures n < capacityBytes + PAGE_SIZE
    {
      |pages.order| * PAGE_SIZE
    }
  }

  // --- The counters ---------------------------------------------------------------------------------------

  datatype Counters = Counters(requestedPages: nat, duplicatePagesRemoved: nat, preCoalesceRequests: nat,
                               coalescedRequests: nat, ioRequests: nat, sectors4k: nat, bytesRead: nat,
                               queryCacheHits: nat, queryCacheMisses: nat, sharedCacheHits: nat, sharedCacheMisses: nat)

  const NO_IO := Counters(0, 0, 0, 0, 0, 0, 0, 0, 0, 0, 0)

  function Plus(a: Counters, b: Counters): Counters {
    Counters(a.requestedPages + b.requestedPages, a.duplicatePagesRemoved + b.duplicatePagesRemoved,
             a.preCoalesceRequests + b.preCoalesceRequests, a.coalescedRequests + b.coalescedRequests,
             a.ioRequests + b.ioRequests, a.sectors4k + b.sectors4k, a.bytesRead + b.bytesRead,
             a.queryCacheHits + b.queryCacheHits, a.queryCacheMisses + b.queryCacheMisses,
             a.sharedCacheHits + b.sharedCacheHits, a.sharedCacheMisses + b.sharedCacheMisses)
  }

  /** Every requested page is a duplicate, a hit or one sector read; merged requests and requests made
      add up to the sectors. */
  predicate Conserved(c: Counters) {
    && c.requestedPages == c.duplicatePagesRemoved + c.preCoalesceRequests
    && c.preCoalesceRequests == c.queryCacheHits + c.sharedCacheHits + c.sectors4k
    && c.sectors4k == c.coalescedRequests + c.ioRequests
    && c.bytesRead == c.sectors4k * PAGE_SIZE
    && c.queryCacheMisses <= c.sectors4k && c.sharedCacheMisses <= c.sectors4k
  }

  class IOStats {
    var counters: Counters

    constructor ()
      ensures counters == NO_IO
    {
      counters := NO_IO;
    }

    /** `merge` */
    method Merge(other: Counters)
      modifies this
      ensures counters == Plus(old(counters), other)
      ensures old(Conserved(counters)) && Conserved(other) ==> Conserved(counters)
    {
      counters := Plus(counters, other);
    }
  }
}
