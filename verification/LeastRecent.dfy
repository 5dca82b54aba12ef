/** The shared page cache evicts the page that was used longest ago. */
module LeastRecent {
  import opened Layout
  import opened PageCache

  /** A `get` or a `put`. */
  datatype Use = Look(key: Key) | Store(key: Key, data: Bytes)

  /** What it leaves in a cache of this capacity. */
  function Used(d: Dict, use: Use, capacity: int): (r: Dict)
    requires ValidDict(d) && capacity >= 1
    ensures ValidDict(r)
  {
    match use
    case Look(key) => if key in d.at then Touched(d, key) else d
    case Store(key, data) => Filled(d, key, data, capacity)
  }

  function AfterUses(uses: seq<Use>, capacity: int): (d: Dict)
    requires capacity >= 1
    ensures ValidDict(d)
    decreases |uses|
  {
    if uses == [] then Dict([], map[]) else Used(AfterUses(uses[..|uses| - 1], capacity), uses[|uses| - 1], capacity)
  }

  // --- Time stamps instead of an order --------------------------------------------------------------------

  /** The pages of a cache, when each was last looked up, or stored if it never was, and the time. */
  datatype Aged = Aged(at: Contents, last: map<Key, nat>, now: nat)

  predicate IsStalest(s: Aged, key: Key) {
    key in s.at && key in s.last && forall k :: k in s.at ==> k in s.last && s.last[key] <= s.last[k]
  }

  function Waited(s: Aged): Aged {
    s.(now := s.now + 1)
  }

  function Renewed(s: Aged, key: Key): Aged {
    Aged(s.at, s.last[key := s.now], s.now + 1)
  }

  function Overwritten(s: Aged, key: Key, data: Bytes): Aged {
    Aged(s.at[key := data], s.last, s.now + 1)
  }

  function Arrived(s: Aged, key: Key, data: Bytes): Aged {
    Aged(s.at[key := data], s.last[key := s.now], s.now + 1)
  }

  function Dropped(s: Aged, key: Key): Aged {
    Aged(s.at - {key}, s.last - {key}, s.now)
  }

  /** A look-up renews a page. Storing a page that is cached does not; storing a new one in a cache that has reached its
      capacity first evicts the page used longest ago. */
  ghost predicate AgedStep(s: Aged, use: Use, capacity: int, next: Aged) {
    match use
    case Look(key) => next == if key in s.at then Renewed(s, key) else Waited(s)
    case Store(key, data) =>
      if key in s.at then next == Overwritten(s, key, data)
      else if |s.at| * PAGE_SIZE < capacity then next == Arrived(s, key, data)
      else exists k :: IsStalest(s, k) && next == Arrived(Dropped(s, k), key, data)
  }

  // --- The order is that of the stamps --------------------------------------------------------------------

  /** Keys from the longest unused on, all before `now`. */
  ghost predicate ByAge(order: seq<Key>, last: map<Key, nat>, now: nat) {
    && (forall i :: 0 <= i < |order| ==> order[i] in last && last[order[i]] < now)
    && forall i, j :: 0 <= i < j < |order| && order[i] in last && order[j] in last ==> last[order[i]] < last[order[j]]
  }

  ghost predicate Agrees(d: Dict, s: Aged) {
    ValidDict(d) && d.at == s.at && s.last.Keys == s.at.Keys && ByAge(d.order, s.last, s.now)
  }

  /** There are as many pages as the order lists. */
  lemma {:induction false} OrderSize(d: Dict)
    requires ValidDict(d)
    ensures |d.at| == |d.order|
    decreases |d.order|
  {
    if d.order == [] {
      assert d.at == map[];
    } else {
      OrderSize(Evicted(d));
      assert d.at.Keys == Evicted(d).at.Keys + {d.order[0]};
    }
  }

  /** Where a key of a shortened order was before. */
  lemma {:induction false} WithoutByAge(order: seq<Key>, key: Key, last: map<Key, nat>, now: nat)
    requires Distinct(order) && ByAge(order, last, now)
    ensures ByAge(Without(order, key), last, now)
    decreases |order|
  {
    if order == [] {
    } else {
      var front, x := order[..|order| - 1], order[|order| - 1];
      WithoutByAge(front, key, last, now);
      assert order == front + [x];
      if x != key {
        LaterLast(front, x, Without(front, key), last, now);
      }
    }
  }

  lemma {:induction false} LaterLast(front: seq<Key>, x: Key, shorter: seq<Key>, last: map<Key, nat>, now: nat)
    requires ByAge(front + [x], last, now) && ByAge(shorter, last, now) && forall k :: k in shorter ==> k in front
    ensures ByAge(shorter + [x], last, now)
  {
    var all := front + [x];
    assert all[|front|] == x;
    forall i | 0 <= i < |shorter| ensures last[shorter[i]] < last[x] {
      assert shorter[i] in front;
      var j :| 0 <= j < |front| && front[j] == shorter[i];
      assert all[j] == shorter[i];
    }
  }

  /** A key stamped now goes last. */
  lemma {:induction false} StampLast(order: seq<Key>, key: Key, last: map<Key, nat>, now: nat)
    requires ByAge(order, last, now) && key !in order
    ensures ByAge(order + [key], last[key := now], now + 1)
  {}

  lemma {:induction false} Later(order: seq<Key>, last: map<Key, nat>, now: nat)
    requires ByAge(order, last, now)
    ensures ByAge(order, last, now + 1)
  {}

  lemma {:induction false} OldestFirst(d: Dict, s: Aged)
    requires Agrees(d, s) && d.order != []
    ensures IsStalest(s, d.order[0])
  {
    forall k | k in s.at ensures k in s.last && s.last[d.order[0]] <= s.last[k] {
      var j :| 0 <= j < |d.order| && d.order[j] == k;
    }
  }

  lemma {:induction false} RestByAge(order: seq<Key>, last: map<Key, nat>, now: nat)
    requires Distinct(order) && order != [] && ByAge(order, last, now)
    ensures ByAge(order[1..], last - {order[0]}, now)
  {
    var rest := order[1..];
    assert forall i :: 0 <= i < |rest| ==> rest[i] == order[i + 1] && rest[i] != order[0];
  }

  lemma {:induction false} DropAgrees(d: Dict, s: Aged)
    requires Agrees(d, s) && d.order != []
    ensures Agrees(Evicted(d), Dropped(s, d.order[0]))
  {
    RestByAge(d.order, s.last, s.now);
    hide ByAge, Distinct;
  }

  lemma {:induction false} ArriveAgrees(d: Dict, s: Aged, key: Key, data: Bytes)
    requires Agrees(d, s) && key !in d.at
    ensures Agrees(Inserted(d, key, data), Arrived(s, key, data))
  {
    StampLast(d.order, key, s.last, s.now);
    hide ByAge, Distinct;
  }

  lemma {:induction false} OverwriteAgrees(d: Dict, s: Aged, key: Key, data: Bytes)
    requires Agrees(d, s) && key in d.at
    ensures Agrees(Inserted(d, key, data), Overwritten(s, key, data))
  {
    Later(d.order, s.last, s.now);
    hide ByAge, Distinct;
  }

  lemma {:induction false} RenewAgrees(d: Dict, s: Aged, key: Key)
    requires Agrees(d, s) && key in d.at
    ensures Agrees(Touched(d, key), Renewed(s, key))
  {
    WithoutByAge(d.order, key, s.last, s.now);
    StampLast(Without(d.order, key), key, s.last, s.now);
    hide ByAge, Distinct, Without;
  }

  lemma {:induction false} WaitAgrees(d: Dict, s: Aged)
    requires Agrees(d, s)
    ensures Agrees(d, Waited(s))
  {
    Later(d.order, s.last, s.now);
    hide ByAge, Distinct;
  }

  lemma {:induction false} SameKeys(d: Dict, s: Aged)
    requires Agrees(d, s)
    ensures ValidDict(d) && d.at == s.at && |s.at| == |d.order|
  {
    OrderSize(d);
  }

  lemma {:induction false} StoreStep(s: Aged, key: Key, data: Bytes, capacity: int, stalest: Key)
    requires key !in s.at
    ensures |s.at| * PAGE_SIZE < capacity ==> AgedStep(s, Store(key, data), capacity, Arrived(s, key, data))
    ensures |s.at| * PAGE_SIZE >= capacity && IsStalest(s, stalest) ==>
      AgedStep(s, Store(key, data), capacity, Arrived(Dropped(s, stalest), key, data))
  {
    hide IsStalest, Arrived, Dropped;
  }

  lemma {:induction false} FilledCases(d: Dict, key: Key, data: Bytes, capacity: int)
    requires ValidDict(d) && key !in d.at && capacity >= 1
    ensures |d.order| * PAGE_SIZE < capacity ==> Filled(d, key, data, capacity) == Inserted(d, key, data)
    ensures |d.order| * PAGE_SIZE >= capacity ==>
      d.order != [] && key !in Evicted(d).at && Filled(d, key, data, capacity) == Inserted(Evicted(d), key, data)
  {
    hide ValidDict, Inserted;
  }

  lemma {:induction false} StoreNew(d: Dict, s: Aged, key: Key, data: Bytes, capacity: int) returns (next: Aged)
    requires ValidDict(d) && Agrees(d, s) && key !in d.at && capacity >= 1
    ensures AgedStep(s, Store(key, data), capacity, next) && Agrees(Filled(d, key, data, capacity), next)
  {
    SameKeys(d, s);
    FilledCases(d, key, data, capacity);
    hide Agrees, IsStalest, Arrived, Dropped, Inserted, Evicted, AgedStep, Filled, ValidDict;
    if |d.order| * PAGE_SIZE < capacity {
      StoreStep(s, key, data, capacity, key);
      ArriveAgrees(d, s, key, data);
      next := Arrived(s, key, data);
    } else {
      var first := d.order[0];
      OldestFirst(d, s);
      StoreStep(s, key, data, capacity, first);
      DropAgrees(d, s);
      ArriveAgrees(Evicted(d), Dropped(s, first), key, data);
      next := Arrived(Dropped(s, first), key, data);
    }
  }

  lemma {:induction false} LookUse(d: Dict, s: Aged, key: Key, capacity: int) returns (next: Aged)
    requires ValidDict(d) && Agrees(d, s) && capacity >= 1
    ensures AgedStep(s, Look(key), capacity, next) && Agrees(Used(d, Look(key), capacity), next)
  {
    SameKeys(d, s);
    hide Agrees, ValidDict, Touched, Renewed, Waited;
    if key in d.at {
      RenewAgrees(d, s, key);
      next := Renewed(s, key);
    } else {
      WaitAgrees(d, s);
      next := Waited(s);
    }
  }

  lemma {:induction false} StoreUse(d: Dict, s: Aged, key: Key, data: Bytes, capacity: int) returns (next: Aged)
    requires ValidDict(d) && Agrees(d, s) && capacity >= 1
    ensures AgedStep(s, Store(key, data), capacity, next) && Agrees(Used(d, Store(key, data), capacity), next)
  {
    SameKeys(d, s);
    hide Agrees, ValidDict, Inserted, Evicted, Overwritten;
    if key in d.at {
      OverwriteAgrees(d, s, key, data);
      next := Overwritten(s, key, data);
    } else {
      next := StoreNew(d, s, key, data, capacity);
    }
  }

  /** One use. */
  lemma {:induction false} UseAgrees(d: Dict, s: Aged, use: Use, capacity: int) returns (next: Aged)
    requires ValidDict(d) && Agrees(d, s) && capacity >= 1
    ensures AgedStep(s, use, capacity, next) && Agrees(Used(d, use, capacity), next)
  {
    hide AgedStep, Agrees, Used, ValidDict;
    match use
    case Look(key) => next := LookUse(d, s, key, capacity);
    case Store(key, data) => next := StoreUse(d, s, key, data, capacity);
  }

  lemma {:induction false} StartAgrees(capacity: int)
    requires capacity >= 1
    ensures Agrees(AfterUses([], capacity), Aged(map[], map[], 0))
  {}

  lemma {:induction false} AfterNext(uses: seq<Use>, n: nat, capacity: int)
    requires n < |uses| && capacity >= 1
    ensures AfterUses(uses[..n + 1], capacity) == Used(AfterUses(uses[..n], capacity), uses[n], capacity)
  {
    hide Used;
    assert uses[..n + 1][..n] == uses[..n];
  }

  /** Over any run of look-ups and stores the cache holds what a cache with time stamps holds, which evicts the page
      used longest ago. */
  lemma {:induction false} EvictsLeastRecent(uses: seq<Use>, capacity: int) returns (ages: seq<Aged>)
    requires capacity >= 1
    ensures |ages| == |uses| + 1 && ages[0] == Aged(map[], map[], 0)
    ensures forall t :: 0 <= t < |uses| ==> AgedStep(ages[t], uses[t], capacity, ages[t + 1])
    ensures forall t :: 0 <= t <= |uses| ==> Agrees(AfterUses(uses[..t], capacity), ages[t])
  {
    hide AgedStep, Agrees, Used, ValidDict, AfterUses;
    ages := [Aged(map[], map[], 0)];
    StartAgrees(capacity);
    assert uses[..0] == [];
    var n := 0;
    while n < |uses|
      invariant n <= |uses| && |ages| == n + 1 && ages[0] == Aged(map[], map[], 0)
      invariant forall t :: 0 <= t < n ==> AgedStep(ages[t], uses[t], capacity, ages[t + 1])
      invariant forall t :: 0 <= t <= n ==> Agrees(AfterUses(uses[..t], capacity), ages[t])
    {
      AfterNext(uses, n, capacity);
      var next := UseAgrees(AfterUses(uses[..n], capacity), ages[n], uses[n], capacity);
      ages := ages + [next];
      n := n + 1;
    }
  }
}
