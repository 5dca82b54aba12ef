/** `BruteforceSearch`: a table of labelled vectors, removal by swapping with the last slot, and a search
    that keeps the k best in a bounded heap. */
module Bruteforce {
  import opened Ranking
  import opened Vectors

  datatype Slot = Slot(id: nat, vector: Vec)

  /** The buffer, how much of it is used, and where each label is. */
  datatype Table = Table(slots: seq<Slot>, count: nat, dict: map<nat, nat>)

  /** Labels and used slots correspond one to one. */
  ghost predicate ValidTable(t: Table) {
    && t.count <= |t.slots|
    && (forall l :: l in t.dict ==> t.dict[l] < t.count && t.slots[t.dict[l]].id == l)
    && (forall i :: 0 <= i < t.count ==> t.slots[i].id in t.dict && t.dict[t.slots[i].id] == i)
  }

  /** The map the table stands for. */
  ghost function Contents(t: Table): (m: map<nat, Vec>)
    requires ValidTable(t)
    ensures m.Keys == t.dict.Keys
  {
    map l | l in t.dict :: t.slots[t.dict[l]].vector
  }

  // --- Adding ---------------------------------------------------------------------------------------------

  predicate Full(t: Table, id: nat) {
    id !in t.dict && t.count >= |t.slots|
  }

  /** `addPoint`: a known label keeps its slot, a new one takes the next. */
  function Added(t: Table, id: nat, vector: Vec): Table
    requires t.count <= |t.slots| && !Full(t, id) && (id in t.dict ==> t.dict[id] < |t.slots|)
  {
    if id in t.dict then Table(t.slots[t.dict[id] := Slot(id, vector)], t.count, t.dict)
    else Table(t.slots[t.count := Slot(id, vector)], t.count + 1, t.dict[id := t.count])
  }

  lemma {:induction false} AddedContents(t: Table, id: nat, vector: Vec)
    requires ValidTable(t) && !Full(t, id)
    ensures ValidTable(Added(t, id, vector))
    ensures Contents(Added(t, id, vector)) == Contents(t)[id := vector]
  {
    AddedValid(t, id, vector);
    AddedAt(t, id, vector);
    hide ValidTable, Added, Full, Contents;
    assert Contents(Added(t, id, vector)) == Contents(t)[id := vector];
  }

  lemma {:induction false} AddedValid(t: Table, id: nat, vector: Vec)
    requires ValidTable(t) && !Full(t, id)
    ensures ValidTable(Added(t, id, vector))
  {}

  lemma {:induction false} AddedAt(t: Table, id: nat, vector: Vec)
    requires ValidTable(t) && !Full(t, id) && ValidTable(Added(t, id, vector))
    ensures var m, r := Contents(t), Contents(Added(t, id, vector));
      r.Keys == m.Keys + {id} && r[id] == vector && forall l :: l in m && l != id ==> r[l] == m[l]
  {}

  // --- Removing -------------------------------------------------------------------------------------------

  /** `removePoint` as intended: the last slot moves into the gap, unless it is the gap. */
  function Removed(t: Table, id: nat): Table
    requires id in t.dict ==> 1 <= t.count <= |t.slots| && t.dict[id] < |t.slots|
  {
    if id !in t.dict then t
    else
      var gap, last := t.dict[id], t.slots[t.count - 1];
      var rest := t.dict - {id};
      Table(t.slots[gap := last], t.count - 1, if last.id == id then rest else rest[last.id := gap])
  }

  lemma {:induction false} RemovedContents(t: Table, id: nat)
    requires ValidTable(t)
    ensures ValidTable(Removed(t, id))
    ensures Contents(Removed(t, id)) == Contents(t) - {id}
  {
    RemovedValid(t, id);
    RemovedAt(t, id);
    hide ValidTable, Removed, Contents;
    assert Contents(Removed(t, id)) == Contents(t) - {id};
  }

  lemma {:induction false} RemovedIs(t: Table, id: nat)
    requires ValidTable(t) && id in t.dict
    ensures 1 <= t.count <= |t.slots| && t.dict[id] < t.count
    ensures var gap, last, rest := t.dict[id], t.slots[t.count - 1], t.dict - {id};
      Removed(t, id)
        == Table(t.slots[gap := last], t.count - 1, if last.id == id then rest else rest[last.id := gap])
  {}

  lemma {:induction false} RemovedValid(t: Table, id: nat)
    requires ValidTable(t)
    ensures ValidTable(Removed(t, id))
  {}

  lemma {:induction false} RemovedAt(t: Table, id: nat)
    requires ValidTable(t) && ValidTable(Removed(t, id))
    ensures var m, r := Contents(t), Contents(Removed(t, id));
      r.Keys == m.Keys - {id} && forall l :: l in r ==> r[l] == m[l]
  {}

  /** `removePoint` as written: the label of the last slot is stored again even when it is the one removed. */
  function RemovedAsWritten(t: Table, id: nat): Table
    requires id in t.dict ==> 1 <= t.count <= |t.slots| && t.dict[id] < |t.slots|
  {
    if id !in t.dict then t
    else
      var gap, last := t.dict[id], t.slots[t.count - 1];
      Table(t.slots[gap := last], t.count - 1, (t.dict - {id})[last.id := gap])
  }

  predicate InLastSlot(t: Table, id: nat) {
    id in t.dict && t.dict[id] == t.count - 1
  }

  /** As written, removal keeps labels and slots in correspondence, and agrees with the intended removal,
      exactly when the label is unknown or not in the last slot. */
  lemma {:induction false} AsWrittenIff(t: Table, id: nat)
    requires ValidTable(t)
    ensures ValidTable(RemovedAsWritten(t, id)) <==> !InLastSlot(t, id)
    ensures RemovedAsWritten(t, id) == Removed(t, id) <==> !InLastSlot(t, id)
  {
    var r := RemovedAsWritten(t, id);
    if id in t.dict {
      var last := t.slots[t.count - 1].id;
      if t.dict[id] == t.count - 1 {
        assert last == id;
        assert id in r.dict && r.dict[id] == r.count;
        assert id !in Removed(t, id).dict;
      } else {
        assert last != id;
        RemovedContents(t, id);
      }
    }
  }

  /** What goes wrong: in a table of one point, remove it and add its label again; the new point is in no
      used slot. */
  lemma {:induction false} LostPoint(id: nat, old_: Vec, new_: Vec)
    ensures var t := Table([Slot(id, old_)], 1, map[id := 0]);
      ValidTable(t)
      && (var removed := RemovedAsWritten(t, id);
          !Full(removed, id) && removed.dict == map[id := 0] && Added(removed, id, new_).count == 0)
  {
    var t := Table([Slot(id, old_)], 1, map[id := 0]);
    assert (t.dict - {id})[id := 0] == map[id := 0];
  }

  // --- Any run of operations ------------------------------------------------------------------------------

  datatype Op = Add(id: nat, vector: Vec) | Remove(id: nat)

  /** An addition to a full table fails and changes nothing. */
  ghost function Applied(t: Table, op: Op): Table
    requires ValidTable(t)
  {
    match op
    case Add(id, vector) => if Full(t, id) then t else Added(t, id, vector)
    case Remove(id) =>
      if id in t.dict then assert t.slots[t.dict[id]].id == id; Removed(t, id) else t
  }

  function AppliedToMap(m: map<nat, Vec>, op: Op, capacity: nat): map<nat, Vec> {
    match op
    case Add(id, vector) => if id !in m && |m| >= capacity then m else m[id := vector]
    case Remove(id) => m - {id}
  }

  function Labels(slots: seq<Slot>): set<nat>
    decreases |slots|
  {
    if slots == [] then {} else Labels(slots[..|slots| - 1]) + {slots[|slots| - 1].id}
  }

  lemma {:induction false} LabelsSize(slots: seq<Slot>)
    requires DistinctIds(slots)
    ensures |Labels(slots)| == |slots|
    decreases |slots|
  {
    if slots == [] {
    } else {
      var front, last := slots[..|slots| - 1], slots[|slots| - 1];
      LabelsSize(front);
      InLabels(front, last.id);
    }
  }

  lemma {:induction false} InLabels(slots: seq<Slot>, l: nat)
    ensures l in Labels(slots) <==> exists i :: 0 <= i < |slots| && slots[i].id == l
    decreases |slots|
  {
    if slots == [] {
    } else {
      var front, last := slots[..|slots| - 1], slots[|slots| - 1];
      InLabels(front, l);
      if l in Labels(front) {
        var i :| 0 <= i < |front| && front[i].id == l;
        assert slots[i].id == l;
      } else if last.id == l {
        assert slots[|slots| - 1].id == l;
      }
    }
  }

  /** There are as many labels as used slots. */
  lemma {:induction false} CountIsSize(t: Table)
    requires ValidTable(t)
    ensures |Contents(t)| == t.count
  {
    var used := t.slots[..t.count];
    UsedDistinct(t);
    LabelsSize(used);
    UsedLabels(t);
    hide ValidTable, Labels;
    assert |Contents(t)| == |Contents(t).Keys|;
  }

  predicate DistinctIds(slots: seq<Slot>) {
    forall i, j :: 0 <= i < j < |slots| ==> slots[i].id != slots[j].id
  }

  /** Used slots have different labels. */
  lemma {:induction false} UsedDistinct(t: Table)
    requires ValidTable(t)
    ensures DistinctIds(t.slots[..t.count])
  {
    forall i, j | 0 <= i < j < t.count ensures t.slots[i].id != t.slots[j].id {
      assert t.dict[t.slots[i].id] == i && t.dict[t.slots[j].id] == j;
    }
  }

  /** They are the labels of the dictionary. */
  lemma {:induction false} UsedLabels(t: Table)
    requires ValidTable(t)
    ensures Labels(t.slots[..t.count]) == t.dict.Keys
  {
    var used := t.slots[..t.count];
    hide Labels;
    forall l ensures l in Labels(used) <==> l in t.dict {
      InLabels(used, l);
      if l in t.dict {
        assert used[t.dict[l]].id == l;
      }
    }
  }

  lemma {:induction false} AppliedRefines(t: Table, op: Op)
    requires ValidTable(t)
    ensures ValidTable(Applied(t, op)) && |Applied(t, op).slots| == |t.slots|
    ensures Contents(Applied(t, op)) == AppliedToMap(Contents(t), op, |t.slots|)
  {
    CountIsSize(t);
    hide ValidTable;
    match op
    case Add(id, vector) =>
      if !Full(t, id) {
        AddedContents(t, id, vector);
      }
    case Remove(id) =>
      RemovedContents(t, id);
      if id !in t.dict {
        assert Contents(t) - {id} == Contents(t);
      }
  }

  ghost function Run(t: Table, ops: seq<Op>): (r: Table)
    requires ValidTable(t)
    ensures ValidTable(r) && |r.slots| == |t.slots|
    decreases |ops|
  {
    if ops == [] then t
    else
      var before := Run(t, ops[..|ops| - 1]);
      AppliedRefines(before, ops[|ops| - 1]);
      Applied(before, ops[|ops| - 1])
  }

  function RunMap(m: map<nat, Vec>, ops: seq<Op>, capacity: nat): map<nat, Vec>
    decreases |ops|
  {
    if ops == [] then m else AppliedToMap(RunMap(m, ops[..|ops| - 1], capacity), ops[|ops| - 1], capacity)
  }

  /** Under any run of additions and removals the table is the map. */
  lemma {:induction false} RunRefines(t: Table, ops: seq<Op>)
    requires ValidTable(t)
    ensures Contents(Run(t, ops)) == RunMap(Contents(t), ops, |t.slots|)
    decreases |ops|
  {
    if ops == [] {
    } else {
      hide ValidTable, Contents;
      RunRefines(t, ops[..|ops| - 1]);
      AppliedRefines(Run(t, ops[..|ops| - 1]), ops[|ops| - 1]);
    }
  }

  // --- Runs with the removal as written -------------------------------------------------------------------

  ghost function AppliedAsWritten(t: Table, op: Op): Table
    requires ValidTable(t)
  {
    match op
    case Add(_, _) => Applied(t, op)
    case Remove(id) => if id in t.dict then assert t.slots[t.dict[id]].id == id; RemovedAsWritten(t, id) else t
  }

  /** The run with the removal as written: every table on the way is valid. */
  ghost predicate StaysValid(t: Table, ops: seq<Op>)
    requires ValidTable(t)
    decreases |ops|, 0
  {
    ops == [] || (StaysValid(t, ops[..|ops| - 1])
                  && ValidTable(AppliedAsWritten(RunAsWritten(t, ops[..|ops| - 1]), ops[|ops| - 1])))
  }

  ghost function RunAsWritten(t: Table, ops: seq<Op>): (r: Table)
    requires ValidTable(t) && StaysValid(t, ops)
    ensures ValidTable(r)
    decreases |ops|, 1
  {
    if ops == [] then t
    else AppliedAsWritten(RunAsWritten(t, ops[..|ops| - 1]), ops[|ops| - 1])
  }

  /** No removal finds its label in the last slot. */
  ghost predicate NeverLast(t: Table, ops: seq<Op>)
    requires ValidTable(t)
    decreases |ops|
  {
    ops == []
    || (NeverLast(t, ops[..|ops| - 1])
        && (ops[|ops| - 1].Remove? ==> !InLastSlot(Run(t, ops[..|ops| - 1]), ops[|ops| - 1].id)))
  }

  lemma {:induction false} AppliedAsWrittenIff(t: Table, op: Op)
    requires ValidTable(t)
    ensures ValidTable(AppliedAsWritten(t, op)) <==> (op.Remove? ==> !InLastSlot(t, op.id))
    ensures ValidTable(AppliedAsWritten(t, op)) ==> AppliedAsWritten(t, op) == Applied(t, op)
  {
    AppliedRefines(t, op);
    if op.Remove? {
      AsWrittenIff(t, op.id);
    }
    hide Removed, RemovedAsWritten, Added;
  }

  /** A whole run with the removal as written keeps labels and slots in correspondence exactly when no removal
      finds its label in the last slot, and then it is the intended run: the table is the map. */
  lemma {:induction false} RunAsWrittenIff(t: Table, ops: seq<Op>)
    requires ValidTable(t)
    ensures StaysValid(t, ops) <==> NeverLast(t, ops)
    ensures StaysValid(t, ops) ==> RunAsWritten(t, ops) == Run(t, ops)
    ensures StaysValid(t, ops) ==> Contents(RunAsWritten(t, ops)) == RunMap(Contents(t), ops, |t.slots|)
    decreases |ops|
  {
    hide ValidTable, Contents, AppliedAsWritten, Applied, InLastSlot, RunMap;
    RunRefines(t, ops);
    if ops == [] {
    } else {
      var front := ops[..|ops| - 1];
      RunAsWrittenIff(t, front);
      AppliedAsWrittenIff(Run(t, front), ops[|ops| - 1]);
    }
  }

  // --- Searching ------------------------------------------------------------------------------------------

  type Distance = Vec -> real
  type Filter = nat -> bool

  /** The allowed points of a map, ranked by distance and then label. */
  ghost function Candidates(m: map<nat, Vec>, dist: Distance, allowed: Filter): set<Entry> {
    set l | l in m && allowed(l) :: Entry(dist(m[l]), l)
  }

  /** `r` is the k least entries of `all`, or all of them when there are fewer. */
  ghost predicate KBest(r: set<Entry>, all: set<Entry>, k: nat) {
    && r <= all && |r| == (if k < |all| then k else |all|)
    && forall e, f :: e in r && f in all && f !in r ==> Before(e, f)
  }

  /** There is only one such set. */
  lemma {:induction false} KBestUnique(a: set<Entry>, b: set<Entry>, all: set<Entry>, k: nat)
    requires KBest(a, all, k) && KBest(b, all, k)
    ensures a == b
  {
    if a != b {
      if a <= b {
        SubsetEqual(a, b);
      } else if b <= a {
        SubsetEqual(b, a);
      } else {
        var e :| e in a && e !in b;
        var f :| f in b && f !in a;
        assert false;
      }
    }
  }

  lemma {:induction false} SubsetEqual(a: set<Entry>, b: set<Entry>)
    requires a <= b && |a| == |b|
    ensures a == b
  {
    assert b == a + (b - a);
  }

  /** What is pushed and then popped when the heap is over k. */
  ghost function Pushed(r: set<Entry>, e: Entry, k: nat): set<Entry> {
    if |r + {e}| > k then r + {e} - {Greatest(r + {e})} else r + {e}
  }

  lemma {:induction false} PushKeeps(r: set<Entry>, all: set<Entry>, e: Entry, k: nat)
    requires KBest(r, all, k) && e !in all
    ensures KBest(Pushed(r, e, k), all + {e}, k)
  {
    var more := r + {e};
    assert |more| == |r| + 1 && |all + {e}| == |all| + 1;
    if |more| > k {
      var worst := Greatest(more);
      assert |more - {worst}| == k;
      forall g, f | g in more - {worst} && f in all + {e} && f !in more - {worst} ensures Before(g, f) {
        if f != worst && g == e {
          assert Before(e, worst) && worst in r && Before(worst, f);
        }
      }
    } else {
      SubsetEqual(r, all);
    }
  }

  /** An entry farther than the worst of a full heap changes nothing. */
  lemma {:induction false} SkipKeeps(r: set<Entry>, all: set<Entry>, e: Entry, k: nat)
    requires KBest(r, all, k) && e !in all && r != {} && |r| >= k && e.key > Greatest(r).key
    ensures KBest(r, all + {e}, k)
  {
    var worst := Greatest(r);
    assert |all + {e}| == |all| + 1;
    forall g | g in r ensures Before(g, e) {
      assert g == worst || Before(g, worst);
    }
  }

  /** The candidates among these slots. */
  function Seen(slots: seq<Slot>, dist: Distance, allowed: Filter): set<Entry>
    decreases |slots|
  {
    if slots == [] then {}
    else
      var last := slots[|slots| - 1];
      Seen(slots[..|slots| - 1], dist, allowed)
        + if allowed(last.id) then {Entry(dist(last.vector), last.id)} else {}
  }

  lemma {:induction false} InSeen(slots: seq<Slot>, dist: Distance, allowed: Filter, e: Entry)
    ensures e in Seen(slots, dist, allowed)
      <==> exists i :: 0 <= i < |slots| && allowed(slots[i].id) && e == Entry(dist(slots[i].vector), slots[i].id)
    decreases |slots|
  {
    if slots == [] {
    } else {
      InSeen(slots[..|slots| - 1], dist, allowed, e);
      assert forall i :: 0 <= i < |slots| - 1 ==> slots[..|slots| - 1][i] == slots[i];
    }
  }

  /** All used slots together hold the candidates of the map. */
  lemma {:induction false} SeenAll(t: Table, dist: Distance, allowed: Filter)
    requires ValidTable(t)
    ensures Seen(t.slots[..t.count], dist, allowed) == Candidates(Contents(t), dist, allowed)
  {
    var used, m := t.slots[..t.count], Contents(t);
    forall e ensures e in Seen(used, dist, allowed) <==> e in Candidates(m, dist, allowed) {
      InSeen(used, dist, allowed, e);
      if e in Candidates(m, dist, allowed) {
        var i := t.dict[e.id];
        assert used[i] == t.slots[i] && used[i].id == e.id;
      }
    }
  }

  /** A slot not seen yet has a label not seen yet. */
  lemma {:induction false} NotSeen(t: Table, i: nat, dist: Distance, allowed: Filter)
    requires ValidTable(t) && i < t.count
    ensures Entry(dist(t.slots[i].vector), t.slots[i].id) !in Seen(t.slots[..i], dist, allowed)
  {
    InSeen(t.slots[..i], dist, allowed, Entry(dist(t.slots[i].vector), t.slots[i].id));
    forall j | 0 <= j < i ensures t.slots[j].id != t.slots[i].id {
      assert t.dict[t.slots[j].id] == j && t.dict[t.slots[i].id] == i;
    }
  }

  datatype Bound = Unbounded | Bound(dist: real)

  ghost predicate IsBound(b: Bound, r: set<Entry>) {
    b == if r == {} then Unbounded else Bound(Greatest(r).key)
  }

  // --- The class ------------------------------------------------------------------------------------------

  class BruteforceSearch {
    const data: array<Slot>
    var count: nat
    var dict: map<nat, nat>

    ghost function State(): Table
      reads this, data
    {
      Table(data[..], count, dict)
    }

    ghost predicate Valid()
      reads this, data
    {
      ValidTable(State())
    }

    constructor (maxElements: nat)
      ensures Valid() && fresh(data) && data.Length == maxElements && Contents(State()) == map[]
    {
      data := new Slot[maxElements](_ => Slot(0, []));
      count, dict := 0, map[];
    }

    method AddPoint(vector: Vec, id: nat) returns (ok: bool)
      requires Valid()
      modifies this`count, this`dict, data
      ensures Valid() && ok == !old(Full(State(), id))
      ensures State() == old(if Full(State(), id) then State() else Added(State(), id, vector))
      ensures ok ==> Contents(State()) == old(Contents(State()))[id := vector]
    {
      ghost var before := State();
      if !Full(before, id) {
        AddedContents(before, id, vector);
      }
      var idx: nat;
      if id in dict {
        idx := dict[id];
      } else {
        if count >= data.Length {
          return false;
        }
        idx := count;
        dict := dict[id := idx];
        count := count + 1;
      }
      data[idx] := Slot(id, vector);
      assert State() == Added(before, id, vector);
      ok := true;
    }

    /** The intended removal. */
    method RemovePoint(id: nat)
      requires Valid()
      modifies this`count, this`dict, data
      ensures Valid() && State() == old(Removed(State(), id))
      ensures Contents(State()) == old(Contents(State())) - {id}
    {
      ghost var before := State();
      RemovedContents(before, id);
      if id !in dict {
        return;
      }
      RemovedIs(before, id);
      hide ValidTable, Contents, Removed;
      var gap := dict[id];
      var last := data[count - 1];
      var rest := dict - {id};
      dict := if last.id == id then rest else rest[last.id := gap];
      data[gap] := last;
      count := count - 1;
      assert data[..] == before.slots[gap := last];
      assert State() == Removed(before, id);
    }

    /** `searchKnn`: the k least allowed (distance, label) pairs, or all of them when there are fewer. The
        answer is a function of the map, so it does not depend on the order of the slots. */
    method SearchKnn(dist: Distance, k: nat, allowed: Filter) returns (results: set<Entry>)
      requires Valid()
      ensures KBest(results, Candidates(Contents(State()), dist, allowed), k)
    {
      assert count <= data.Length;
      hide ValidTable, KBest, Candidates, Seen;
      results := {};
      var bound := Unbounded;
      var i := 0;
      SeenNone(data[..0], dist, allowed, k);
      while i < count
        invariant i <= count <= data.Length && IsBound(bound, results)
        invariant KBest(results, Seen(data[..i], dist, allowed), k) && |results| <= k
      {
        results, bound := Consider(i, dist, k, allowed, results, bound);
        i := i + 1;
      }
      SeenAll(State(), dist, allowed);
      assert data[..][..i] == data[..i];
    }

    /** One turn of the loop. */
    method Consider(i: nat, dist: Distance, k: nat, allowed: Filter, results: set<Entry>, bound: Bound)
      returns (r: set<Entry>, b: Bound)
      requires Valid() && i < count <= data.Length && IsBound(bound, results)
      requires KBest(results, Seen(data[..i], dist, allowed), k) && |results| <= k
      ensures IsBound(b, r) && |r| <= k
      ensures KBest(r, Seen(data[..i + 1], dist, allowed), k)
    {
      ghost var all := Seen(data[..i], dist, allowed);
      NotSeen(State(), i, dist, allowed);
      assert data[..][..i] == data[..i] && data[..i + 1][..i] == data[..i];
      hide KBest, ValidTable;
      r, b := results, bound;
      var d := dist(data[i].vector);
      if bound == Unbounded || d <= bound.dist || |results| < k {
        var id := data[i].id;
        if allowed(id) {
          PushKeeps(results, all, Entry(d, id), k);
          r := r + {Entry(d, id)};
          if |r| > k {
            var top := PeekGreatest(r);
            r := r - {top};
          }
          if r != {} {
            var top := PeekGreatest(r);
            b := Bound(top.key);
          }
        }
      } else if allowed(data[i].id) {
        SkipKeeps(results, all, Entry(d, data[i].id), k);
      }
    }
  }

  lemma {:induction false} SeenNone(slots: seq<Slot>, dist: Distance, allowed: Filter, k: nat)
    requires slots == []
    ensures KBest({}, Seen(slots, dist, allowed), k)
  {}

  /** Two tables that stand for the same map give the same answer. */
  lemma {:induction false} SameAnswer(a: Table, b: Table, dist: Distance, k: nat, allowed: Filter, ra: set<Entry>,
                                      rb: set<Entry>)
    requires ValidTable(a) && ValidTable(b) && Contents(a) == Contents(b)
    requires KBest(ra, Candidates(Contents(a), dist, allowed), k)
      && KBest(rb, Candidates(Contents(b), dist, allowed), k)
    ensures ra == rb
  {
    hide KBest, Candidates, ValidTable;
    KBestUnique(ra, rb, Candidates(Contents(a), dist, allowed), k);
  }
}
