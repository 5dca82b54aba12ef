/** The visited list: a set of nodes kept as 16-bit stamps, emptied by moving to the next stamp. */
module VisitedLists {
  import opened Collections

  const STAMPS: nat := 65536

  type Stamp = n: int | 0 <= n < STAMPS

  // --- As values ------------------------------------------------------------------------------------------

  datatype List = List(curV: Stamp, mass: seq<Stamp>)

  /** No stamp is ahead of the current one. Memory not yet written has no stamp above 65535, so this holds
      of a new list whatever its memory holds. */
  predicate Behind(l: List) {
    forall i :: 0 <= i < |l.mass| ==> l.mass[i] <= l.curV
  }

  function Visited(l: List): set<nat> {
    set i | 0 <= i < |l.mass| && l.mass[i] == l.curV
  }

  /** `curV++` on 16 bits. */
  function Next(v: Stamp): Stamp {
    (v + 1) % STAMPS
  }

  function Cleared(n: nat): (mass: seq<Stamp>)
    ensures |mass| == n && forall i :: 0 <= i < n ==> mass[i] == 0
  {
    Repeat<Stamp>(0, n)
  }

  function AfterReset(l: List): List {
    if Next(l.curV) == 0 then List(1, Cleared(|l.mass|)) else List(Next(l.curV), l.mass)
  }

  function Marked(l: List, i: nat): List
    requires i < |l.mass|
  {
    List(l.curV, l.mass[i := l.curV])
  }

  /** After a reset nothing is visited, also when the stamp wraps around. */
  lemma {:induction false} ResetEmpties(l: List)
    requires Behind(l)
    ensures Behind(AfterReset(l)) && Visited(AfterReset(l)) == {}
  {
    var r := AfterReset(l);
    forall i | 0 <= i < |r.mass| ensures r.mass[i] < r.curV {}
  }

  lemma {:induction false} MarkAdds(l: List, i: nat)
    requires Behind(l) && i < |l.mass|
    ensures Behind(Marked(l, i)) && Visited(Marked(l, i)) == Visited(l) + {i}
  {}

  // --- Any run of operations ------------------------------------------------------------------------------

  datatype Op = DoReset | DoMark(node: nat)

  predicate InRange(ops: seq<Op>, n: nat) {
    forall k :: 0 <= k < |ops| ==> ops[k].DoMark? ==> ops[k].node < n
  }

  function Run(l: List, ops: seq<Op>): (r: List)
    requires InRange(ops, |l.mass|)
    ensures |r.mass| == |l.mass|
    decreases |ops|
  {
    if ops == [] then l
    else
      var before := Run(l, ops[..|ops| - 1]);
      match ops[|ops| - 1]
      case DoReset => AfterReset(before)
      case DoMark(i) => Marked(before, i)
  }

  /** The same operations on a set. */
  function RunSet(s: set<nat>, ops: seq<Op>): set<nat>
    decreases |ops|
  {
    if ops == [] then s
    else
      match ops[|ops| - 1]
      case DoReset => {}
      case DoMark(i) => RunSet(s, ops[..|ops| - 1]) + {i}
  }

  lemma {:induction false} RunRefines(l: List, ops: seq<Op>)
    requires Behind(l) && InRange(ops, |l.mass|)
    ensures Behind(Run(l, ops)) && Visited(Run(l, ops)) == RunSet(Visited(l), ops)
    decreases |ops|
  {
    if ops == [] {
      return;
    }
    hide Behind, Visited, AfterReset, Marked;
    var before := Run(l, ops[..|ops| - 1]);
    RunRefines(l, ops[..|ops| - 1]);
    match ops[|ops| - 1]
    case DoReset => ResetEmpties(before);
    case DoMark(i) => MarkAdds(before, i);
  }

  /** A new list, whatever its memory holds, is a set through any number of resets, once it was reset. */
  lemma {:induction false} FromFresh(mass: seq<Stamp>, ops: seq<Op>)
    requires InRange(ops, |mass|)
    ensures InRange([DoReset] + ops, |mass|)
    ensures Visited(Run(List(STAMPS - 1, mass), [DoReset] + ops)) == RunSet({}, ops)
  {
    var fresh_ := List(STAMPS - 1, mass);
    var all := [DoReset] + ops;
    assert forall k :: 0 <= k < |all| && all[k].DoMark? ==> all[k] == ops[k - 1];
    RunRefines(fresh_, all);
    StartsEmpty(Visited(fresh_), ops);
  }

  lemma {:induction false} StartsEmpty(s: set<nat>, ops: seq<Op>)
    ensures RunSet(s, [DoReset] + ops) == RunSet({}, ops)
    decreases |ops|
  {
    var all := [DoReset] + ops;
    if ops == [] {
      assert all[..0] == [];
    } else {
      assert all[..|all| - 1] == [DoReset] + ops[..|ops| - 1];
      StartsEmpty(s, ops[..|ops| - 1]);
    }
  }

  lemma {:induction false} ResetNext(l: List, n: nat)
    requires n > 0
    ensures Run(l, Resets(n)) == AfterReset(Run(l, Resets(n - 1)))
  {
    assert Resets(n)[..n - 1] == Resets(n - 1);
  }

  lemma {:induction false} NextStamp(l: List)
    ensures AfterReset(l).curV == if l.curV == STAMPS - 1 then 1 else l.curV + 1
  {}

  /** The stamp after n resets of a new list: memory is cleared once in 65535 resets, and 0 is no stamp. */
  lemma {:induction false} StampAfter(l: List, n: nat)
    requires l.curV == STAMPS - 1 && n >= 1
    ensures Run(l, Resets(n)).curV == (n - 1) % (STAMPS - 1) + 1
    decreases n
  {
    hide Run, AfterReset;
    ResetNext(l, n);
    NextStamp(Run(l, Resets(n - 1)));
    if n == 1 {
      NoResets(l);
    } else {
      StampAfter(l, n - 1);
      CycleNext(n - 2);
    }
  }

  lemma {:induction false} NoResets(l: List)
    ensures Run(l, Resets(0)) == l
  {}

  lemma {:induction false} CycleNext(a: nat)
    ensures (a + 1) % (STAMPS - 1) == if a % (STAMPS - 1) == STAMPS - 2 then 0 else a % (STAMPS - 1) + 1
  {}

  function Resets(n: nat): (ops: seq<Op>)
    ensures |ops| == n && forall k :: 0 <= k < n ==> ops[k] == DoReset
    decreases n
  {
    if n == 0 then [] else Resets(n - 1) + [DoReset]
  }

  // --- The class ------------------------------------------------------------------------------------------

  class VisitedList {
    var curV: Stamp
    const mass: array<Stamp>

    ghost function State(): List
      reads this, mass
    {
      List(curV, mass[..])
    }

    ghost predicate Valid()
      reads this, mass
    {
      Behind(State())
    }

    /** The memory of a new list holds anything. */
    constructor (numElements: nat)
      ensures Valid() && fresh(mass) && mass.Length == numElements && curV == STAMPS - 1
    {
      curV := STAMPS - 1;
      mass := new Stamp[numElements];
    }

    method Reset()
      requires Valid()
      modifies this`curV, mass
      ensures Valid() && State() == AfterReset(old(State())) && Visited(State()) == {}
    {
      ResetEmpties(State());
      curV := Next(curV);
      if curV == 0 {
        Clear();
        curV := Next(curV);
        assert mass[..] == Cleared(mass.Length);
      }
    }

    /** `memset` */
    method Clear()
      modifies mass
      ensures forall i :: 0 <= i < mass.Length ==> mass[i] == 0
    {
      var i := 0;
      while i < mass.Length
        invariant 0 <= i <= mass.Length
        invariant forall j :: 0 <= j < i ==> mass[j] == 0
      {
        mass[i] := 0;
        i := i + 1;
      }
    }

    /** What the search does with the list: test a node and mark it. */
    method Mark(i: nat)
      requires Valid() && i < mass.Length
      modifies mass
      ensures Valid() && Visited(State()) == old(Visited(State())) + {i}
    {
      MarkAdds(State(), i);
      mass[i] := curV;
      assert State() == Marked(old(State()), i);
    }

    method IsVisited(i: nat) returns (r: bool)
      requires i < mass.Length
      ensures r <==> i in Visited(State())
    {
      r := mass[i] == curV;
    }
  }
}
