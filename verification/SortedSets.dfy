/** Sets of numbers: the elements of a list, sizes of subsets, and `sorted`. */
module SortedSets {
  import opened Collections

  function Elements(q: seq<nat>): (s: set<nat>)
    ensures forall x :: x in s <==> x in q
  {
    set x | x in q
  }

  lemma {:induction false} SubsetSize(a: set<nat>, b: set<nat>)
    requires a <= b
    ensures |a| <= |b|
  {
    assert b == a + (b - a);
    assert |b| == |a| + |b - a|;
  }

  predicate IsMin(m: nat, s: set<nat>) {
    m in s && forall x :: x in s ==> m <= x
  }

  lemma {:induction false} MinExists(s: set<nat>)
    requires s != {}
    ensures exists m :: IsMin(m, s)
  {
    var le := (a: nat, b: nat) => a <= b;
    FirstExists(s, le);
    var m :| IsFirst(m, s, le);
    assert IsMin(m, s);
  }

  ghost function Min(s: set<nat>): (m: nat)
    requires s != {}
    ensures IsMin(m, s)
  {
    MinExists(s);
    var m :| IsMin(m, s);
    m
  }

  predicate Rising(q: seq<nat>) {
    forall i, j :: 0 <= i < j < |q| ==> q[i] < q[j]
  }

  lemma {:induction false} FirstRising(s: set<nat>, m: nat, rest: seq<nat>)
    requires IsMin(m, s) && Rising(rest) && (forall x :: x in rest <==> x in s - {m})
    ensures Rising([m] + rest) && forall x :: x in [m] + rest <==> x in s
  {
    forall i | 0 <= i < |rest| ensures m < rest[i] {
      assert rest[i] in rest;
    }
  }

  /** The elements of `s` in increasing order. */
  ghost function Sorted(s: set<nat>): (q: seq<nat>)
    ensures forall x :: x in q <==> x in s
    ensures |q| == |s| && Rising(q)
    decreases |s|
  {
    if s == {} then []
    else
      var m := Min(s);
      var rest := Sorted(s - {m});
      FirstRising(s, m, rest);
      [m] + rest
  }

  lemma {:induction false} RisingTail(a: seq<nat>)
    requires Rising(a) && a != []
    ensures Rising(a[1..]) && forall x :: x in a[1..] <==> x in a && x > a[0]
    ensures forall x :: x in a ==> x >= a[0]
  {
    assert a == [a[0]] + a[1..];
  }

  /** A rising sequence is determined by its elements. */
  lemma {:induction false} RisingUnique(a: seq<nat>, b: seq<nat>)
    requires Rising(a) && Rising(b) && forall x :: x in a <==> x in b
    ensures a == b
    decreases |a|
  {
    hide Rising;
    if a == [] {
      if b != [] {
        FirstIn(b);
      }
    } else {
      FirstIn(a);
      FirstIn(b);
      RisingTail(a);
      RisingTail(b);
      assert a[0] == b[0];
      RisingUnique(a[1..], b[1..]);
      assert a == [a[0]] + a[1..] && b == [b[0]] + b[1..];
    }
  }

  lemma {:induction false} FirstIn(a: seq<nat>)
    requires a != []
    ensures a[0] in a
  {}

  /** The elements sorted so far come before the rest. */
  ghost predicate SortedSoFar(s: set<nat>, q: seq<nat>, rest: set<nat>) {
    && rest <= s && Rising(q) && (forall x :: x in s <==> x in q || x in rest)
    && forall i, y :: 0 <= i < |q| && y in rest ==> q[i] < y
  }

  lemma {:induction false} TakeMin(s: set<nat>, q: seq<nat>, rest: set<nat>, m: nat)
    requires SortedSoFar(s, q, rest) && IsMin(m, rest)
    ensures SortedSoFar(s, q + [m], rest - {m})
  {}

  method Sort(s: set<nat>) returns (q: seq<nat>)
    ensures q == Sorted(s)
  {
    q := [];
    var rest := s;
    while rest != {}
      invariant SortedSoFar(s, q, rest)
      decreases |rest|
    {
      hide SortedSoFar;
      MinExists(rest);
      var m :| m in rest && forall x :: x in rest ==> m <= x;
      TakeMin(s, q, rest, m);
      q := q + [m];
      rest := rest - {m};
    }
    RisingUnique(q, Sorted(s));
  }
}
