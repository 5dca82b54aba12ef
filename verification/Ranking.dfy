/** Priority queues of (key, id) pairs, ordered as tuples are: by key, then by id. A queue is the
    set of its entries, and the root of a min-heap is its least entry. */
module Ranking {
  import opened Collections

  datatype Entry = Entry(key: real, id: nat)

  predicate Before(a: Entry, b: Entry) {
    a.key < b.key || (a.key == b.key && a.id < b.id)
  }

  predicate IsLeast(e: Entry, s: set<Entry>) {
    e in s && forall f :: f in s && f != e ==> Before(e, f)
  }

  predicate IsGreatest(e: Entry, s: set<Entry>) {
    e in s && forall f :: f in s && f != e ==> Before(f, e)
  }

  lemma {:induction false} LeastExists(s: set<Entry>)
    requires s != {}
    ensures exists e :: IsLeast(e, s)
  {
    var le := (a: Entry, b: Entry) => !Before(b, a);
    FirstExists(s, le);
    var e :| IsFirst(e, s, le);
    assert IsLeast(e, s);
  }

  lemma {:induction false} GreatestExists(s: set<Entry>)
    requires s != {}
    ensures exists e :: IsGreatest(e, s)
  {
    var ge := (a: Entry, b: Entry) => !Before(a, b);
    FirstExists(s, ge);
    var e :| IsFirst(e, s, ge);
    assert IsGreatest(e, s);
  }

  /** The root of a min-heap. */
  ghost function Least(s: set<Entry>): (e: Entry)
    requires s != {}
    ensures IsLeast(e, s)
  {
    LeastExists(s);
    var e :| IsLeast(e, s);
    e
  }

  /** The root of a max-heap. */
  ghost function Greatest(s: set<Entry>): (e: Entry)
    requires s != {}
    ensures IsGreatest(e, s)
  {
    GreatestExists(s);
    var e :| IsGreatest(e, s);
    e
  }

  lemma {:induction false} RootUnique(e: Entry, s: set<Entry>)
    requires s != {}
    ensures IsLeast(e, s) ==> e == Least(s)
    ensures IsGreatest(e, s) ==> e == Greatest(s)
  {}

  /** Read the root of a min-heap. */
  method PeekLeast(s: set<Entry>) returns (e: Entry)
    requires s != {}
    ensures e == Least(s)
  {
    LeastExists(s);
    e :| e in s && forall f :: f in s && f != e ==> Before(e, f);
    RootUnique(e, s);
  }

  /** Read the root of a max-heap. */
  method PeekGreatest(s: set<Entry>) returns (e: Entry)
    requires s != {}
    ensures e == Greatest(s)
  {
    GreatestExists(s);
    e :| e in s && forall f :: f in s && f != e ==> Before(f, e);
    RootUnique(e, s);
  }
}
