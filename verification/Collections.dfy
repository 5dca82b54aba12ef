/** What several modules need of sets and sequences. */
module Collections {

  /** n times x. */
  function Repeat<T>(x: T, n: nat): (r: seq<T>)
    ensures |r| == n && forall i :: 0 <= i < n ==> r[i] == x
    decreases n
  {
    if n == 0 then [] else Repeat(x, n - 1) + [x]
  }

  ghost predicate IsTotal<T(!new)>(le: (T, T) -> bool) {
    (forall a, b :: le(a, b) || le(b, a)) && forall a, b, c :: le(a, b) && le(b, c) ==> le(a, c)
  }

  ghost predicate IsFirst<T(!new)>(m: T, s: set<T>, le: (T, T) -> bool) {
    m in s && forall x :: x in s ==> le(m, x)
  }

  /** A set that is not empty has a first element, in any total order. */
  lemma {:induction false} FirstExists<T(!new)>(s: set<T>, le: (T, T) -> bool)
    requires s != {} && IsTotal(le)
    ensures exists m :: IsFirst(m, s, le)
    decreases |s|
  {
    var x :| x in s;
    var rest := s - {x};
    assert s == rest + {x};
    if rest == {} {
      assert IsFirst(x, s, le);
    } else {
      FirstExists(rest, le);
      var y :| IsFirst(y, rest, le);
      assert IsFirst(if le(x, y) then x else y, s, le);
    }
  }
}
