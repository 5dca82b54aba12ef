/** The shared pool of visited lists: the class, and its users as a state machine in which the reset
    of a list runs outside the lock, one memory write at a time. */
module VisitedPool {
  import opened VisitedLists

  // --- The class ------------------------------------------------------------------------------------------

  class VisitedListPool {
    var pool: seq<VisitedList>
    const numElements: nat

    /** The pooled lists share no memory. */
    ghost predicate Valid()
      reads this, pool, set i | 0 <= i < |pool| :: pool[i].mass
    {
      && (forall i :: 0 <= i < |pool| ==> IsList(pool[i]))
      && (forall i, j :: 0 <= i < j < |pool| ==> Apart(pool[i], pool[j]))
    }

    ghost predicate IsList(vl: VisitedList)
      reads vl, vl.mass
    {
      vl.Valid() && vl.mass.Length == numElements
    }

    ghost predicate Apart(a: VisitedList, b: VisitedList) {
      a != b && a.mass != b.mass
    }

    ghost predicate Outside(vl: VisitedList)
      reads this
    {
      forall i :: 0 <= i < |pool| ==> Apart(vl, pool[i])
    }

    constructor (initMaxPools: nat, numElements: nat)
      ensures Valid() && |pool| == initMaxPools && this.numElements == numElements
      ensures forall i :: 0 <= i < |pool| ==> fresh(pool[i]) && fresh(pool[i].mass)
    {
      this.numElements := numElements;
      pool := [];
      new;
      var i := 0;
      while i < initMaxPools
        invariant i <= initMaxPools && |pool| == i && Valid()
        invariant forall j :: 0 <= j < i ==> fresh(pool[j]) && fresh(pool[j].mass)
      {
        var vl := new VisitedList(this.numElements);
        assert Outside(vl);
        Push(vl);
        i := i + 1;
      }
    }

    method Push(vl: VisitedList)
      requires Valid() && IsList(vl) && Outside(vl)
      modifies this
      ensures Valid() && pool == [vl] + old(pool)
    {
      hide Apart;
      pool := [vl] + pool;
    }

    /** `getFreeVisitedList`: the list handed out is empty and no longer in the pool. */
    method Get() returns (vl: VisitedList)
      requires Valid()
      modifies this, if pool == [] then {} else {pool[0], pool[0].mass}
      ensures Valid() && IsList(vl) && Outside(vl) && Visited(vl.State()) == {}
      ensures old(pool) != [] ==> vl == old(pool)[0] && pool == old(pool)[1..]
      ensures old(pool) == [] ==> fresh(vl) && fresh(vl.mass) && pool == []
    {
      if |pool| > 0 {
        vl := pool[0];
        pool := pool[1..];
        assert forall i :: 0 <= i < |pool| ==> pool[i] == old(pool)[i + 1];
      } else {
        vl := new VisitedList(numElements);
      }
      vl.Reset();
    }

    /** `releaseVisitedList` */
    method Release(vl: VisitedList)
      requires Valid() && IsList(vl) && Outside(vl)
      modifies this
      ensures Valid() && pool == [vl] + old(pool)
    {
      Push(vl);
    }
  }

  // --- Users at work at the same time -------------------------------------------------------------------

  /** Where a user is: outside, holding a list it has not reset yet, clearing its memory, or searching with
      it. `marked` is what the user itself marked since it got the list. */
  datatype User = Idle
                | Popped(list: nat)
                | Clearing(list: nat, done: nat)
                | Holding(list: nat, marked: set<nat>)

  datatype Pool = Pool(pool: seq<nat>, lists: map<nat, List>, users: map<nat, User>)

  /** One atomic step. Taking and releasing are locked; the reset is not. */
  datatype Step = Take(user: nat)
                | TakeNew(user: nat, id: nat, memory: seq<Stamp>)
                | Bump(user: nat)
                | ClearOne(user: nat)
                | FinishClear(user: nat)
                | MarkNode(user: nat, node: nat)
                | Release(user: nat)

  function SetList(s: Pool, u: nat, user: User, id: nat, l: List): Pool {
    Pool(s.pool, s.lists[id := l], s.users[u := user])
  }

  ghost predicate Enabled(s: Pool, step: Step, n: nat) {
    && step.user in s.users
    && var user := s.users[step.user];
      match step
      case Take(_) => user.Idle? && s.pool != []
      case TakeNew(_, id, memory) => user.Idle? && s.pool == [] && id !in s.lists && |memory| == n
      case Bump(_) => user.Popped? && user.list in s.lists
      case ClearOne(_) => user.Clearing? && user.done < n && user.list in s.lists && |s.lists[user.list].mass| == n
      case FinishClear(_) => user.Clearing? && user.done == n && user.list in s.lists
      case MarkNode(_, node) => user.Holding? && node < n && user.list in s.lists && |s.lists[user.list].mass| == n
      case Release(_) => user.Holding?
  }

  function Stepped(s: Pool, step: Step, n: nat): Pool
    requires Enabled(s, step, n)
  {
    var u, user := step.user, s.users[step.user];
    match step
    case Take(_) => Pool(s.pool[1..], s.lists, s.users[u := Popped(s.pool[0])])
    case TakeNew(_, id, memory) => SetList(s, u, Popped(id), id, List(STAMPS - 1, memory))
    case Bump(_) =>
      var l := s.lists[user.list];
      SetList(s, u, if Next(l.curV) == 0 then Clearing(user.list, 0) else Holding(user.list, {}), user.list,
              List(Next(l.curV), l.mass))
    case ClearOne(_) =>
      var l := s.lists[user.list];
      SetList(s, u, Clearing(user.list, user.done + 1), user.list, List(l.curV, l.mass[user.done := 0]))
    case FinishClear(_) =>
      var l := s.lists[user.list];
      SetList(s, u, Holding(user.list, {}), user.list, List(Next(l.curV), l.mass))
    case MarkNode(_, node) =>
      SetList(s, u, Holding(user.list, user.marked + {node}), user.list, Marked(s.lists[user.list], node))
    case Release(_) => Pool([user.list] + s.pool, s.lists, s.users[u := Idle])
  }

  // --- What every step keeps ----------------------------------------------------------------------------

  predicate Owns(user: User, id: nat) {
    !user.Idle? && user.list == id
  }

  predicate Ready(l: List, n: nat) {
    |l.mass| == n && Behind(l)
  }

  /** What the owner may rely on. */
  predicate Good(user: User, l: List, n: nat) {
    match user
    case Idle => true
    case Popped(_) => Ready(l, n)
    case Clearing(_, done) => |l.mass| == n && l.curV == 0 && done <= n && forall i :: 0 <= i < done ==> l.mass[i] == 0
    case Holding(_, marked) => Ready(l, n) && Visited(l) == marked
  }

  ghost predicate PoolOk(s: Pool, n: nat) {
    && (forall i, j :: 0 <= i < j < |s.pool| ==> s.pool[i] != s.pool[j])
    && (forall id :: id in s.pool ==> id in s.lists && Ready(s.lists[id], n))
  }

  ghost predicate UsersOk(s: Pool, n: nat) {
    forall u, id :: u in s.users && Owns(s.users[u], id) ==>
      id !in s.pool && id in s.lists && Good(s.users[u], s.lists[id], n)
  }

  /** No list is held by two users. */
  ghost predicate Exclusive(s: Pool) {
    forall u, v, id :: u in s.users && v in s.users && Owns(s.users[u], id) && Owns(s.users[v], id) ==> u == v
  }

  ghost predicate Inv(s: Pool, n: nat) {
    PoolOk(s, n) && UsersOk(s, n) && Exclusive(s)
  }

  /** A step of a user on its own list. */
  lemma {:induction false} OwnStep(s: Pool, n: nat, u: nat, user: User, id: nat, l: List)
    requires Inv(s, n) && u in s.users && Owns(s.users[u], id)
    requires Owns(user, id) && Good(user, l, n)
    ensures Inv(SetList(s, u, user, id, l), n)
  {
    hide Good, Ready;
    var t := SetList(s, u, user, id, l);
    forall v, k | v in t.users && Owns(t.users[v], k)
      ensures k !in t.pool && k in t.lists && Good(t.users[v], t.lists[k], n)
    {
      if v != u {
        assert Owns(s.users[v], k);
      }
    }
  }

  lemma {:induction false} TakeStep(s: Pool, n: nat, u: nat)
    requires Inv(s, n) && Enabled(s, Take(u), n)
    ensures Inv(Stepped(s, Take(u), n), n)
  {
    hide Ready, Behind, Visited;
    var t, id := Stepped(s, Take(u), n), s.pool[0];
    assert forall i :: 0 <= i < |t.pool| ==> t.pool[i] == s.pool[i + 1];
    assert id in s.pool && id !in t.pool;
    assert forall k :: k in t.pool ==> k in s.pool;
    forall v, k | v in t.users && Owns(t.users[v], k)
      ensures k !in t.pool && k in t.lists && Good(t.users[v], t.lists[k], n)
    {
      if v != u {
        assert Owns(s.users[v], k);
      }
    }
  }

  lemma {:induction false} TakeNewStep(s: Pool, n: nat, u: nat, id: nat, memory: seq<Stamp>)
    requires Inv(s, n) && Enabled(s, TakeNew(u, id, memory), n)
    ensures Inv(Stepped(s, TakeNew(u, id, memory), n), n)
  {
    var t := Stepped(s, TakeNew(u, id, memory), n);
    assert Ready(List(STAMPS - 1, memory), n);
    hide Ready, Behind, Visited;
    forall v, k | v in t.users && Owns(t.users[v], k)
      ensures k !in t.pool && k in t.lists && Good(t.users[v], t.lists[k], n)
    {
      if v != u {
        assert Owns(s.users[v], k);
      }
    }
  }

  lemma {:induction false} ReleasePool(s: Pool, n: nat, id: nat, users: map<nat, User>)
    requires PoolOk(s, n) && id !in s.pool && id in s.lists && Ready(s.lists[id], n)
    ensures PoolOk(Pool([id] + s.pool, s.lists, users), n)
    ensures forall k :: k in [id] + s.pool <==> k == id || k in s.pool
  {
    hide Ready;
  }

  lemma {:induction false} ReleaseStep(s: Pool, n: nat, u: nat)
    requires Inv(s, n) && Enabled(s, Release(u), n)
    ensures Inv(Stepped(s, Release(u), n), n)
  {
    var t, id := Stepped(s, Release(u), n), s.users[u].list;
    assert Owns(s.users[u], id) && Good(s.users[u], s.lists[id], n);
    assert Ready(s.lists[id], n);
    ReleasePool(s, n, id, t.users);
    hide Ready, Good, PoolOk;
    forall v, k | v in t.users && Owns(t.users[v], k)
      ensures k !in t.pool && k in t.lists && Good(t.users[v], t.lists[k], n)
    {
      assert v != u && Owns(s.users[v], k);
    }
  }

  lemma {:induction false} StepKeeps(s: Pool, step: Step, n: nat)
    requires Inv(s, n) && Enabled(s, step, n)
    ensures Inv(Stepped(s, step, n), n)
  {
    var u := step.user;
    var user, t := s.users[u], Stepped(s, step, n);
    match step
    case Take(_) =>
      assert step == Take(u);
      TakeStep(s, n, u);
    case TakeNew(_, id, memory) =>
      assert step == TakeNew(u, id, memory);
      TakeNewStep(s, n, u, id, memory);
    case Release(_) =>
      assert step == Release(u);
      ReleaseStep(s, n, u);
    case Bump(_) =>
      assert Owns(user, user.list);
      BumpGood(s.lists[user.list], user.list, n);
      OwnStep(s, n, u, t.users[u], user.list, t.lists[user.list]);
      assert t == SetList(s, u, t.users[u], user.list, t.lists[user.list]);
    case ClearOne(_) =>
      assert Owns(user, user.list);
      OwnStep(s, n, u, t.users[u], user.list, t.lists[user.list]);
      assert t == SetList(s, u, t.users[u], user.list, t.lists[user.list]);
    case FinishClear(_) =>
      assert Owns(user, user.list);
      OwnStep(s, n, u, t.users[u], user.list, t.lists[user.list]);
      assert t == SetList(s, u, t.users[u], user.list, t.lists[user.list]);
    case MarkNode(_, node) =>
      assert Owns(user, user.list);
      MarkAdds(s.lists[user.list], node);
      OwnStep(s, n, u, t.users[u], user.list, t.lists[user.list]);
      assert t == SetList(s, u, t.users[u], user.list, t.lists[user.list]);
  }

  lemma {:induction false} BumpGood(l: List, id: nat, n: nat)
    requires Ready(l, n)
    ensures Good(if Next(l.curV) == 0 then Clearing(id, 0) else Holding(id, {}), List(Next(l.curV), l.mass), n)
  {
    if Next(l.curV) != 0 {
      ResetEmpties(l);
    }
  }

  // --- All runs -------------------------------------------------------------------------------------------

  /** A new pool: its lists hold arbitrary memory, and nobody is using it. */
  ghost predicate Initial(s: Pool, n: nat) {
    && PoolOk(s, n) && (forall id :: id in s.pool ==> s.lists[id].curV == STAMPS - 1)
    && forall u :: u in s.users ==> s.users[u].Idle?
  }

  function RunPool(s: Pool, steps: seq<Step>, n: nat): Pool
    requires CanRun(s, steps, n)
    decreases |steps|, 1
  {
    if steps == [] then s
    else Stepped(RunPool(s, steps[..|steps| - 1], n), steps[|steps| - 1], n)
  }

  /** Every step is enabled when its turn comes. */
  ghost predicate CanRun(s: Pool, steps: seq<Step>, n: nat)
    decreases |steps|, 0
  {
    steps == [] || (CanRun(s, steps[..|steps| - 1], n)
                    && Enabled(RunPool(s, steps[..|steps| - 1], n), steps[|steps| - 1], n))
  }

  /** In any interleaving, no list is held by two users or held and pooled at once, and every user that
      searches sees in its list exactly what it marked itself. */
  lemma {:induction false} RunKeeps(s: Pool, steps: seq<Step>, n: nat)
    requires Initial(s, n) && CanRun(s, steps, n)
    ensures Inv(RunPool(s, steps, n), n)
    decreases |steps|
  {
    if steps == [] {
      return;
    }
    hide Inv, Enabled, Stepped, Initial;
    RunKeeps(s, steps[..|steps| - 1], n);
    StepKeeps(RunPool(s, steps[..|steps| - 1], n), steps[|steps| - 1], n);
  }

  /** The moment a user starts searching its list is empty, whoever used it before. */
  lemma {:induction false} HandedOutEmpty(s: Pool, steps: seq<Step>, step: Step, n: nat)
    requires Initial(s, n) && CanRun(s, steps, n) && Enabled(RunPool(s, steps, n), step, n)
    requires !RunPool(s, steps, n).users[step.user].Holding?
    requires Stepped(RunPool(s, steps, n), step, n).users[step.user].Holding?
    ensures var t := Stepped(RunPool(s, steps, n), step, n);
      var id := t.users[step.user].list;
      id in t.lists && Visited(t.lists[id]) == {}
      && id !in t.pool && forall v :: v in t.users && v != step.user ==> !Owns(t.users[v], id)
  {
    RunKeeps(s, steps, n);
    var before := RunPool(s, steps, n);
    StepKeeps(before, step, n);
    var t := Stepped(before, step, n);
    assert Owns(t.users[step.user], t.users[step.user].list);
    assert step.Bump? || step.FinishClear?;
  }

  // --- The steps of a reset are a reset -------------------------------------------------------------------

  /** The first k nodes cleared. */
  function Zeroed(mass: seq<Stamp>, k: nat): (r: seq<Stamp>)
    requires k <= |mass|
    ensures |r| == |mass|
  {
    Cleared(k) + mass[k..]
  }

  function ClearSteps(u: nat, k: nat): (steps: seq<Step>)
    ensures |steps| == k
    decreases k
  {
    if k == 0 then [] else ClearSteps(u, k - 1) + [ClearOne(u)]
  }

  /** The steps `reset` takes on a list: move to the next stamp, and on a wrap clear the memory and move again. */
  function ResetSteps(u: nat, l: List): seq<Step> {
    if Next(l.curV) == 0 then ([Bump(u)] + ClearSteps(u, |l.mass|)) + [FinishClear(u)] else [Bump(u)]
  }

  lemma {:induction false} RunSnoc(s: Pool, steps: seq<Step>, step: Step, n: nat)
    requires CanRun(s, steps, n) && Enabled(RunPool(s, steps, n), step, n)
    ensures CanRun(s, steps + [step], n)
    ensures RunPool(s, steps + [step], n) == Stepped(RunPool(s, steps, n), step, n)
  {
    hide Enabled, Stepped;
    assert (steps + [step])[..|steps|] == steps;
  }

  lemma {:induction false} ZeroedNext(mass: seq<Stamp>, k: nat)
    requires k < |mass|
    ensures Zeroed(mass, k)[k := 0] == Zeroed(mass, k + 1)
  {}

  lemma {:induction false} ZeroedEnds(mass: seq<Stamp>)
    ensures Zeroed(mass, 0) == mass && Zeroed(mass, |mass|) == Cleared(|mass|)
  {}

  /** Clearing node by node, after the stamp wrapped. */
  lemma {:induction false} ClearRun(s: Pool, u: nat, id: nat, k: nat, n: nat)
    requires u in s.users && s.users[u] == Popped(id) && id in s.lists && |s.lists[id].mass| == n && k <= n
    requires Next(s.lists[id].curV) == 0
    ensures var steps := [Bump(u)] + ClearSteps(u, k);
      CanRun(s, steps, n)
      && RunPool(s, steps, n) == SetList(s, u, Clearing(id, k), id, List(0, Zeroed(s.lists[id].mass, k)))
    decreases k
  {
    var mass := s.lists[id].mass;
    ClearStart(s, u, id, n);
    hide Zeroed, CanRun, RunPool, Enabled, Stepped, SetList;
    if k == 0 {
      ZeroedEnds(mass);
      NoSteps(s, n);
      RunSnoc(s, [], Bump(u), n);
      assert [Bump(u)] + ClearSteps(u, 0) == [] + [Bump(u)];
    } else {
      ClearRun(s, u, id, k - 1, n);
      ZeroedNext(mass, k - 1);
      var before := [Bump(u)] + ClearSteps(u, k - 1);
      assert [Bump(u)] + ClearSteps(u, k) == before + [ClearOne(u)];
      ClearNext(s, u, id, k - 1, n, Zeroed(mass, k - 1));
      RunSnoc(s, before, ClearOne(u), n);
    }
  }

  lemma {:induction false} ClearStart(s: Pool, u: nat, id: nat, n: nat)
    requires u in s.users && s.users[u] == Popped(id) && id in s.lists && Next(s.lists[id].curV) == 0
    ensures Enabled(s, Bump(u), n)
    ensures Stepped(s, Bump(u), n) == SetList(s, u, Clearing(id, 0), id, List(0, s.lists[id].mass))
  {}

  lemma {:induction false} ClearNext(s: Pool, u: nat, id: nat, k: nat, n: nat, mass: seq<Stamp>)
    requires u in s.users && |mass| == n && k < n
    ensures var t := SetList(s, u, Clearing(id, k), id, List(0, mass));
      Enabled(t, ClearOne(u), n)
      && Stepped(t, ClearOne(u), n) == SetList(s, u, Clearing(id, k + 1), id, List(0, mass[k := 0]))
  {}

  lemma {:induction false} NoSteps(s: Pool, n: nat)
    ensures CanRun(s, [], n) && RunPool(s, [], n) == s
  {}

  /** A user that took a list and made the steps of `reset` holds the list that the method `Reset` leaves. */
  lemma {:induction false} ResetRun(s: Pool, u: nat, id: nat, n: nat)
    requires u in s.users && s.users[u] == Popped(id) && id in s.lists && |s.lists[id].mass| == n
    ensures var steps := ResetSteps(u, s.lists[id]);
      CanRun(s, steps, n) && RunPool(s, steps, n) == SetList(s, u, Holding(id, {}), id, AfterReset(s.lists[id]))
  {
    var l := s.lists[id];
    hide CanRun, RunPool;
    if Next(l.curV) == 0 {
      ClearRun(s, u, id, n, n);
      ZeroedEnds(l.mass);
      RunSnoc(s, [Bump(u)] + ClearSteps(u, n), FinishClear(u), n);
    } else {
      NoSteps(s, n);
      RunSnoc(s, [], Bump(u), n);
      assert [] + [Bump(u)] == [Bump(u)];
    }
  }

  /** No step of another user touches the list a user owns, so a reset does the same in any interleaving. */
  lemma {:induction false} OthersKeep(s: Pool, step: Step, u: nat, id: nat, n: nat)
    requires Inv(s, n) && Enabled(s, step, n) && step.user != u && u in s.users && Owns(s.users[u], id)
    ensures var t := Stepped(s, step, n);
      u in t.users && t.users[u] == s.users[u] && id in t.lists && t.lists[id] == s.lists[id]
  {
    hide Good, Ready;
    var other := s.users[step.user];
    if !other.Idle? {
      assert Owns(other, other.list);
    }
  }
}
