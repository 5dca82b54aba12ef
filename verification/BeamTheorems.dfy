/** What the beam search guarantees over whole runs. */
module BeamTheorems {
  import opened Ranking
  import opened SortedSets
  import opened BeamSearch

  // --- One push -------------------------------------------------------------------------------

  /** Every result is at most as far as the worst one. */
  lemma {:induction false} WorstBounds(results: set<Entry>, e: Entry)
    requires e in results
    ensures -e.key <= Worst(results)
  {}

  /** A full heap stays full and its worst distance never grows. */
  lemma {:induction false} PushOneFull(p: Problem, heaps: (set<Entry>, set<Entry>), v: nat, seen: set<nat>)
    requires ResultsOver(p, heaps.0, seen) && v !in seen && v < p.count && |heaps.0| >= p.L
    ensures |PushOne(p, heaps, v).0| >= p.L
    ensures Worst(PushOne(p, heaps, v).0) <= Worst(heaps.0)
  {
    var r := heaps.0;
    assert ResultOf(p, v) !in r;
  }

  /** Node v is out of a full result heap because it is no nearer than the worst one kept. */
  ghost predicate Rejected(p: Problem, results: set<Entry>, v: nat)
    requires WellFormed(p) && v < p.count && results != {}
  {
    |results| >= p.L && p.dist[v] >= Worst(results)
  }

  /** Every node of `seen` is kept or rejected. */
  ghost predicate Covered(p: Problem, results: set<Entry>, seen: set<nat>) {
    && ResultsOver(p, results, seen)
    && forall v :: v in seen ==> v < p.count && (ResultOf(p, v) in results || Rejected(p, results, v))
  }

  /** Every kept node has been expanded or waits in the frontier. */
  ghost predicate Queued(p: Problem, results: set<Entry>, frontier: set<Entry>, expanded: set<nat>)
    requires WellFormed(p)
  {
    forall e :: e in results ==> e.id in expanded || Entry(-e.key, e.id) in frontier
  }

  lemma {:induction false} PushOneOver(p: Problem, heaps: (set<Entry>, set<Entry>), v: nat, seen: set<nat>)
    requires ResultsOver(p, heaps.0, seen) && v < p.count
    ensures ResultsOver(p, PushOne(p, heaps, v).0, seen + {v})
  {}

  /** A node kept or rejected before a push is so after it; only the farthest one can be evicted. */
  lemma {:induction false} PushOneKeeps(p: Problem, heaps: (set<Entry>, set<Entry>), v: nat, seen: set<nat>, u: nat)
    requires ResultsOver(p, heaps.0, seen) && v !in seen && v < p.count && u < p.count
    requires ResultOf(p, u) in heaps.0 || Rejected(p, heaps.0, u)
    ensures ResultOf(p, u) in PushOne(p, heaps, v).0 || Rejected(p, PushOne(p, heaps, v).0, u)
  {
    var r := heaps.0;
    if |r| >= p.L {
      PushOneFull(p, heaps, v, seen);
      if ResultOf(p, u) in r {
        WorstBounds(r, ResultOf(p, u));
      }
    }
  }

  lemma {:induction false} PushOneSettles(p: Problem, heaps: (set<Entry>, set<Entry>), v: nat)
    requires WellFormed(p) && v < p.count && heaps.0 != {}
    ensures ResultOf(p, v) in PushOne(p, heaps, v).0 || Rejected(p, PushOne(p, heaps, v).0, v)
  {}

  lemma {:induction false} PushOneCovers(p: Problem, heaps: (set<Entry>, set<Entry>), v: nat, seen: set<nat>)
    requires Covered(p, heaps.0, seen) && v !in seen && v < p.count
    ensures Covered(p, PushOne(p, heaps, v).0, seen + {v})
  {
    var r' := PushOne(p, heaps, v).0;
    PushOneOver(p, heaps, v, seen);
    hide PushOne, ResultsOver, Rejected;
    forall u | u in seen + {v} ensures u < p.count && (ResultOf(p, u) in r' || Rejected(p, r', u)) {
      if u == v {
        PushOneSettles(p, heaps, v);
      } else {
        PushOneKeeps(p, heaps, v, seen, u);
      }
    }
  }

  lemma {:induction false} PushOneQueues(p: Problem, heaps: (set<Entry>, set<Entry>), v: nat, expanded: set<nat>)
    requires WellFormed(p) && v < p.count && heaps.0 != {}
    requires Queued(p, heaps.0, heaps.1, expanded)
    ensures Queued(p, PushOne(p, heaps, v).0, PushOne(p, heaps, v).1, expanded)
  {
    var (r', f') := PushOne(p, heaps, v);
    forall e | e in r' ensures e.id in expanded || Entry(-e.key, e.id) in f' {
      if e in heaps.0 {
        assert e.id in expanded || Entry(-e.key, e.id) in heaps.1;
      } else {
        assert Entry(-e.key, e.id) == FrontOf(p, v);
      }
    }
  }

  // --- A batch of pushes ------------------------------------------------------------------------

  /** The scored nodes: rising, in range, and not seen before. */
  predicate NewIds(p: Problem, q: seq<nat>, seen: set<nat>) {
    && Rising(q) && Within(q, Nodes(p.count))
    && forall i :: 0 <= i < |q| ==> q[i] !in seen
  }

  lemma {:induction false} NewIdsLast(p: Problem, q: seq<nat>, seen: set<nat>)
    requires NewIds(p, q, seen) && q != []
    ensures var front, last := q[..|q| - 1], q[|q| - 1];
            && NewIds(p, front, seen) && last < p.count
            && last !in seen + Elements(front) && Elements(q) == Elements(front) + {last}
  {
    var front := q[..|q| - 1];
    assert forall x :: x in front ==> exists i :: 0 <= i < |front| && front[i] == x;
  }

  lemma {:induction false} PushAllCovers(p: Problem, heaps: (set<Entry>, set<Entry>), q: seq<nat>, seen: set<nat>,
                                         expanded: set<nat>)
    requires Covered(p, heaps.0, seen) && Queued(p, heaps.0, heaps.1, expanded) && NewIds(p, q, seen)
    ensures var r := PushAll(p, heaps, q);
            Covered(p, r.0, seen + Elements(q)) && Queued(p, r.0, r.1, expanded)
    decreases |q|
  {
    if q == [] {
      assert seen + Elements(q) == seen;
      return;
    }
    hide Queued, PushOne, NewIds;
    var front, last := q[..|q| - 1], q[|q| - 1];
    NewIdsLast(p, q, seen);
    PushAllCovers(p, heaps, front, seen, expanded);
    PushOneCovers(p, PushAll(p, heaps, front), last, seen + Elements(front));
    PushOneQueues(p, PushAll(p, heaps, front), last, expanded);
    assert seen + Elements(q) == seen + Elements(front) + {last};
  }

  lemma {:induction false} SortedNew(p: Problem, ids: set<nat>, seen: set<nat>)
    requires ids <= Nodes(p.count) && ids !! seen
    ensures NewIds(p, Sorted(ids), seen) && Elements(Sorted(ids)) == ids
  {
    hide Sorted;
  }

  // --- Local optimality ---------------------------------------------------------------------------

  /** What every iteration of the ungated search keeps. */
  ghost predicate Sound(p: Problem, st: State) {
    && Typed(p, st) && st.evaluated == st.visited
    && Covered(p, st.results, st.visited)
    && Queued(p, st.results, st.frontier, st.expanded)
    && forall v :: v in Nodes(p.count) && HasNeighbour(p, st.expanded, v) ==> v in st.visited
  }

  /** Popping drops only nodes that are farther than every kept one. */
  lemma {:induction false} PopBatchDrops(results: set<Entry>, L: nat, frontier: set<Entry>, n: nat, e: Entry)
    requires results != {} && e in frontier
    ensures var r := PopBatch(results, L, frontier, n);
            e in r.1 || e.id in r.0 || e.key > Worst(results)
    decreases n
  {
    if n == 0 {
    } else {
      var least := Least(frontier);
      if e != least {
        PopBatchDrops(results, L, frontier - {least}, n - 1, e);
      }
    }
  }

  lemma {:induction false} PopBatchQueued(p: Problem, results: set<Entry>, frontier: set<Entry>, n: nat,
                                          expanded: set<nat>)
    requires WellFormed(p) && results != {} && Queued(p, results, frontier, expanded)
    ensures var r := PopBatch(results, p.L, frontier, n); Queued(p, results, r.1, expanded + r.0)
  {
    hide PopBatch;
    var r := PopBatch(results, p.L, frontier, n);
    forall e | e in results ensures e.id in expanded + r.0 || Entry(-e.key, e.id) in r.1 {
      if e.id !in expanded {
        PopBatchDrops(results, p.L, frontier, n, Entry(-e.key, e.id));
        WorstBounds(results, e);
      }
    }
  }

  lemma {:induction false} StepSound(p: Problem, st: State)
    requires Sound(p, st) && p.gate.NoGate?
    ensures Sound(p, Step(p, st))
  {
    StepTyped(p, st);
    var (batch, frontier) := PopBatch(st.results, p.L, st.frontier, p.beam);
    PopBatchQueued(p, st.results, st.frontier, p.beam, st.expanded);
    var unseen := Unseen(p, batch, st.visited);
    SortedNew(p, unseen, st.visited);
    PushAllCovers(p, (st.results, frontier), Sorted(unseen), st.visited, st.expanded + batch);
    var next := Step(p, st);
    hide Covered, Queued, PushAll, PopBatch, Typed, Sorted;
    forall v | v in Nodes(p.count) && HasNeighbour(p, next.expanded, v) ensures v in next.visited {
      if !HasNeighbour(p, st.expanded, v) {
        assert HasNeighbour(p, batch, v);
      }
    }
  }

  lemma {:induction false} StartSound(p: Problem, entry: nat)
    requires WellFormed(p) && entry < p.count
    ensures Sound(p, Start(p, entry))
  {}

  lemma {:induction false} RunSound(p: Problem, st: State)
    requires Sound(p, st) && p.gate.NoGate?
    ensures Sound(p, Run(p, st)) && Run(p, st).frontier == {}
    decreases Unvisited(p, st), Waiting(st)
  {
    hide Sound, Step, Typed, Unvisited, Waiting;
    SoundTyped(p, st);
    if st.frontier == {} {
    } else {
      StepProgress(p, st);
      StepSound(p, st);
      RunSound(p, Step(p, st));
    }
  }

  lemma {:induction false} SoundTyped(p: Problem, st: State)
    requires Sound(p, st)
    ensures Typed(p, st)
  {}

  /** Node `u` is settled: expanded, and each in-range neighbour is kept, or the heap is full and
      the neighbour is no nearer than the worst kept. */
  ghost predicate Settled(p: Problem, end: State, u: nat)
    requires WellFormed(p) && end.results != {}
  {
    && u in end.expanded && u < |p.adj|
    && forall v :: v in p.adj[u] && v < p.count ==> ResultOf(p, v) in end.results || Rejected(p, end.results, v)
  }

  /** Local optimum: at the stop every kept node is settled. */
  lemma {:induction false} LocalOptimum(p: Problem, entry: nat)
    requires WellFormed(p) && entry < p.count && p.gate.NoGate?
    ensures var end := Search(p, entry);
            && end.results != {} && end.frontier == {}
            && forall e :: e in end.results ==> Settled(p, end, e.id)
  {
    StartSound(p, entry);
    RunSound(p, Start(p, entry));
    hide Rejected, Run, Step;
    var end := Search(p, entry);
    forall e | e in end.results ensures Settled(p, end, e.id) {
      SoundSettled(p, end, e);
    }
  }

  lemma {:induction false} SoundSettled(p: Problem, end: State, e: Entry)
    requires Sound(p, end) && end.frontier == {} && e in end.results
    ensures Settled(p, end, e.id)
  {
    hide Rejected;
    forall v | v in p.adj[e.id] && v < p.count
      ensures ResultOf(p, v) in end.results || Rejected(p, end.results, v)
    {
      assert HasNeighbour(p, end.expanded, v);
    }
  }

  // --- The gate -----------------------------------------------------------------------------------

  /** The gate's estimate never overshoots: est <= epsilon0 * dist for every node. */
  predicate SoundGate(p: Problem) {
    WellFormed(p) && p.gate.Gate? && p.gate.epsilon0 > 0.0
    && forall v :: 0 <= v < p.count ==> p.est[v] <= p.gate.epsilon0 * p.dist[v]
  }

  function Ungated(p: Problem): Problem {
    p.(gate := NoGate)
  }

  /** Equal heaps, visited and expanded sets; the gated run has scored no more nodes. */
  ghost predicate SameSearch(gated: State, ungated: State) {
    && gated.results == ungated.results && gated.frontier == ungated.frontier
    && gated.visited == ungated.visited && gated.expanded == ungated.expanded
    && gated.evaluated <= ungated.evaluated
  }

  /** A node the gate drops is farther than every kept one. */
  lemma {:induction false} DroppedIsFar(p: Problem, results: set<Entry>, unseen: set<nat>, v: nat)
    requires SoundGate(p) && results != {} && unseen <= Nodes(p.count)
    requires v in unseen && v !in Kept(p, results, unseen)
    ensures |results| >= p.L && v < p.count && p.dist[v] > Worst(results)
  {
    var eps, d, worst := p.gate.epsilon0, p.dist[v], Worst(results);
    assert worst * eps < eps * d;
    if d <= worst {
      ProductOrder(eps, d, worst);
    }
  }

  lemma {:induction false} ProductOrder(eps: real, a: real, b: real)
    requires eps > 0.0 && a <= b
    ensures eps * a <= b * eps
  {
    assert b * eps - eps * a == eps * (b - a);
  }

  /** The sequence without the elements outside `keep`. */
  function Filter(q: seq<nat>, keep: set<nat>): (r: seq<nat>)
    ensures |r| <= |q| && forall x :: x in r <==> x in q && x in keep
    decreases |q|
  {
    if q == [] then []
    else
      assert q == q[..|q| - 1] + [q[|q| - 1]];
      var front := Filter(q[..|q| - 1], keep);
      if q[|q| - 1] in keep then front + [q[|q| - 1]] else front
  }

  lemma {:induction false} FilterRising(q: seq<nat>, keep: set<nat>)
    requires Rising(q)
    ensures Rising(Filter(q, keep))
    decreases |q|
  {
    if q == [] {
    } else {
      var front, last := q[..|q| - 1], q[|q| - 1];
      FilterRising(front, keep);
      forall i | 0 <= i < |Filter(front, keep)| ensures Filter(front, keep)[i] < last {
        assert Filter(front, keep)[i] in front;
      }
    }
  }

  lemma {:induction false} FilterSorted(ids: set<nat>, keep: set<nat>)
    requires keep <= ids
    ensures Filter(Sorted(ids), keep) == Sorted(keep)
  {
    hide Sorted, Filter;
    FilterRising(Sorted(ids), keep);
    RisingUnique(Filter(Sorted(ids), keep), Sorted(keep));
  }

  lemma {:induction false} WithinIn(q: seq<nat>, s: set<nat>)
    requires forall x :: x in q ==> x in s
    ensures Within(q, s)
  {}

  /** Skipping nodes that are farther than a full heap's worst changes nothing. */
  lemma {:induction false} SkipFar(p: Problem, heaps: (set<Entry>, set<Entry>), q: seq<nat>, keep: set<nat>,
                                   seen: set<nat>)
    requires WellFormed(p) && NewIds(p, q, seen) && ResultsOver(p, heaps.0, seen)
    requires forall x :: x in q && x !in keep ==> x < p.count && |heaps.0| >= p.L && p.dist[x] > Worst(heaps.0)
    ensures Within(Filter(q, keep), Nodes(p.count))
    ensures PushAll(p, heaps, q) == PushAll(p, heaps, Filter(q, keep))
    ensures ResultsOver(p, PushAll(p, heaps, q).0, seen + Elements(q))
    ensures |heaps.0| >= p.L ==>
      |PushAll(p, heaps, q).0| >= p.L && Worst(PushAll(p, heaps, q).0) <= Worst(heaps.0)
    decreases |q|
  {
    if q == [] {
      assert seen + Elements(q) == seen;
      return;
    }
    var front, last := q[..|q| - 1], q[|q| - 1];
    assert q == front + [last];
    NewIdsLast(p, q, seen);
    SkipFar(p, heaps, front, keep, seen);
    var before := PushAll(p, heaps, front);
    PushOneOver(p, before, last, seen + Elements(front));
    assert seen + Elements(q) == seen + Elements(front) + {last};
    if |before.0| >= p.L {
      PushOneFull(p, before, last, seen + Elements(front));
    }
    WithinIn(Filter(q, keep), Nodes(p.count));
    SkipLast(p, heaps, q, keep);
  }

  lemma {:induction false} SkipLast(p: Problem, heaps: (set<Entry>, set<Entry>), q: seq<nat>, keep: set<nat>)
    requires WellFormed(p) && heaps.0 != {} && q != [] && Within(q, Nodes(p.count))
    requires Within(Filter(q, keep), Nodes(p.count)) && Within(Filter(q[..|q| - 1], keep), Nodes(p.count))
    requires PushAll(p, heaps, q[..|q| - 1]) == PushAll(p, heaps, Filter(q[..|q| - 1], keep))
    requires var before, last := PushAll(p, heaps, q[..|q| - 1]), q[|q| - 1];
             last !in keep ==> |before.0| >= p.L && p.dist[last] > Worst(before.0)
    ensures PushAll(p, heaps, q) == PushAll(p, heaps, Filter(q, keep))
  {
    var front, last := q[..|q| - 1], q[|q| - 1];
    var kept := Filter(q, keep);
    if last in keep {
      assert kept == Filter(front, keep) + [last];
      assert kept[..|kept| - 1] == Filter(front, keep);
    }
  }

  /** Scoring only the nodes that pass a sound gate leaves the same heaps as scoring all. */
  lemma {:induction false} GatePushes(p: Problem, heaps: (set<Entry>, set<Entry>), unseen: set<nat>, seen: set<nat>)
    requires SoundGate(p) && ResultsOver(p, heaps.0, seen) && unseen <= Nodes(p.count) && unseen !! seen
    ensures Within(Sorted(unseen), Nodes(p.count)) && Within(Sorted(Kept(p, heaps.0, unseen)), Nodes(p.count))
    ensures PushAll(Ungated(p), heaps, Sorted(unseen)) == PushAll(p, heaps, Sorted(Kept(p, heaps.0, unseen)))
  {
    var kept := Kept(p, heaps.0, unseen);
    var q := Sorted(unseen);
    SortedNew(p, unseen, seen);
    SortedNew(p, kept, seen);
    forall x | x in q && x !in kept
      ensures x < p.count && |heaps.0| >= p.L && p.dist[x] > Worst(heaps.0)
    {
      DroppedIsFar(p, heaps.0, unseen, x);
    }
    hide Sorted, Kept, Rising, SoundGate;
    SkipFar(p, heaps, q, kept, seen);
    FilterSorted(unseen, kept);
    SamePushes(p, heaps, q);
  }

  /** One iteration with a sound gate does what the ungated iteration does. */
  lemma {:induction false} GateStep(p: Problem, gated: State, ungated: State)
    requires SoundGate(p) && Typed(p, gated) && Typed(Ungated(p), ungated) && SameSearch(gated, ungated)
    ensures SameSearch(Step(p, gated), Step(Ungated(p), ungated))
  {
    var (batch, frontier) := PopBatch(gated.results, p.L, gated.frontier, p.beam);
    var unseen := Unseen(p, batch, gated.visited);
    GatePushes(p, (gated.results, frontier), unseen, gated.visited);
    assert unseen == Unseen(Ungated(p), batch, ungated.visited);
    hide PushAll, PopBatch, Sorted, SoundGate;
  }

  lemma {:induction false} SamePush(p: Problem, heaps: (set<Entry>, set<Entry>), v: nat)
    requires WellFormed(p) && heaps.0 != {} && v < p.count
    ensures PushOne(p, heaps, v) == PushOne(Ungated(p), heaps, v)
  {}

  /** Pushing never looks at the gate. */
  lemma {:induction false} SamePushes(p: Problem, heaps: (set<Entry>, set<Entry>), q: seq<nat>)
    requires WellFormed(p) && heaps.0 != {} && Within(q, Nodes(p.count))
    ensures PushAll(p, heaps, q) == PushAll(Ungated(p), heaps, q)
    decreases |q|
  {
    hide PushOne;
    if q == [] {
    } else {
      SamePushes(p, heaps, q[..|q| - 1]);
      SamePush(p, PushAll(p, heaps, q[..|q| - 1]), q[|q| - 1]);
    }
  }

  /** One iteration; a finished search stays where it is. */
  ghost function Next(p: Problem, st: State): (next: State)
    requires Typed(p, st)
    ensures Typed(p, next)
  {
    StepTyped(p, st);
    if st.frontier == {} then st else Step(p, st)
  }

  /** The state after `n` iterations. */
  ghost function Iterate(p: Problem, entry: nat, n: nat): (st: State)
    requires WellFormed(p) && entry < p.count
    ensures Typed(p, st)
    decreases n
  {
    if n == 0 then
      StartTyped(p, entry);
      Start(p, entry)
    else
      Next(p, Iterate(p, entry, n - 1))
  }

  lemma {:induction false} NextSame(p: Problem, gated: State, ungated: State)
    requires SoundGate(p) && Typed(p, gated) && Typed(Ungated(p), ungated) && SameSearch(gated, ungated)
    ensures SameSearch(Next(p, gated), Next(Ungated(p), ungated))
  {
    hide Step, Typed, SoundGate;
    if gated.frontier != {} {
      GateStep(p, gated, ungated);
    }
  }

  lemma {:induction false} UngatedFormed(p: Problem)
    requires SoundGate(p)
    ensures WellFormed(p) && WellFormed(Ungated(p)) && Ungated(p).count == p.count
  {}

  lemma {:induction false} SameStart(p: Problem, entry: nat)
    requires WellFormed(p) && entry < p.count
    ensures SameSearch(Start(p, entry), Start(Ungated(p), entry))
  {}

  /** Gate simulation: after every number of iterations the two searches hold the same heaps. */
  lemma {:induction false} GateSimulation(p: Problem, entry: nat, n: nat)
    requires SoundGate(p) && entry < p.count
    ensures SameSearch(Iterate(p, entry, n), Iterate(Ungated(p), entry, n))
    decreases n
  {
    hide Next, Typed, SoundGate, WellFormed, SameSearch, Start, Ungated;
    UngatedFormed(p);
    if n == 0 {
      SameStart(p, entry);
    } else {
      GateSimulation(p, entry, n - 1);
      NextSame(p, Iterate(p, entry, n - 1), Iterate(Ungated(p), entry, n - 1));
    }
  }

  lemma {:induction false} GateRun(p: Problem, gated: State, ungated: State)
    requires SoundGate(p) && Typed(p, gated) && Typed(Ungated(p), ungated) && SameSearch(gated, ungated)
    ensures SameSearch(Run(p, gated), Run(Ungated(p), ungated))
    decreases Unvisited(p, gated), Waiting(gated)
  {
    hide Step, Typed, SoundGate, Unvisited, Waiting;
    if gated.frontier == {} {
    } else {
      StepTyped(p, gated);
      StepTyped(Ungated(p), ungated);
      StepProgress(p, gated);
      GateStep(p, gated, ungated);
      GateRun(p, Step(p, gated), Step(Ungated(p), ungated));
    }
  }

  /** So the whole gated search ends with the ungated search's results. */
  lemma {:induction false} GateSameAnswer(p: Problem, entry: nat)
    requires SoundGate(p) && entry < p.count
    ensures SameSearch(Search(p, entry), Search(Ungated(p), entry))
  {
    StartTyped(p, entry);
    StartTyped(Ungated(p), entry);
    hide Run, Typed, SoundGate;
    GateRun(p, Start(p, entry), Start(Ungated(p), entry));
  }

  /** And with a local optimum. */
  lemma {:induction false} GatedLocalOptimum(p: Problem, entry: nat)
    requires SoundGate(p) && entry < p.count
    ensures var end := Search(p, entry);
            end.results != {} && end.frontier == {} && forall e :: e in end.results ==> Settled(p, end, e.id)
  {
    GateSameAnswer(p, entry);
    LocalOptimum(Ungated(p), entry);
    var end, other := Search(p, entry), Search(Ungated(p), entry);
    hide Search, SoundGate, Settled;
    forall e | e in end.results ensures Settled(p, end, e.id) {
      SettledSame(p, end, other, e.id);
    }
  }

  lemma {:induction false} SettledSame(p: Problem, end: State, other: State, u: nat)
    requires WellFormed(p) && other.results != {} && SameSearch(end, other) && Settled(Ungated(p), other, u)
    ensures Settled(p, end, u)
  {
    forall v | v in p.adj[u] && v < p.count ensures ResultOf(p, v) in end.results || Rejected(p, end.results, v) {
      assert ResultOf(Ungated(p), v) in other.results || Rejected(Ungated(p), other.results, v);
    }
  }

  // --- What is scored -----------------------------------------------------------------------------

  /** The results are those of data nodes. */
  ghost predicate OfNodes(p: Problem, results: set<Entry>) {
    WellFormed(p) && results != {} && forall f :: f in results ==> f.id < p.count && f == ResultOf(p, f.id)
  }

  /** No result is farther than this one. */
  ghost predicate IsFarthest(p: Problem, results: set<Entry>, e: Entry) {
    && e in results && e.id < |p.dist|
    && forall f :: f in results ==> f.id < |p.dist| && p.dist[f.id] <= p.dist[e.id]
  }

  /** The estimate of v is at most epsilon0 times the distance of this result. */
  ghost predicate WithinGate(p: Problem, e: Entry, v: nat)
    requires v < |p.est| && p.gate.Gate?
  {
    e.id < |p.dist| && p.est[v] <= p.gate.epsilon0 * p.dist[e.id]
  }

  /** The gate lets v through: there is no gate, or the result heap has room, or the estimate of v is within reach of
      the farthest result. */
  ghost predicate PassesGate(p: Problem, results: set<Entry>, v: nat)
    requires v < |p.est|
  {
    p.gate.NoGate? || |results| < p.L || exists e :: IsFarthest(p, results, e) && WithinGate(p, e, v)
  }

  lemma {:induction false} RootFarthest(p: Problem, results: set<Entry>)
    requires OfNodes(p, results)
    ensures IsFarthest(p, results, Least(results))
  {}

  lemma {:induction false} FarthestIsWorst(p: Problem, results: set<Entry>, e: Entry)
    requires OfNodes(p, results) && IsFarthest(p, results, e)
    ensures p.dist[e.id] == Worst(results)
  {}

  lemma {:induction false} WithinIff(p: Problem, results: set<Entry>, e: Entry, v: nat)
    requires OfNodes(p, results) && IsFarthest(p, results, e) && v < p.count && p.gate.Gate?
    ensures WithinGate(p, e, v) <==> p.est[v] <= Worst(results) * p.gate.epsilon0
  {
    FarthestIsWorst(p, results, e);
    hide OfNodes, Worst;
    assert p.gate.epsilon0 * p.dist[e.id] == Worst(results) * p.gate.epsilon0;
  }

  /** The nodes kept by the gate are those it lets through. */
  lemma {:induction false} KeptIff(p: Problem, results: set<Entry>, unseen: set<nat>, v: nat)
    requires OfNodes(p, results) && unseen <= Nodes(p.count) && v in unseen
    ensures v in Kept(p, results, unseen) <==> PassesGate(p, results, v)
  {
    assert v < p.count;
    hide IsFarthest, Worst, WithinGate, IsLeast, OfNodes;
    if p.gate.Gate? && |results| >= p.L {
      var root := Least(results);
      RootFarthest(p, results);
      WithinIff(p, results, root, v);
      if e :| IsFarthest(p, results, e) && WithinGate(p, e, v) {
        WithinIff(p, results, e, v);
      }
    }
  }

  /** With epsilon0 not negative any result will do. */
  lemma {:induction false} PassesBySome(p: Problem, results: set<Entry>, v: nat)
    requires OfNodes(p, results) && p.gate.Gate? && p.gate.epsilon0 >= 0.0 && v < p.count
    ensures PassesGate(p, results, v) <==> (|results| < p.L || exists e :: e in results && WithinGate(p, e, v))
  {
    var root := Least(results);
    RootFarthest(p, results);
    hide WithinGate, IsLeast, OfNodes;
    if e :| e in results && WithinGate(p, e, v) {
      ReachMonotone(p, results, e, root, v);
    }
  }

  lemma {:induction false} ReachMonotone(p: Problem, results: set<Entry>, e: Entry, far: Entry, v: nat)
    requires WellFormed(p) && p.gate.Gate? && p.gate.epsilon0 >= 0.0 && v < p.count
    requires e in results && IsFarthest(p, results, far) && WithinGate(p, e, v)
    ensures WithinGate(p, far, v)
  {
    GateMonotone(p.gate.epsilon0, p.dist[e.id], p.dist[far.id]);
  }

  lemma {:induction false} GateMonotone(epsilon0: real, a: real, b: real)
    requires epsilon0 >= 0.0 && a <= b
    ensures epsilon0 * a <= epsilon0 * b
  {
    assert epsilon0 * (b - a) >= 0.0;
  }

  /** An iteration scores exactly the nodes it visits first that the gate lets through. */
  lemma {:induction false} StepScores(p: Problem, st: State, v: nat)
    requires Typed(p, st)
    ensures v in Step(p, st).evaluated <==> v in st.evaluated || ScoredBy(p, st, v)
  {
    var (batch, frontier) := PopBatch(st.results, p.L, st.frontier, p.beam);
    var unseen := Unseen(p, batch, st.visited);
    if v in unseen {
      assert OfNodes(p, st.results);
      KeptIff(p, st.results, unseen, v);
    }
    hide PopBatch, Unseen, PushAll, Sorted;
  }

  /** v is visited by this iteration and let through. */
  ghost predicate ScoredBy(p: Problem, st: State, v: nat)
    requires Typed(p, st)
  {
    v in Step(p, st).visited && v !in st.visited && v < p.count && PassesGate(p, st.results, v)
  }

  /** With epsilon0 not negative, of the nodes an iteration visits first it scores exactly those whose estimate is
      within reach of some result it started with, or all of them while the heap has room. */
  lemma {:induction false} GatePrunes(p: Problem, st: State, v: nat)
    requires Typed(p, st) && p.gate.Gate? && p.gate.epsilon0 >= 0.0
    requires v in Step(p, st).visited && v !in st.visited && v < p.count
    ensures v in Step(p, st).evaluated
      <==> |st.results| < p.L || exists e :: e in st.results && WithinGate(p, e, v)
  {
    assert OfNodes(p, st.results) && v !in st.evaluated;
    StepScores(p, st, v);
    PassesBySome(p, st.results, v);
    hide Step, PassesGate, WithinGate, OfNodes, Typed;
  }

  /** v is visited by iteration n and let through. */
  ghost predicate ScoredAt(p: Problem, entry: nat, n: nat, v: nat)
    requires WellFormed(p) && entry < p.count
  {
    var st := Iterate(p, entry, n); st.frontier != {} && ScoredBy(p, st, v)
  }

  lemma {:induction false} NextScores(p: Problem, entry: nat, n: nat, v: nat)
    requires WellFormed(p) && entry < p.count
    ensures v in Iterate(p, entry, n + 1).evaluated <==> v in Iterate(p, entry, n).evaluated || ScoredAt(p, entry, n, v)
  {
    var st := Iterate(p, entry, n);
    StepScores(p, st, v);
    hide Step, ScoredBy, Typed;
  }

  lemma {:induction false} ScoredBefore(p: Problem, entry: nat, n: nat, v: nat)
    requires WellFormed(p) && entry < p.count
    ensures v in Iterate(p, entry, n).evaluated <==> v == entry || exists m :: 0 <= m < n && ScoredAt(p, entry, m, v)
    decreases n
  {
    hide ScoredAt, Next, Typed;
    if n == 0 {
    } else {
      ScoredBefore(p, entry, n - 1, v);
      NextScores(p, entry, n - 1, v);
    }
  }

  lemma {:induction false} RunFromNext(p: Problem, st: State)
    requires Typed(p, st)
    ensures Run(p, Next(p, st)) == Run(p, st)
  {
    StepTyped(p, st);
    hide Step, Typed;
  }

  /** The search ends after some number of iterations. */
  lemma {:induction false} Ends(p: Problem, entry: nat, n: nat) returns (m: nat)
    requires WellFormed(p) && entry < p.count && Run(p, Iterate(p, entry, n)) == Search(p, entry)
    ensures Iterate(p, entry, m) == Search(p, entry) && Iterate(p, entry, m).frontier == {}
    decreases Unvisited(p, Iterate(p, entry, n)), Waiting(Iterate(p, entry, n))
  {
    var st := Iterate(p, entry, n);
    hide Step, Typed, Unvisited, Waiting, Search;
    if st.frontier == {} {
      m := n;
    } else {
      StepProgress(p, st);
      RunFromNext(p, st);
      m := Ends(p, entry, n + 1);
    }
  }

  lemma {:induction false} NothingAfter(p: Problem, entry: nat, m: nat, n: nat)
    requires WellFormed(p) && entry < p.count && m <= n && Iterate(p, entry, m).frontier == {}
    ensures Iterate(p, entry, n).frontier == {}
    decreases n
  {
    hide Step, Typed;
    if m < n {
      NothingAfter(p, entry, m, n - 1);
    }
  }

  /** v is the entry, or let through when some iteration visited it. */
  ghost predicate IsScored(p: Problem, entry: nat, v: nat)
    requires WellFormed(p) && entry < p.count
  {
    v == entry || exists n :: ScoredAt(p, entry, n, v)
  }

  lemma {:induction false} NoneAfter(p: Problem, entry: nat, m: nat, n: nat, v: nat)
    requires WellFormed(p) && entry < p.count && Iterate(p, entry, m).frontier == {} && ScoredAt(p, entry, n, v)
    ensures n < m
  {
    hide Step, Typed, ScoredBy;
    if m <= n {
      NothingAfter(p, entry, m, n);
    }
  }

  lemma {:induction false} ScoredByEnd(p: Problem, entry: nat, m: nat, v: nat)
    requires WellFormed(p) && entry < p.count && Iterate(p, entry, m).frontier == {}
    ensures v in Iterate(p, entry, m).evaluated <==> IsScored(p, entry, v)
  {
    ScoredBefore(p, entry, m, v);
    hide Iterate, Typed, ScoredAt;
    if n :| ScoredAt(p, entry, n, v) {
      NoneAfter(p, entry, m, n, v);
    }
  }

  /** Over a whole search the nodes scored are the entry and those let through when they were first visited. */
  lemma {:induction false} ScoredExactly(p: Problem, entry: nat)
    requires WellFormed(p) && entry < p.count
    ensures forall v :: v in Search(p, entry).evaluated <==> IsScored(p, entry, v)
  {
    RunFromStart(p, entry);
    hide Search, Run, IsScored, Iterate, Typed;
    var m := Ends(p, entry, 0);
    forall v ensures v in Search(p, entry).evaluated <==> IsScored(p, entry, v) {
      ScoredByEnd(p, entry, m, v);
    }
  }

  lemma {:induction false} RunFromStart(p: Problem, entry: nat)
    requires WellFormed(p) && entry < p.count
    ensures Run(p, Iterate(p, entry, 0)) == Search(p, entry)
  {
    hide Run, Typed, Start;
  }

  // --- What is expanded, and what is kept ------------------------------------------------------------

  /** A node at this distance cannot beat a full heap. */
  ghost predicate IsFar(results: set<Entry>, L: nat, key: real) {
    |results| >= L && forall e :: e in results ==> -e.key < key
  }

  /** What one turn takes from the frontier: at most `n` entries, the nearest ones, none of them too far; fewer only
      when nothing is left or the next one is too far, which is dropped. */
  ghost predicate IsPop(results: set<Entry>, L: nat, frontier: set<Entry>, n: nat, popped: set<Entry>,
                        rest: set<Entry>)
  {
    && popped <= frontier && |popped| <= n && rest <= frontier - popped
    && (forall a, b :: a in popped && b in frontier - popped ==> Before(a, b))
    && (forall a :: a in popped ==> !IsFar(results, L, a.key))
    && (rest == frontier - popped ==> |popped| == n || rest == {})
    && (rest != frontier - popped ==> |popped| < n && exists d :: DropsFar(results, L, frontier - popped, d, rest))
  }

  ghost predicate DropsFar(results: set<Entry>, L: nat, left: set<Entry>, d: Entry, rest: set<Entry>) {
    IsLeast(d, left) && IsFar(results, L, d.key) && rest == left - {d}
  }

  lemma {:induction false} FarIff(results: set<Entry>, L: nat, key: real)
    requires results != {}
    ensures IsFar(results, L, key) <==> key > Worst(results) && |results| >= L
  {}

  function Ids(entries: set<Entry>): (ids: set<nat>)
    ensures forall v :: v in ids <==> exists e :: e in entries && e.id == v
  {
    set e | e in entries :: e.id
  }

  lemma {:induction false} PopNext(results: set<Entry>, L: nat, frontier: set<Entry>, n: nat, e: Entry,
                                   popped: set<Entry>, rest: set<Entry>)
    requires IsLeast(e, frontier) && n > 0 && !IsFar(results, L, e.key)
    requires IsPop(results, L, frontier - {e}, n - 1, popped, rest)
    ensures IsPop(results, L, frontier, n, popped + {e}, rest)
  {
    hide IsFar, DropsFar;
    assert frontier - (popped + {e}) == (frontier - {e}) - popped;
  }

  lemma {:induction false} PopNone(results: set<Entry>, L: nat, frontier: set<Entry>, n: nat)
    requires n == 0 || frontier == {}
    ensures IsPop(results, L, frontier, n, {}, frontier)
  {
    assert frontier - {} == frontier;
  }

  lemma {:induction false} PopFar(results: set<Entry>, L: nat, frontier: set<Entry>, n: nat, e: Entry)
    requires n > 0 && IsLeast(e, frontier) && IsFar(results, L, e.key)
    ensures IsPop(results, L, frontier, n, {}, frontier - {e})
  {
    hide IsFar;
    assert frontier - {} == frontier;
    assert DropsFar(results, L, frontier - {}, e, frontier - {e});
  }

  lemma {:induction false} IdsNext(popped: set<Entry>, e: Entry)
    ensures Ids(popped + {e}) == Ids(popped) + {e.id}
  {}

  /** The pop of the specification is that pop. */
  lemma {:induction false} PopExact(results: set<Entry>, L: nat, frontier: set<Entry>, n: nat)
    returns (popped: set<Entry>)
    requires results != {}
    ensures var r := PopBatch(results, L, frontier, n);
      r.0 == Ids(popped) && IsPop(results, L, frontier, n, popped, r.1)
    decreases n
  {
    hide Worst, IsFar, IsPop, IsLeast;
    popped := {};
    assert Ids(popped) == {};
    if n == 0 || frontier == {} {
      PopNone(results, L, frontier, n);
      return;
    }
    var e := Least(frontier);
    FarIff(results, L, e.key);
    if IsFar(results, L, e.key) {
      PopFar(results, L, frontier, n, e);
    } else {
      var more := PopExact(results, L, frontier - {e}, n - 1);
      popped := more + {e};
      IdsNext(more, e);
      PopNext(results, L, frontier, n, e, more, PopBatch(results, L, frontier - {e}, n - 1).1);
    }
  }

  /** A scored node enters the results when the heap has room or it is nearer than some result, and then it is queued as
      well; of a full heap it replaces, of the farthest results, the one with the smallest id. */
  lemma {:induction false} PushExact(p: Problem, heaps: (set<Entry>, set<Entry>), v: nat, ids: set<nat>)
    requires ResultsOver(p, heaps.0, ids) && v < p.count
    ensures var after := PushOne(p, heaps, v);
      if |heaps.0| < p.L then after == (heaps.0 + {ResultOf(p, v)}, heaps.1 + {FrontOf(p, v)})
      else if exists e :: e in heaps.0 && p.dist[v] < p.dist[e.id]
      then exists e :: Displaced(p, heaps.0, e)
                       && after == (heaps.0 - {e} + {ResultOf(p, v)}, heaps.1 + {FrontOf(p, v)})
      else after == heaps
  {
    var e := Least(heaps.0);
    assert Displaced(p, heaps.0, e);
    assert p.dist[e.id] == Worst(heaps.0);
  }

  /** The farthest result with the smallest id. */
  ghost predicate Displaced(p: Problem, results: set<Entry>, e: Entry) {
    IsFarthest(p, results, e)
    && forall f :: f in results && f.id < |p.dist| && p.dist[f.id] == p.dist[e.id] ==> e.id <= f.id
  }

  // --- A beam wide enough for everything reachable --------------------------------------------------

  /** Consecutive nodes are joined by edges, all between data nodes. */
  ghost predicate IsPath(p: Problem, path: seq<nat>) {
    && path != [] && p.count <= |p.adj| && Within(path, Nodes(p.count))
    && forall i :: 0 <= i < |path| - 1 ==> path[i + 1] in p.adj[path[i]]
  }

  ghost predicate Reachable(p: Problem, entry: nat, v: nat) {
    exists path :: IsPath(p, path) && path[0] == entry && path[|path| - 1] == v
  }

  ghost function ReachableSet(p: Problem, entry: nat): set<nat> {
    set v | v in Nodes(p.count) && Reachable(p, entry, v)
  }

  lemma {:induction false} ReachNext(p: Problem, entry: nat, u: nat, v: nat)
    requires WellFormed(p) && u in ReachableSet(p, entry) && v < p.count && v in p.adj[u]
    ensures v in ReachableSet(p, entry)
  {
    var path :| IsPath(p, path) && path[0] == entry && path[|path| - 1] == u;
    var longer := path + [v];
    assert IsPath(p, longer) && longer[|longer| - 1] == v;
  }

  ghost predicate AllKept(p: Problem, results: set<Entry>, seen: set<nat>) {
    && ResultsOver(p, results, seen)
    && forall v :: v in seen ==> v < p.count && ResultOf(p, v) in results
  }

  /** Results are told apart by their nodes. */
  lemma {:induction false} NoMoreResults(p: Problem, results: set<Entry>, seen: set<nat>)
    requires WellFormed(p) && forall e :: e in results ==> e.id in seen && e.id < p.count && e == ResultOf(p, e.id)
    ensures |results| <= |seen|
    decreases |results|
  {
    if results == {} {
    } else {
      var e :| e in results;
      NoMoreResults(p, results - {e}, seen - {e.id});
    }
  }

  lemma {:induction false} PushOneKeepsAll(p: Problem, heaps: (set<Entry>, set<Entry>), v: nat, seen: set<nat>,
                                           all: set<nat>)
    requires AllKept(p, heaps.0, seen) && v !in seen && v < p.count && seen + {v} <= all && |all| <= p.L
    ensures AllKept(p, PushOne(p, heaps, v).0, seen + {v})
  {
    NoMoreResults(p, heaps.0, seen);
    SubsetSize(seen + {v}, all);
    assert |seen + {v}| == |seen| + 1;
  }

  lemma {:induction false} PushAllKeepsAll(p: Problem, heaps: (set<Entry>, set<Entry>), q: seq<nat>, seen: set<nat>,
                                           all: set<nat>)
    requires AllKept(p, heaps.0, seen) && NewIds(p, q, seen) && seen + Elements(q) <= all && |all| <= p.L
    ensures AllKept(p, PushAll(p, heaps, q).0, seen + Elements(q))
    decreases |q|
  {
    if q == [] {
      assert seen + Elements(q) == seen;
      return;
    }
    hide PushOne, NewIds;
    var front, last := q[..|q| - 1], q[|q| - 1];
    NewIdsLast(p, q, seen);
    assert seen + Elements(q) == seen + Elements(front) + {last};
    PushAllKeepsAll(p, heaps, front, seen, all);
    PushOneKeepsAll(p, PushAll(p, heaps, front), last, seen + Elements(front), all);
  }

  /** What every iteration of a wide search keeps. */
  ghost predicate Exploring(p: Problem, entry: nat, st: State) {
    && Sound(p, st) && AllKept(p, st.results, st.visited)
    && entry in st.visited && st.visited <= ReachableSet(p, entry)
  }

  lemma {:induction false} UnseenReachable(p: Problem, entry: nat, batch: set<nat>, visited: set<nat>)
    requires WellFormed(p) && batch <= ReachableSet(p, entry)
    ensures Unseen(p, batch, visited) <= ReachableSet(p, entry)
  {
    forall v | v in Unseen(p, batch, visited) ensures v in ReachableSet(p, entry) {
      var u :| u in batch && u < |p.adj| && v in p.adj[u];
      ReachNext(p, entry, u, v);
    }
  }

  lemma {:induction false} StepExplores(p: Problem, entry: nat, st: State)
    requires Exploring(p, entry, st) && p.gate.NoGate? && |ReachableSet(p, entry)| <= p.L
    ensures Sound(p, Step(p, st)) && Exploring(p, entry, Step(p, st))
  {
    StepSound(p, st);
    assert Typed(p, st) && FrontierOver(p, st.frontier, st.visited);
    var (batch, frontier) := PopBatch(st.results, p.L, st.frontier, p.beam);
    PopBatchTyped(p, st.results, st.frontier, p.beam, st.visited);
    var unseen := Unseen(p, batch, st.visited);
    UnseenReachable(p, entry, batch, st.visited);
    SortedNew(p, unseen, st.visited);
    hide Sound, Reachable, PopBatch, Sorted, NewIds;
    PushAllKeepsAll(p, (st.results, frontier), Sorted(unseen), st.visited, ReachableSet(p, entry));
  }

  lemma {:induction false} RunExplores(p: Problem, entry: nat, st: State)
    requires Exploring(p, entry, st) && p.gate.NoGate? && |ReachableSet(p, entry)| <= p.L && Typed(p, st)
    ensures Exploring(p, entry, Run(p, st)) && Run(p, st).frontier == {}
    decreases Unvisited(p, st), Waiting(st)
  {
    hide Exploring, Step, Typed, ReachableSet, Unvisited, Waiting;
    if st.frontier == {} {
    } else {
      StepTyped(p, st);
      StepProgress(p, st);
      StepExplores(p, entry, st);
      RunExplores(p, entry, Step(p, st));
    }
  }

  /** A finished wide search has visited every node of every path. */
  lemma {:induction false} PathVisited(p: Problem, entry: nat, st: State, path: seq<nat>, i: nat)
    requires Exploring(p, entry, st) && st.frontier == {}
    requires IsPath(p, path) && path[0] == entry && i < |path|
    ensures path[i] in st.visited
    decreases i
  {
    if i == 0 {
    } else {
      PathVisited(p, entry, st, path, i - 1);
      var u := path[i - 1];
      assert ResultOf(p, u) in st.results && u in st.expanded;
      assert path[(i - 1) + 1] in p.adj[u];
      assert HasNeighbour(p, st.expanded, path[i]);
    }
  }

  lemma {:induction false} StartExplores(p: Problem, entry: nat)
    requires WellFormed(p) && entry < p.count
    ensures Typed(p, Start(p, entry)) && Exploring(p, entry, Start(p, entry))
  {
    StartSound(p, entry);
    var path := [entry];
    assert IsPath(p, path) && path[0] == entry && path[|path| - 1] == entry;
    hide Sound, IsPath;
  }

  lemma {:induction false} AllVisited(p: Problem, entry: nat, end: State)
    requires Exploring(p, entry, end) && end.frontier == {}
    ensures end.visited == ReachableSet(p, entry)
  {
    forall v | v in ReachableSet(p, entry) ensures v in end.visited {
      var path :| IsPath(p, path) && path[0] == entry && path[|path| - 1] == v;
      hide Exploring, IsPath;
      PathVisited(p, entry, end, path, |path| - 1);
    }
  }

  /** Exactness: when the result heap has room for every reachable node, the search evaluates
      exactly the reachable nodes and keeps them all. */
  lemma {:induction false} WideBeamExact(p: Problem, entry: nat)
    requires WellFormed(p) && entry < p.count && p.gate.NoGate? && |ReachableSet(p, entry)| <= p.L
    ensures var end := Search(p, entry);
            && end.evaluated == ReachableSet(p, entry)
            && (forall v :: v in ReachableSet(p, entry) ==> v < p.count && ResultOf(p, v) in end.results)
            && forall e :: e in end.results ==>
              e.id in ReachableSet(p, entry) && e.id < p.count && e == ResultOf(p, e.id)
  {
    StartExplores(p, entry);
    RunExplores(p, entry, Start(p, entry));
    AllVisited(p, entry, Search(p, entry));
    hide Run, ReachableSet;
  }
}
