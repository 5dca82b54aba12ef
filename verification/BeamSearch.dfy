/** `disk_search` as a step function on its two heaps and its visited set. */
module BeamSearch {
  import opened Ranking
  import opened SortedSets

  datatype Gate = NoGate | Gate(epsilon0: real)

  /** A graph, the distances of its data nodes to the query, and the search parameters.
      Nodes from `count` on have neighbours but no payload. */
  datatype Problem = Problem(adj: seq<seq<nat>>, count: nat, dist: seq<real>, est: seq<real>,
                             L: nat, beam: nat, gate: Gate)

  predicate WellFormed(p: Problem) {
    p.count <= |p.adj| && |p.dist| == |p.est| == p.count && p.L >= 1 && p.beam >= 1
  }

  /** The two heaps, the visited set, and what the search has done so far. */
  datatype State = State(results: set<Entry>, frontier: set<Entry>, visited: set<nat>,
                         evaluated: set<nat>, expanded: set<nat>)

  function Nodes(n: nat): (s: set<nat>)
    ensures forall v :: v in s <==> 0 <= v < n
  {
    if n == 0 then {} else Nodes(n - 1) + {n - 1}
  }

  predicate Within(ids: seq<nat>, s: set<nat>) {
    forall i :: 0 <= i < |ids| ==> ids[i] in s
  }

  /** What `results` stores for node v: a min-heap on the negated distance. */
  function ResultOf(p: Problem, v: nat): Entry
    requires WellFormed(p) && v < p.count
  {
    Entry(-p.dist[v], v)
  }

  function FrontOf(p: Problem, v: nat): Entry
    requires WellFormed(p) && v < p.count
  {
    Entry(p.dist[v], v)
  }

  /** Every state the search goes through. */
  ghost predicate Typed(p: Problem, st: State) {
    && WellFormed(p)
    && st.visited <= Nodes(p.count) && st.evaluated <= st.visited && st.expanded <= st.visited
    && st.results != {} && |st.results| <= p.L
    && (forall e :: e in st.results ==> e.id in st.visited && e.id < p.count && e == ResultOf(p, e.id))
    && (forall e :: e in st.frontier ==> e.id in st.visited && e.id < p.count && e == FrontOf(p, e.id))
  }

  /** `-results[0][0]` */
  ghost function Worst(results: set<Entry>): real
    requires results != {}
  {
    -Least(results).key
  }

  /** The inner loop that fills `to_expand`: at most `n` nodes, stopping at (and dropping) the
      first one that cannot beat a full result heap. */
  ghost function PopBatch(results: set<Entry>, L: nat, frontier: set<Entry>, n: nat): (r: (set<nat>, set<Entry>))
    requires results != {}
    ensures r.1 <= frontier
    ensures n > 0 && frontier != {} ==> r.1 < frontier
    decreases n
  {
    if n == 0 || frontier == {} then ({}, frontier)
    else
      var e := Least(frontier);
      if e.key > Worst(results) && |results| >= L then ({}, frontier - {e})
      else
        var rest := PopBatch(results, L, frontier - {e}, n - 1);
        (rest.0 + {e.id}, rest.1)
  }

  predicate HasNeighbour(p: Problem, batch: set<nat>, v: nat) {
    exists u :: u in batch && u < |p.adj| && v in p.adj[u]
  }

  /** The in-range neighbours of the batch that were not visited before. */
  function Unseen(p: Problem, batch: set<nat>, visited: set<nat>): set<nat> {
    set v | v in Nodes(p.count) && v !in visited && HasNeighbour(p, batch, v)
  }

  /** The nodes that get a full distance: all of them without a gate or while the heap has room. */
  ghost function Kept(p: Problem, results: set<Entry>, unseen: set<nat>): (k: set<nat>)
    requires WellFormed(p) && results != {} && unseen <= Nodes(p.count)
    ensures k <= unseen
  {
    if p.gate.Gate? && |results| >= p.L
    then set v | v in unseen && p.est[v] <= Worst(results) * p.gate.epsilon0
    else unseen
  }

  predicate Admits(p: Problem, results: set<Entry>, worst: real, v: nat)
    requires WellFormed(p) && v < p.count
  {
    p.dist[v] < worst || |results| < p.L
  }

  /** `push_result` */
  ghost function PushResult(p: Problem, results: set<Entry>, v: nat): (r: set<Entry>)
    requires WellFormed(p) && v < p.count && results != {}
    ensures r != {}
  {
    if |results| < p.L then results + {ResultOf(p, v)}
    else if p.dist[v] < Worst(results) then results - {Least(results)} + {ResultOf(p, v)}
    else results
  }

  /** The two heaps after one scored node. */
  ghost function PushOne(p: Problem, heaps: (set<Entry>, set<Entry>), v: nat): (r: (set<Entry>, set<Entry>))
    requires WellFormed(p) && v < p.count && heaps.0 != {}
    ensures r.0 != {}
  {
    (PushResult(p, heaps.0, v),
     if Admits(p, heaps.0, Worst(heaps.0), v) then heaps.1 + {FrontOf(p, v)} else heaps.1)
  }

  ghost function PushAll(p: Problem, heaps: (set<Entry>, set<Entry>), ids: seq<nat>): (r: (set<Entry>, set<Entry>))
    requires WellFormed(p) && heaps.0 != {} && Within(ids, Nodes(p.count))
    ensures r.0 != {}
    decreases |ids|
  {
    if ids == [] then heaps else PushOne(p, PushAll(p, heaps, ids[..|ids| - 1]), ids[|ids| - 1])
  }

  /** One iteration of the main loop. */
  ghost function Step(p: Problem, st: State): State
    requires Typed(p, st)
  {
    var (batch, frontier) := PopBatch(st.results, p.L, st.frontier, p.beam);
    var unseen := Unseen(p, batch, st.visited);
    var kept := Kept(p, st.results, unseen);
    var (results, frontier') := PushAll(p, (st.results, frontier), Sorted(kept));
    State(results, frontier', st.visited + unseen, st.evaluated + kept, st.expanded + batch)
  }

  ghost function Start(p: Problem, entry: nat): State
    requires WellFormed(p) && entry < p.count
  {
    State({ResultOf(p, entry)}, {FrontOf(p, entry)}, {entry}, {entry}, {})
  }

  lemma {:induction false} StartTyped(p: Problem, entry: nat)
    requires WellFormed(p) && entry < p.count
    ensures Typed(p, Start(p, entry))
  {}

  // --- Every step keeps the state typed ------------------------------------------------------

  predicate ResultsOver(p: Problem, results: set<Entry>, ids: set<nat>) {
    && WellFormed(p) && results != {} && |results| <= p.L
    && forall e :: e in results ==> e.id in ids && e.id < p.count && e == ResultOf(p, e.id)
  }

  predicate FrontierOver(p: Problem, frontier: set<Entry>, ids: set<nat>) {
    && WellFormed(p)
    && forall e :: e in frontier ==> e.id in ids && e.id < p.count && e == FrontOf(p, e.id)
  }

  lemma {:induction false} PushOneTyped(p: Problem, heaps: (set<Entry>, set<Entry>), v: nat, ids: set<nat>)
    requires v in ids && v < p.count
    requires ResultsOver(p, heaps.0, ids) && FrontierOver(p, heaps.1, ids)
    ensures ResultsOver(p, PushOne(p, heaps, v).0, ids) && FrontierOver(p, PushOne(p, heaps, v).1, ids)
  {}

  lemma {:induction false} PushAllTyped(p: Problem, heaps: (set<Entry>, set<Entry>), q: seq<nat>, ids: set<nat>)
    requires ResultsOver(p, heaps.0, ids) && FrontierOver(p, heaps.1, ids)
    requires Within(q, ids) && Within(q, Nodes(p.count))
    ensures ResultsOver(p, PushAll(p, heaps, q).0, ids) && FrontierOver(p, PushAll(p, heaps, q).1, ids)
    decreases |q|
  {
    hide PushOne, PushResult;
    if q == [] {
    } else {
      PushAllTyped(p, heaps, q[..|q| - 1], ids);
      PushOneTyped(p, PushAll(p, heaps, q[..|q| - 1]), q[|q| - 1], ids);
    }
  }

  lemma {:induction false} PopBatchTyped(p: Problem, results: set<Entry>, frontier: set<Entry>, n: nat, ids: set<nat>)
    requires FrontierOver(p, frontier, ids) && results != {}
    ensures var r := PopBatch(results, p.L, frontier, n);
            FrontierOver(p, r.1, ids) && forall v :: v in r.0 ==> v in ids && v < p.count
    decreases n
  {
    if n > 0 && frontier != {} {
      PopBatchTyped(p, results, frontier - {Least(frontier)}, n - 1, ids);
    }
  }

  lemma {:induction false} StepTyped(p: Problem, st: State)
    requires Typed(p, st)
    ensures Typed(p, Step(p, st))
  {
    var (batch, frontier) := PopBatch(st.results, p.L, st.frontier, p.beam);
    assert FrontierOver(p, st.frontier, st.visited);
    PopBatchTyped(p, st.results, st.frontier, p.beam, st.visited);
    var unseen := Unseen(p, batch, st.visited);
    var kept := Kept(p, st.results, unseen);
    PushAllTyped(p, (st.results, frontier), Sorted(kept), st.visited + unseen);
  }

  /** How many nodes are still unvisited. */
  function Unvisited(p: Problem, st: State): nat {
    |Nodes(p.count) - st.visited|
  }

  function Waiting(st: State): nat {
    |st.frontier|
  }

  lemma {:induction false} FewerElements<T>(a: set<T>, b: set<T>)
    requires a < b
    ensures |a| < |b|
  {
    assert b == a + (b - a);
    assert |b| == |a| + |b - a|;
  }

  /** Either new nodes are visited, or the frontier shrinks. */
  lemma {:induction false} StepProgress(p: Problem, st: State)
    requires Typed(p, st) && st.frontier != {}
    ensures var next := Step(p, st);
            || Unvisited(p, next) < Unvisited(p, st)
            || (Unvisited(p, next) == Unvisited(p, st) && Waiting(next) < Waiting(st))
  {
    var (batch, frontier) := PopBatch(st.results, p.L, st.frontier, p.beam);
    var unseen := Unseen(p, batch, st.visited);
    if unseen == {} {
      assert Sorted(Kept(p, st.results, unseen)) == [];
      assert st.visited + unseen == st.visited;
      FewerElements(Step(p, st).frontier, st.frontier);
    } else {
      var v :| v in unseen;
      assert v in Nodes(p.count) - st.visited;
      FewerElements(Nodes(p.count) - (st.visited + unseen), Nodes(p.count) - st.visited);
    }
  }

  /** The whole loop, from any state. */
  ghost function Run(p: Problem, st: State): State
    requires Typed(p, st)
    decreases Unvisited(p, st), Waiting(st)
  {
    if st.frontier == {} then st
    else
      StepTyped(p, st);
      StepProgress(p, st);
      Run(p, Step(p, st))
  }

  /** The whole search from its entry node. */
  ghost function Search(p: Problem, entry: nat): State
    requires WellFormed(p) && entry < p.count
  {
    StartTyped(p, entry);
    Run(p, Start(p, entry))
  }
}
