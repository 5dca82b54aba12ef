/** `disk_search` itself: the loops over heaps, neighbours read from pages, and scored nodes. */
module DiskSearch {
  import opened Ranking
  import opened SortedSets
  import PageReaders
  import opened PagedGraph
  import opened BeamSearch
  import opened BeamTheorems

  /** The settings of a search. */
  datatype Settings = Settings(count: nat, est: seq<real>, L: nat, beam: nat, gate: Gate) {

    /** The problem it solves on a graph with these lists and these distances. */
    function On(adj: seq<seq<nat>>, dist: seq<real>): Problem {
      Problem(adj, count, dist, est, L, beam, gate)
    }
  }

  /** Fill `to_expand`. */
  method PopLoop(results: set<Entry>, L: nat, start: set<Entry>, beam: nat)
    returns (toExpand: seq<nat>, frontier: set<Entry>)
    requires results != {}
    ensures PopBatch(results, L, start, beam) == (Elements(toExpand), frontier)
  {
    toExpand, frontier := [], start;
    var root := PeekLeast(results);
    ResumesStart(results, L, start, beam);
    hide PopBatch, Elements, Resumes;
    while frontier != {} && |toExpand| < beam
      invariant |toExpand| <= beam
      invariant Resumes(results, L, start, beam, toExpand, frontier)
      decreases beam - |toExpand|
    {
      ResumesNext(results, L, start, beam, toExpand, frontier);
      var e := PeekLeast(frontier);
      frontier := frontier - {e};
      if e.key > -root.key && |results| >= L {
        return;
      }
      toExpand := toExpand + [e.id];
    }
    ResumesEnd(results, L, start, beam, toExpand, frontier);
  }

  /** What is still to pop from `frontier` completes what has been popped from `start`. */
  ghost predicate Resumes(results: set<Entry>, L: nat, start: set<Entry>, beam: nat, popped: seq<nat>,
                          frontier: set<Entry>)
    requires results != {} && |popped| <= beam
  {
    var rest := PopBatch(results, L, frontier, beam - |popped|);
    && PopBatch(results, L, start, beam).0 == Elements(popped) + rest.0
    && PopBatch(results, L, start, beam).1 == rest.1
  }

  lemma {:induction false} ResumesStart(results: set<Entry>, L: nat, start: set<Entry>, beam: nat)
    requires results != {}
    ensures Resumes(results, L, start, beam, [], start)
  {
    hide PopBatch;
    assert Elements([]) == {};
    assert {} + PopBatch(results, L, start, beam).0 == PopBatch(results, L, start, beam).0;
  }

  lemma {:induction false} ResumesNext(results: set<Entry>, L: nat, start: set<Entry>, beam: nat, popped: seq<nat>,
                                       frontier: set<Entry>)
    requires results != {} && |popped| < beam && frontier != {} && Resumes(results, L, start, beam, popped, frontier)
    ensures var e := Least(frontier);
      if e.key > Worst(results) && |results| >= L
      then PopBatch(results, L, start, beam) == (Elements(popped), frontier - {e})
      else Resumes(results, L, start, beam, popped + [e.id], frontier - {e})
  {
    PopBatchUnfold(results, L, frontier, beam - |popped|);
    var e := Least(frontier);
    ElementsSnoc(popped, e.id);
    hide PopBatch, Elements;
    if e.key > Worst(results) && |results| >= L {
      assert Elements(popped) + {} == Elements(popped);
    } else {
      var rest := PopBatch(results, L, frontier - {e}, beam - |popped| - 1).0;
      assert Elements(popped) + ({e.id} + rest) == (Elements(popped) + {e.id}) + rest;
    }
  }

  lemma {:induction false} ResumesEnd(results: set<Entry>, L: nat, start: set<Entry>, beam: nat, popped: seq<nat>,
                                      frontier: set<Entry>)
    requires results != {} && |popped| <= beam && Resumes(results, L, start, beam, popped, frontier)
    requires frontier == {} || |popped| == beam
    ensures PopBatch(results, L, start, beam) == (Elements(popped), frontier)
  {
    PopBatchUnfold(results, L, frontier, beam - |popped|);
    hide PopBatch, Elements;
    assert Elements(popped) + {} == Elements(popped);
  }

  lemma {:induction false} PopBatchUnfold(results: set<Entry>, L: nat, frontier: set<Entry>, n: nat)
    requires results != {}
    ensures n == 0 || frontier == {} ==> PopBatch(results, L, frontier, n) == ({}, frontier)
    ensures n > 0 && frontier != {} ==>
      var e := Least(frontier);
      var rest := frontier - {e};
      if e.key > Worst(results) && |results| >= L then PopBatch(results, L, frontier, n) == ({}, rest)
      else
        && PopBatch(results, L, frontier, n).0 == {e.id} + PopBatch(results, L, rest, n - 1).0
        && PopBatch(results, L, frontier, n).1 == PopBatch(results, L, rest, n - 1).1
  {}

  lemma {:induction false} ElementsSnoc(q: seq<nat>, x: nat)
    ensures Elements(q + [x]) == Elements(q) + {x}
  {
    assert (q + [x])[..|q|] == q;
  }

  /** Visit the neighbours of the expanded nodes, whose pages have been read. */
  method Collect(src: Source, got: PageReaders.Pages, count: nat, toExpand: seq<nat>, visited: set<nat>,
                 ghost p: Problem)
    returns (marked: set<nat>, neighborIds: set<nat>)
    requires WellFormed(p) && p.count == count && forall i :: 0 <= i < |toExpand| ==> toExpand[i] < count
    requires HoldsGraph(src.adjReader.file, src.adjLayout, p.adj)
    requires forall i :: 0 <= i < |toExpand| ==> Serves(got, src, toExpand[i])
    ensures neighborIds == Unseen(p, Elements(toExpand), visited) && marked == visited + neighborIds
  {
    hide HoldsGraph, Serves;
    marked, neighborIds := visited, {};
    var i := 0;
    while i < |toExpand|
      invariant i <= |toExpand|
      invariant neighborIds == Unseen(p, Elements(toExpand[..i]), visited) && marked == visited + neighborIds
    {
      var u := toExpand[i];
      HasLayout(src, p.adj);
      marked, neighborIds := CollectOne(src, got, count, u, visited, marked, neighborIds, p);
      UnseenStep(p, toExpand, i, visited);
      i := i + 1;
    }
    assert toExpand[..i] == toExpand;
  }

  lemma {:induction false} HasLayout(src: Source, adj: seq<seq<nat>>)
    requires HoldsGraph(src.adjReader.file, src.adjLayout, adj)
    ensures src.adjLayout.Valid()
  {}

  lemma {:induction false} UnseenStep(p: Problem, q: seq<nat>, i: nat, visited: set<nat>)
    requires i < |q|
    ensures Unseen(p, Elements(q[..i + 1]), visited)
         == Unseen(p, Elements(q[..i]), visited) + Unseen(p, {q[i]}, visited)
  {
    assert q[..i + 1][..i] == q[..i];
    assert Elements(q[..i + 1]) == Elements(q[..i]) + {q[i]};
    hide Elements;
    forall v | v in Nodes(p.count)
      ensures HasNeighbour(p, Elements(q[..i + 1]), v)
          <==> HasNeighbour(p, Elements(q[..i]), v) || HasNeighbour(p, {q[i]}, v)
    {
    }
  }

  /** The adjacency list of one expanded node. */
  method CollectOne(src: Source, got: PageReaders.Pages, count: nat, u: nat, visited: set<nat>, marked0: set<nat>,
                    ids0: set<nat>, ghost p: Problem) returns (marked: set<nat>, ids: set<nat>)
    requires WellFormed(p) && p.count == count && u < count && marked0 == visited + ids0
    requires HoldsGraph(src.adjReader.file, src.adjLayout, p.adj) && Serves(got, src, u)
    ensures ids == ids0 + Unseen(p, {u}, visited) && marked == visited + ids
  {
    hide HoldsGraph, Serves;
    marked, ids := marked0, ids0;
    HasLayout(src, p.adj);
    var arr := ReadList(src, got, u, p.adj);
    var j := 0;
    while j < |arr|
      invariant j <= |arr| && marked == visited + ids
      invariant ids == ids0 + Listed(p, arr[..j], visited)
    {
      var nb := arr[j];
      assert arr[..j + 1] == arr[..j] + [nb];
      if nb < count && nb !in marked {
        marked, ids := marked + {nb}, ids + {nb};
      }
      j := j + 1;
    }
    assert arr[..j] == arr;
    assert Listed(p, arr, visited) == Unseen(p, {u}, visited);
  }

  function Listed(p: Problem, arr: seq<nat>, visited: set<nat>): set<nat> {
    set v | v in Nodes(p.count) && v !in visited && v in arr
  }

  /** The gate over a sorted batch of ids. */
  method ApplyGate(s: Settings, results: set<Entry>, unseen: set<nat>, ghost p: Problem) returns (gateIds: seq<nat>)
    requires WellFormed(p) && p == s.On(p.adj, p.dist) && results != {} && unseen <= Nodes(s.count)
    ensures gateIds == Sorted(Kept(p, results, unseen))
  {
    hide Sorted;
    var root := PeekLeast(results);
    if s.gate.Gate? && |results| >= s.L {
      var kth := -root.key;
      var keep := set v | v in unseen && s.est[v] <= kth * s.gate.epsilon0;
      assert keep == Kept(p, results, unseen);
      gateIds := Sort(keep);
    } else {
      gateIds := Sort(unseen);
    }
  }

  /** These are the distances of these nodes. */
  predicate Scored(p: Problem, ids: seq<nat>, dist: seq<real>) {
    |dist| == |ids| && forall j :: 0 <= j < |ids| ==> ids[j] < |p.dist| && dist[j] == p.dist[ids[j]]
  }

  /** Push one scored node. */
  method Push(L: nat, results0: set<Entry>, frontier0: set<Entry>, nid: nat, d: real, ghost p: Problem)
    returns (results: set<Entry>, frontier: set<Entry>)
    requires WellFormed(p) && p.L == L && results0 != {} && nid < p.count && d == p.dist[nid]
    ensures (results, frontier) == PushOne(p, (results0, frontier0), nid) && results != {}
  {
    results, frontier := results0, frontier0;
    var root := PeekLeast(results);
    if d < -root.key || |results| < L {
      frontier := frontier + {Entry(d, nid)};
    }
    if |results| < L {
      results := results + {Entry(-d, nid)};
    } else if d < -root.key {
      results := results - {root} + {Entry(-d, nid)};
    }
  }

  lemma {:induction false} PushNext(p: Problem, heaps: (set<Entry>, set<Entry>), ids: seq<nat>, j: nat)
    requires WellFormed(p) && heaps.0 != {} && Within(ids, Nodes(p.count)) && j < |ids|
    ensures ids[j] < p.count && Within(ids[..j], Nodes(p.count)) && Within(ids[..j + 1], Nodes(p.count))
    ensures PushAll(p, heaps, ids[..j + 1]) == PushOne(p, PushAll(p, heaps, ids[..j]), ids[j])
  {
    hide PushOne;
    assert ids[j] in Nodes(p.count);
    assert ids[..j + 1][..j] == ids[..j];
  }

  /** Push the scored nodes. */
  method PushLoop(L: nat, results0: set<Entry>, frontier0: set<Entry>, ids: seq<nat>, dist: seq<real>, ghost p: Problem)
    returns (results: set<Entry>, frontier: set<Entry>)
    requires WellFormed(p) && p.L == L && results0 != {} && Within(ids, Nodes(p.count)) && Scored(p, ids, dist)
    ensures (results, frontier) == PushAll(p, (results0, frontier0), ids)
  {
    results, frontier := results0, frontier0;
    assert PushAll(p, (results0, frontier0), []) == (results0, frontier0);
    hide PushAll, PushOne;
    assert ids[..0] == [];
    var j := 0;
    while j < |ids|
      invariant j <= |ids| && results != {}
      invariant (results, frontier) == PushAll(p, (results0, frontier0), ids[..j])
    {
      PushNext(p, (results0, frontier0), ids, j);
      results, frontier := Push(L, results, frontier, ids[j], dist[j], p);
      j := j + 1;
    }
    assert ids[..j] == ids;
  }

  /** The k entries with the largest keys, largest first. */
  predicate IsTopK(pool: set<Entry>, k: nat, top: seq<Entry>) {
    && |top| == (if k < |pool| then k else |pool|)
    && (forall i :: 0 <= i < |top| ==> top[i] in pool)
    && (forall i, j :: 0 <= i < j < |top| ==> top[i] != top[j] && top[i].key >= top[j].key)
    && (forall e, i :: e in pool && e !in top && 0 <= i < |top| ==> e.key <= top[i].key)
  }

  /** `top` lists, largest first, entries no smaller than the rest of the pool. */
  ghost predicate Taken(pool: set<Entry>, rest: set<Entry>, top: seq<Entry>) {
    && |top| + |rest| == |pool| && rest <= pool
    && (forall e :: e in pool <==> e in top || e in rest)
    && (forall i :: 0 <= i < |top| ==> top[i] !in rest)
    && (forall e, i :: e in rest && 0 <= i < |top| ==> e.key <= top[i].key)
    && (forall i, j :: 0 <= i < j < |top| ==> top[i] != top[j] && top[i].key >= top[j].key)
  }

  lemma {:induction false} Append(pool: set<Entry>, rest: set<Entry>, top: seq<Entry>, e: Entry)
    requires Taken(pool, rest, top) && IsGreatest(e, rest)
    ensures Taken(pool, rest - {e}, top + [e])
  {}

  /** `heapq.nlargest(k, pool, key=...)`; equal keys come in any order. */
  method NLargest(pool: set<Entry>, k: nat) returns (top: seq<Entry>)
    ensures IsTopK(pool, k, top)
  {
    top := [];
    var rest := pool;
    while |top| < k && rest != {}
      invariant Taken(pool, rest, top) && |top| <= k
      decreases |rest|
    {
      var e := PeekGreatest(rest);
      Append(pool, rest, top, e);
      top := top + [e];
      rest := rest - {e};
    }
  }

  /** The search solves problem p with the files and caches of `src`. */
  ghost predicate Poses(src: Source, s: Settings, p: Problem) {
    WellFormed(p) && p == s.On(p.adj, p.dist) && src.Holds(p.adj, p.dist)
  }

  /** The heaps as `disk_search` fills them before its loop. */
  method Begin(src: Source, s: Settings, entry: nat, ghost p: Problem, ghost disk: PageReaders.Disk)
    returns (results: set<Entry>, frontier: set<Entry>, visited: set<nat>)
    requires src.Ready(disk) && Poses(src, s, p) && entry < p.count
    modifies src.Frame()
    ensures src.Ready(disk)
    ensures Typed(p, Start(p, entry)) && Run(p, Start(p, entry)) == BeamSearch.Search(p, entry)
    ensures var st := Start(p, entry);
      results == st.results && frontier == st.frontier && visited == st.visited && |st.evaluated| == 1
  {
    hide Run, Step, Typed, Unvisited, Waiting, Source.Ready, Source.Holds;
    var entryDist := ScoreBatch(src, [entry], p.adj, p.dist, disk);
    results, frontier := {Entry(-entryDist[0], entry)}, {Entry(entryDist[0], entry)};
    visited := {entry};
    StartTyped(p, entry);
  }

  /** The main loop of `disk_search`, with `max_expansions = 0`. */
  method MainLoop(src: Source, s: Settings, entry: nat, ghost p: Problem, ghost disk: PageReaders.Disk)
    returns (results: set<Entry>, visited: set<nat>, evals: nat)
    requires src.Ready(disk) && Poses(src, s, p) && entry < p.count
    modifies src.Frame()
    ensures src.Ready(disk)
    ensures var end := BeamSearch.Search(p, entry);
      results == end.results && visited == end.visited && evals == |end.evaluated|
  {
    hide Run, Step, Typed, Unvisited, Waiting, BeamSearch.Search, WellFormed, Start, Source.Ready, Source.Holds;
    var frontier;
    results, frontier, visited := Begin(src, s, entry, p, disk);
    evals := 1;
    ghost var st := Start(p, entry);
    while frontier != {}
      invariant src.Ready(disk) && Typed(p, st) && Run(p, st) == BeamSearch.Search(p, entry)
      invariant results == st.results && frontier == st.frontier && visited == st.visited
      invariant evals == |st.evaluated|
      decreases Unvisited(p, st), Waiting(st)
    {
      StepProgress(p, st);
      RunUnfold(p, st);
      var added;
      results, frontier, visited, added := Iteration(src, s, results, frontier, visited, st, p, disk);
      evals := evals + added;
      st := Step(p, st);
    }
    RunUnfold(p, st);
  }

  /** `disk_search` with `max_expansions = 0` and `rerank = 0`. Whatever coherent caches hold, and however reads are
      coalesced and pages reused, the answer is that of the search over the lists and distances in the files. */
  method Search(src: Source, s: Settings, entry: nat, k: nat, ghost p: Problem, ghost disk: PageReaders.Disk)
    returns (top: seq<Entry>, visitedNodes: nat, evals: nat)
    requires src.Ready(disk) && Poses(src, s, p) && entry < p.count
    modifies src.Frame()
    ensures src.Ready(disk)
    ensures var end := BeamSearch.Search(p, entry);
      && IsTopK(end.results, k, top) && visitedNodes == |end.visited| && evals == |end.evaluated|
      && forall v :: v in end.evaluated <==> IsScored(p, entry, v)
  {
    ScoredExactly(p, entry);
    hide BeamSearch.Search, IsTopK, IsScored, Source.Ready, Poses;
    var results, visited;
    results, visited, evals := MainLoop(src, s, entry, p, disk);
    visitedNodes := |visited|;
    top := NLargest(results, k);
  }

  /** With room for every reachable node, the answer is the k nearest reachable nodes: nothing
      reachable and left out is nearer than anything returned. */
  lemma {:induction false} WideSearchTopK(p: Problem, entry: nat, k: nat, top: seq<Entry>)
    requires WellFormed(p) && entry < p.count && p.gate.NoGate? && |ReachableSet(p, entry)| <= p.L
    requires IsTopK(BeamSearch.Search(p, entry).results, k, top)
    ensures |top| == if k < |ReachableSet(p, entry)| then k else |ReachableSet(p, entry)|
    ensures forall i :: 0 <= i < |top| ==>
      top[i].id in ReachableSet(p, entry) && top[i].id < p.count && top[i].key == -p.dist[top[i].id]
    ensures forall i, j :: 0 <= i < j < |top| ==> top[i].id != top[j].id
    ensures forall v, i :: v in ReachableSet(p, entry) && v < p.count && ResultOf(p, v) !in top && 0 <= i < |top| ==>
      p.dist[v] >= -top[i].key
  {
    WideBeamExact(p, entry);
    hide BeamSearch.Search, ReachableSet;
    var all, results := ReachableSet(p, entry), BeamSearch.Search(p, entry).results;
    NoMoreResults(p, results, all);
    NoFewerResults(p, results, all);
    forall i, j | 0 <= i < j < |top| ensures top[i].id != top[j].id {
      assert top[i] == ResultOf(p, top[i].id) && top[j] == ResultOf(p, top[j].id);
    }
  }

  lemma {:induction false} NoFewerResults(p: Problem, results: set<Entry>, ids: set<nat>)
    requires WellFormed(p) && forall v :: v in ids ==> v < p.count && ResultOf(p, v) in results
    ensures |ids| <= |results|
    decreases |ids|
  {
    if ids == {} {
    } else {
      var v :| v in ids;
      NoFewerResults(p, results - {ResultOf(p, v)}, ids - {v});
    }
  }

  lemma {:induction false} RunUnfold(p: Problem, st: State)
    requires Typed(p, st)
    ensures st.frontier == {} ==> Run(p, st) == st
    ensures st.frontier != {} ==> Typed(p, Step(p, st)) && Run(p, st) == Run(p, Step(p, st))
  {
    StepTyped(p, st);
    hide Step, Typed;
  }

  /** Read the lists of the nodes to expand, if any, and visit their neighbours. */
  method Expand(src: Source, count: nat, toExpand: seq<nat>, visited0: set<nat>, ghost p: Problem,
                ghost disk: PageReaders.Disk)
    returns (visited: set<nat>, neighborIds: set<nat>)
    requires src.Ready(disk) && WellFormed(p) && p.count == count && src.Holds(p.adj, p.dist)
    requires forall i :: 0 <= i < |toExpand| ==> toExpand[i] < count
    modifies src.Frame()
    ensures src.Ready(disk)
    ensures neighborIds == Unseen(p, Elements(toExpand), visited0) && visited == visited0 + neighborIds
  {
    hide Source.Ready, HoldsGraph, HoldsScores, Serves, Unseen, Elements;
    var got: PageReaders.Pages := map[];
    if toExpand != [] {
      got := FetchLists(src, toExpand, p.adj, p.dist, disk);
    }
    visited, neighborIds := Collect(src, got, count, toExpand, visited0, p);
  }

  /** Read and score the nodes that passed the gate, if any. */
  method Score(src: Source, ids: seq<nat>, ghost p: Problem, ghost disk: PageReaders.Disk) returns (dist: seq<real>)
    requires src.Ready(disk) && WellFormed(p) && src.Holds(p.adj, p.dist) && Within(ids, Nodes(p.count))
    modifies src.Frame()
    ensures src.Ready(disk) && Scored(p, ids, dist)
  {
    hide Source.Ready, Source.Holds;
    dist := [];
    if ids != [] {
      dist := ScoreBatch(src, ids, p.adj, p.dist, disk);
    }
  }

  /** The neighbours from the gate to the heaps. */
  method Admit(src: Source, s: Settings, results0: set<Entry>, frontier0: set<Entry>, unseen: set<nat>,
               ghost p: Problem, ghost disk: PageReaders.Disk)
    returns (results: set<Entry>, frontier: set<Entry>, added: nat)
    requires src.Ready(disk) && Poses(src, s, p) && results0 != {} && unseen <= Nodes(p.count)
    modifies src.Frame()
    ensures src.Ready(disk)
    ensures var ids := Sorted(Kept(p, results0, unseen));
      Within(ids, Nodes(p.count)) && added == |ids| && (results, frontier) == PushAll(p, (results0, frontier0), ids)
  {
    hide Source.Ready, Source.Holds, Kept, Sorted, PushAll, Scored;
    var gateIds := ApplyGate(s, results0, unseen, p);
    SortedWithin(Kept(p, results0, unseen), Nodes(p.count));
    var dist := Score(src, gateIds, p, disk);
    results, frontier := PushLoop(s.L, results0, frontier0, gateIds, dist, p);
    added := |gateIds|;
  }

  lemma {:induction false} PoppedInRange(p: Problem, st: State, toExpand: seq<nat>, frontier: set<Entry>)
    requires Typed(p, st) && PopBatch(st.results, p.L, st.frontier, p.beam) == (Elements(toExpand), frontier)
    ensures forall i :: 0 <= i < |toExpand| ==> toExpand[i] < p.count
  {
    PopBatchTyped(p, st.results, st.frontier, p.beam, st.visited);
    hide PopBatch;
    forall i | 0 <= i < |toExpand| ensures toExpand[i] < p.count {
      assert toExpand[i] in Elements(toExpand);
    }
  }

  /** What one step makes of what the loops computed. */
  lemma {:induction false} StepIs(p: Problem, st: State, batch: set<nat>, frontier: set<Entry>, unseen: set<nat>,
                                  ids: seq<nat>, heaps: (set<Entry>, set<Entry>))
    requires Typed(p, st) && PopBatch(st.results, p.L, st.frontier, p.beam) == (batch, frontier)
    requires unseen == Unseen(p, batch, st.visited) && ids == Sorted(Kept(p, st.results, unseen))
    requires Within(ids, Nodes(p.count)) && heaps == PushAll(p, (st.results, frontier), ids)
    ensures var next := Step(p, st);
      next.results == heaps.0 && next.frontier == heaps.1 && next.visited == st.visited + unseen && heaps.0 != {}
      && |next.evaluated| == |st.evaluated| + |ids|
  {
    hide PopBatch, PushAll;
    var kept := Kept(p, st.results, unseen);
    assert kept !! st.evaluated;
    assert |st.evaluated + kept| == |st.evaluated| + |kept|;
  }

  /** The body of the main loop. */
  method Iteration(src: Source, s: Settings, results0: set<Entry>, frontier0: set<Entry>, visited0: set<nat>,
                   ghost st: State, ghost p: Problem, ghost disk: PageReaders.Disk)
    returns (results: set<Entry>, frontier: set<Entry>, visited: set<nat>, added: nat)
    requires src.Ready(disk) && Poses(src, s, p)
    requires Typed(p, st) && results0 == st.results && frontier0 == st.frontier && visited0 == st.visited
    modifies src.Frame()
    ensures src.Ready(disk)
    ensures var next := Step(p, st);
            && results == next.results && frontier == next.frontier && visited == next.visited && results != {}
            && |next.evaluated| == |st.evaluated| + added
  {
    assert results0 != {};
    hide Source.Ready, Source.Holds, PopBatch, Unseen, Kept, Sorted, PushAll, Step, Typed, Elements, Within;
    var toExpand;
    toExpand, frontier := PopLoop(results0, s.L, frontier0, s.beam);
    PoppedInRange(p, st, toExpand, frontier);
    ghost var popped := frontier;
    var neighborIds;
    visited, neighborIds := Expand(src, s.count, toExpand, visited0, p, disk);
    UnseenInRange(p, Elements(toExpand), visited0);
    ghost var ids := Sorted(Kept(p, results0, neighborIds));
    results, frontier, added := Admit(src, s, results0, frontier, neighborIds, p, disk);
    StepIs(p, st, Elements(toExpand), popped, neighborIds, ids, (results, frontier));
  }

  lemma {:induction false} UnseenInRange(p: Problem, batch: set<nat>, visited: set<nat>)
    ensures Unseen(p, batch, visited) <= Nodes(p.count)
  {}

  lemma {:induction false} SortedWithin(ids: set<nat>, all: set<nat>)
    requires ids <= all
    ensures Within(Sorted(ids), all)
  {}
}
