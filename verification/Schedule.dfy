/** `_work_items`: the runs of an experiment, in an order that rotates the methods. */
module Schedule {
  import opened Arith
  import opened Contract

  // --- Rotation -------------------------------------------------------------------------------------------

  /** `specs[shift:] + specs[:shift]` */
  function Rotated(specs: seq<Spec>, shift: nat): (r: seq<Spec>)
    requires shift < |specs|
    ensures |r| == |specs|
    ensures forall s :: s in r <==> s in specs
  {
    var r := specs[shift..] + specs[..shift];
    assert specs == specs[..shift] + specs[shift..];
    r
  }

  /** The one turn, among n in a row from `start`, at which position p holds number m. */
  function Turn(n: nat, start: nat, p: nat, m: nat): (j: nat)
    requires p < n && m < n
    ensures j < n
  {
    var r := (p + start) % n;
    if m >= r then m - r else m + n - r
  }

  lemma {:induction false} TurnExact(n: nat, start: nat, p: nat, m: nat, j: nat)
    requires p < n && m < n && j < n
    ensures (p + start + j) % n == m <==> j == Turn(n, start, p, m)
  {
    var c := p + start;
    var q, r := c / n, c % n;
    assert c == q * n + r;
    MulAdd(q, 1, n);
    if r + j < n {
      DivModUnique(q, r + j, n);
    } else {
      DivModUnique(q + 1, r + j - n, n);
    }
  }

  lemma {:induction false} ModTwice(p: nat, s: nat, n: nat)
    requires n > 0 && p < n
    ensures (p + s % n) % n == (p + s) % n
  {
    var q, r := s / n, s % n;
    assert s == q * n + r;
    MulAdd(q, 1, n);
    if p + r < n {
      DivModUnique(q, p + r, n);
      DivModUnique(0, p + r, n);
    } else {
      DivModUnique(q + 1, p + r - n, n);
      DivModUnique(1, p + r - n, n);
    }
  }

  lemma {:induction false} RotatedAt(specs: seq<Spec>, shift: nat, p: nat)
    requires shift < |specs| && p < |specs|
    ensures (p + shift) % |specs| < |specs| && Rotated(specs, shift)[p] == specs[(p + shift) % |specs|]
  {
    var n := |specs|;
    if p + shift < n {
      DivModUnique(0, p + shift, n);
    } else {
      DivModUnique(1, p + shift - n, n);
    }
  }

  /** In any n turns in a row, each of n methods is in each position exactly once. */
  lemma {:induction false} LatinSquare(specs: seq<Spec>, start: nat, p: nat, m: nat, j: nat)
    requires DistinctNames(specs) && p < |specs| && m < |specs| && j < |specs|
    ensures (start + j) % |specs| < |specs|
    ensures Rotated(specs, (start + j) % |specs|)[p] == specs[m] <==> j == Turn(|specs|, start, p, m)
  {
    var n := |specs|;
    RotatedAt(specs, (start + j) % n, p);
    ModTwice(p, start + j, n);
    TurnExact(n, start, p, m, j);
    var at := (p + start + j) % n;
    assert Rotated(specs, (start + j) % n)[p] == specs[at];
    assert specs[at] == specs[m] <==> at == m;
  }

  lemma {:induction false} ModShift(q: nat, x: nat, n: nat)
    requires n > 0
    ensures 0 <= q * n + x && (q * n + x) % n == x % n
  {
    var a, b := x / n, x % n;
    assert x == a * n + b;
    MulAdd(q, a, n);
    DivModUnique(q + a, b, n);
  }

  lemma {:induction false} ModSum(r: nat, w: nat, n: nat)
    requires n > 0
    ensures (r + w) % n == (r + w % n) % n
  {
    var q, x := w / n, w % n;
    assert w == q * n + x;
    ModShift(q, r + x, n);
  }

  /** The first pass of a repeat goes on where the last pass of the repeat before it stopped exactly when, modulo the
      number of methods, there is one number of workers. */
  lemma {:induction false} GoesOnIff(specs: seq<Spec>, r: nat, workers: nat)
    requires DistinctNames(specs) && specs != [] && workers > 0
    ensures (r + 1) % |specs| < |specs| && (r + workers) % |specs| < |specs|
    ensures Rotated(specs, (r + 1) % |specs|) == Rotated(specs, (r + workers) % |specs|)
      <==> workers % |specs| == 1 % |specs|
  {
    var n := |specs|;
    var m := (r + 1) % n;
    ModSum(r, 1, n);
    ModSum(r, workers, n);
    TurnExact(n, r, 0, m, 1 % n);
    TurnExact(n, r, 0, m, workers % n);
    var other := (r + workers) % n;
    if m != other {
      assert Rotated(specs, m)[0] == specs[m] && Rotated(specs, other)[0] == specs[other];
      assert specs[m] != specs[other];
    }
  }

  lemma {:induction false} RotatedDistinct(specs: seq<Spec>, shift: nat)
    requires DistinctNames(specs) && shift < |specs|
    ensures DistinctNames(Rotated(specs, shift))
  {
    var r, n := Rotated(specs, shift), |specs|;
    forall i, j | 0 <= i < j < n ensures r[i].name != r[j].name {
      var a := if i + shift < n then i + shift else i + shift - n;
      var b := if j + shift < n then j + shift else j + shift - n;
      assert r[i] == specs[a] && r[j] == specs[b] && a != b;
    }
  }

  // --- The items of one pass ------------------------------------------------------------------------------

  /** One pass over the methods: a repeat and a setting, and where the rotation stands. */
  datatype Pass = Pass(repeat: nat, workers: nat, budget: real, cache: Cache, shift: nat)

  predicate InPass(w: WorkItem, pass: Pass) {
    w.repeat == pass.repeat && w.workers == pass.workers && w.budget == pass.budget && w.cache == pass.cache
  }

  predicate NoRepeats(items: seq<WorkItem>) {
    forall i, j :: 0 <= i < j < |items| ==> items[i] != items[j]
  }

  /** The items of one method: its modes, those selected. */
  function ModeItems(spec: Spec, modes: seq<Mode>, selected: set<Mode>, pass: Pass): (items: seq<WorkItem>)
    ensures forall w :: w in items <==> w.spec == spec && w.mode in modes && w.mode in selected && InPass(w, pass)
    decreases |modes|
  {
    if modes == [] then []
    else
      var front, mode := modes[..|modes| - 1], modes[|modes| - 1];
      assert modes == front + [mode];
      ModeItems(spec, front, selected, pass)
        + if mode in selected then [WorkItem(spec, mode, pass.repeat, pass.workers, pass.budget, pass.cache)] else []
  }

  lemma {:induction false} ModesOnce(spec: Spec, modes: seq<Mode>, selected: set<Mode>, pass: Pass)
    requires DistinctModes(modes)
    ensures NoRepeats(ModeItems(spec, modes, selected, pass))
    decreases |modes|
  {
    if modes == [] {
    } else {
      var front, mode := modes[..|modes| - 1], modes[|modes| - 1];
      ModesOnce(spec, front, selected, pass);
      var items := ModeItems(spec, front, selected, pass);
      forall i | 0 <= i < |items| ensures items[i].mode != mode {
        assert items[i] in items;
      }
    }
  }

  /** The items of a pass over the methods in this order. */
  function PassItems(ordered: seq<Spec>, selected: set<Mode>, pass: Pass): (items: seq<WorkItem>)
    ensures forall w :: w in items <==>
      w.spec in ordered && w.mode in w.spec.modes && w.mode in selected && InPass(w, pass)
    decreases |ordered|
  {
    if ordered == [] then []
    else
      var front, spec := ordered[..|ordered| - 1], ordered[|ordered| - 1];
      assert ordered == front + [spec];
      PassItems(front, selected, pass) + ModeItems(spec, spec.modes, selected, pass)
  }

  ghost predicate GoodSpecs(specs: seq<Spec>) {
    DistinctNames(specs) && forall i :: 0 <= i < |specs| ==> specs[i].modes != [] && DistinctModes(specs[i].modes)
  }

  lemma {:induction false} JoinOnce(a: seq<WorkItem>, b: seq<WorkItem>)
    requires NoRepeats(a) && NoRepeats(b) && forall w :: !(w in a && w in b)
    ensures NoRepeats(a + b)
  {
    forall i, j | 0 <= i < |a| && 0 <= j < |b| ensures a[i] != b[j] {
      assert a[i] in a && b[j] in b;
    }
  }

  lemma {:induction false} PassOnce(ordered: seq<Spec>, selected: set<Mode>, pass: Pass)
    requires GoodSpecs(ordered)
    ensures NoRepeats(PassItems(ordered, selected, pass))
    decreases |ordered|
  {
    hide NoRepeats, InPass, DistinctModes;
    if ordered == [] {
      OneOrNone();
      return;
    }
    var front, spec := ordered[..|ordered| - 1], ordered[|ordered| - 1];
    PassOnce(front, selected, pass);
    ModesOnce(spec, spec.modes, selected, pass);
    forall w ensures !(w in PassItems(front, selected, pass) && w in ModeItems(spec, spec.modes, selected, pass)) {
      assert spec !in front;
    }
    JoinOnce(PassItems(front, selected, pass), ModeItems(spec, spec.modes, selected, pass));
  }

  lemma {:induction false} OneOrNone()
    ensures NoRepeats([])
  {}

  // --- All passes -----------------------------------------------------------------------------------------

  /** Every pass is turned by less than n. */
  predicate Turned(passes: seq<Pass>, n: nat) {
    forall i :: 0 <= i < |passes| ==> passes[i].shift < n
  }

  function Items(specs: seq<Spec>, selected: set<Mode>, passes: seq<Pass>): (items: seq<WorkItem>)
    requires Turned(passes, |specs|)
    decreases |passes|
  {
    if passes == [] then []
    else
      var pass := passes[|passes| - 1];
      Items(specs, selected, passes[..|passes| - 1]) + PassItems(Rotated(specs, pass.shift), selected, pass)
  }

  lemma {:induction false} ItemsNext(specs: seq<Spec>, selected: set<Mode>, passes: seq<Pass>, pass: Pass)
    requires pass.shift < |specs| && Turned(passes, |specs|)
    ensures Turned(passes + [pass], |specs|)
    ensures Items(specs, selected, passes + [pass])
      == Items(specs, selected, passes) + PassItems(Rotated(specs, pass.shift), selected, pass)
  {
    assert (passes + [pass])[..|passes|] == passes;
  }

  predicate HasPass(passes: seq<Pass>, w: WorkItem) {
    exists i :: 0 <= i < |passes| && InPass(w, passes[i])
  }

  predicate SameSetting(a: Pass, b: Pass) {
    a.repeat == b.repeat && a.workers == b.workers && a.budget == b.budget && a.cache == b.cache
  }

  predicate PassesOnce(passes: seq<Pass>) {
    forall i, j :: 0 <= i < j < |passes| ==> !SameSetting(passes[i], passes[j])
  }

  lemma {:induction false} InItems(specs: seq<Spec>, selected: set<Mode>, passes: seq<Pass>, w: WorkItem)
    requires Turned(passes, |specs|)
    ensures w in Items(specs, selected, passes)
      <==> w.spec in specs && w.mode in w.spec.modes && w.mode in selected && HasPass(passes, w)
    decreases |passes|
  {
    hide InPass, Rotated, PassItems;
    if passes == [] {
      return;
    }
    var front, pass := passes[..|passes| - 1], passes[|passes| - 1];
    InItems(specs, selected, front, w);
    HasPassNext(front, pass, w);
    assert passes == front + [pass];
  }

  lemma {:induction false} HasPassNext(front: seq<Pass>, pass: Pass, w: WorkItem)
    ensures HasPass(front + [pass], w) <==> HasPass(front, w) || InPass(w, pass)
  {
    hide InPass;
    var more := front + [pass];
    assert forall i :: 0 <= i < |front| ==> more[i] == front[i];
    assert more[|front|] == pass;
  }

  lemma {:induction false} ItemsOnce(specs: seq<Spec>, selected: set<Mode>, passes: seq<Pass>)
    requires GoodSpecs(specs) && PassesOnce(passes)
    requires Turned(passes, |specs|)
    ensures NoRepeats(Items(specs, selected, passes))
    decreases |passes|
  {
    hide NoRepeats, DistinctModes;
    if passes == [] {
      OneOrNone();
      return;
    }
    var front, pass := passes[..|passes| - 1], passes[|passes| - 1];
    ItemsOnce(specs, selected, front);
    RotatedGood(specs, pass.shift);
    var ordered := Rotated(specs, pass.shift);
    PassOnce(ordered, selected, pass);
    forall w ensures !(w in Items(specs, selected, front) && w in PassItems(ordered, selected, pass)) {
      InItems(specs, selected, front, w);
      NotTwice(front, pass, w);
    }
    JoinOnce(Items(specs, selected, front), PassItems(ordered, selected, pass));
  }

  lemma {:induction false} NotTwice(front: seq<Pass>, pass: Pass, w: WorkItem)
    requires forall i :: 0 <= i < |front| ==> !SameSetting(front[i], pass)
    ensures !(HasPass(front, w) && InPass(w, pass))
  {}

  lemma {:induction false} RotatedGood(specs: seq<Spec>, shift: nat)
    requires GoodSpecs(specs) && shift < |specs|
    ensures GoodSpecs(Rotated(specs, shift))
  {
    hide DistinctModes, DistinctNames;
    RotatedDistinct(specs, shift);
    var r := Rotated(specs, shift);
    forall i | 0 <= i < |r| ensures r[i].modes != [] && DistinctModes(r[i].modes) {
      assert r[i] in specs;
    }
  }

  // --- The passes of a test run ---------------------------------------------------------------------------

  /** One pass per number of workers, each turned one further. */
  function RepeatPasses(repeat: nat, workers: seq<nat>, n: nat, cache: Cache): (passes: seq<Pass>)
    requires n > 0
    ensures |passes| == |workers|
    ensures forall i :: 0 <= i < |passes| ==> passes[i] == Pass(repeat, workers[i], 2.0, cache, (repeat + i) % n)
    decreases |workers|
  {
    if workers == [] then []
    else
      var last := |workers| - 1;
      RepeatPasses(repeat, workers[..last], n, cache) + [Pass(repeat, workers[last], 2.0, cache, (repeat + last) % n)]
  }

  function PrimaryPasses(repeats: nat, workers: seq<nat>, n: nat, cache: Cache): (passes: seq<Pass>)
    requires n > 0
    ensures Turned(passes, n)
    ensures forall i :: 0 <= i < |passes| ==>
      passes[i].repeat < repeats && passes[i].workers in workers && passes[i].budget == 2.0 && passes[i].cache == cache
    decreases repeats
  {
    if repeats == 0 then []
    else PrimaryPasses(repeats - 1, workers, n, cache) + RepeatPasses(repeats - 1, workers, n, cache)
  }

  function ExtraPasses(repeats: nat, budget: real, cache: Cache, n: nat): (passes: seq<Pass>)
    requires n > 0
    ensures |passes| == repeats
    ensures forall i :: 0 <= i < repeats ==> passes[i] == Pass(i, 1, budget, cache, i % n)
    decreases repeats
  {
    if repeats == 0 then []
    else ExtraPasses(repeats - 1, budget, cache, n) + [Pass(repeats - 1, 1, budget, cache, (repeats - 1) % n)]
  }

  function AllExtras(repeats: nat, n: nat): (passes: seq<Pass>)
    requires n > 0
    ensures Turned(passes, n)
  {
    ExtraPasses(repeats, 1.0, Standard, n) + ExtraPasses(repeats, 4.0, Standard, n) + ExtraPasses(repeats, 2.0, C0, n)
  }

  function TestPasses(layer: Layer, extras: bool, repeats: nat, workers: seq<nat>, n: nat): (passes: seq<Pass>)
    requires n > 0
    ensures Turned(passes, n)
  {
    PrimaryPasses(repeats, workers, n, PrimaryCache(layer)) + if extras then AllExtras(repeats, n) else []
  }

  predicate IsPrimary(w: WorkItem, repeats: nat, workers: seq<nat>, cache: Cache) {
    w.repeat < repeats && w.workers in workers && w.budget == 2.0 && w.cache == cache
  }

  lemma {:induction false} HasJoin(a: seq<Pass>, b: seq<Pass>, w: WorkItem)
    ensures HasPass(a + b, w) <==> HasPass(a, w) || HasPass(b, w)
  {
    hide InPass;
    var all := a + b;
    assert forall i :: 0 <= i < |a| ==> all[i] == a[i];
    assert forall i :: 0 <= i < |b| ==> all[|a| + i] == b[i];
  }

  lemma {:induction false} HasPrimary(repeats: nat, workers: seq<nat>, n: nat, cache: Cache, w: WorkItem)
    requires n > 0
    ensures HasPass(PrimaryPasses(repeats, workers, n, cache), w) <==> IsPrimary(w, repeats, workers, cache)
    decreases repeats
  {
    if repeats == 0 {
      return;
    }
    HasPrimary(repeats - 1, workers, n, cache, w);
    var more := RepeatPasses(repeats - 1, workers, n, cache);
    HasJoin(PrimaryPasses(repeats - 1, workers, n, cache), more, w);
    hide PrimaryPasses, RepeatPasses;
    if w.repeat == repeats - 1 && w.workers in workers && w.budget == 2.0 && w.cache == cache {
      var i :| 0 <= i < |workers| && workers[i] == w.workers;
      assert InPass(w, more[i]);
    }
  }

  lemma {:induction false} HasExtra(repeats: nat, budget: real, cache: Cache, n: nat, w: WorkItem)
    requires n > 0
    ensures HasPass(ExtraPasses(repeats, budget, cache, n), w)
      <==> w.repeat < repeats && w.workers == 1 && w.budget == budget && w.cache == cache
  {
    var passes := ExtraPasses(repeats, budget, cache, n);
    hide ExtraPasses;
    if w.repeat < repeats && w.workers == 1 && w.budget == budget && w.cache == cache {
      assert InPass(w, passes[w.repeat]);
    }
  }

  lemma {:induction false} HasTest(layer: Layer, gist: bool, repeats: nat, workers: seq<nat>, n: nat, w: WorkItem)
    requires n > 0
    ensures HasPass(TestPasses(layer, HasExtras(layer, gist), repeats, workers, n), w)
      <==> NeededFor(w, w.spec, w.mode, layer, gist, repeats, workers)
  {
    hide HasPass, PrimaryPasses, ExtraPasses;
    var primary := PrimaryPasses(repeats, workers, n, PrimaryCache(layer));
    HasPrimary(repeats, workers, n, PrimaryCache(layer), w);
    var low, high, cold :=
      ExtraPasses(repeats, 1.0, Standard, n), ExtraPasses(repeats, 4.0, Standard, n), ExtraPasses(repeats, 2.0, C0, n);
    HasExtra(repeats, 1.0, Standard, n, w);
    HasExtra(repeats, 4.0, Standard, n, w);
    HasExtra(repeats, 2.0, C0, n, w);
    HasJoin(low, high, w);
    HasJoin(low + high, cold, w);
    HasJoin(primary, if HasExtras(layer, gist) then AllExtras(repeats, n) else [], w);
    NoPass(w);
  }

  lemma {:induction false} NoPass(w: WorkItem)
    ensures !HasPass([], w)
  {}

  predicate DistinctWorkers(workers: seq<nat>) {
    forall i, j :: 0 <= i < j < |workers| ==> workers[i] != workers[j]
  }

  lemma {:induction false} JoinPasses(a: seq<Pass>, b: seq<Pass>)
    requires PassesOnce(a) && PassesOnce(b)
    requires forall i, j :: 0 <= i < |a| && 0 <= j < |b| ==> !SameSetting(a[i], b[j])
    ensures PassesOnce(a + b)
  {}

  lemma {:induction false} PrimaryOnce(repeats: nat, workers: seq<nat>, n: nat, cache: Cache)
    requires n > 0 && DistinctWorkers(workers)
    ensures PassesOnce(PrimaryPasses(repeats, workers, n, cache))
    decreases repeats
  {
    if repeats == 0 {
      return;
    }
    PrimaryOnce(repeats - 1, workers, n, cache);
    JoinPasses(PrimaryPasses(repeats - 1, workers, n, cache), RepeatPasses(repeats - 1, workers, n, cache));
  }

  lemma {:induction false} TestOnce(layer: Layer, gist: bool, repeats: nat, workers: seq<nat>, n: nat)
    requires n > 0 && DistinctWorkers(workers)
    ensures PassesOnce(TestPasses(layer, HasExtras(layer, gist), repeats, workers, n))
  {
    var primary := PrimaryPasses(repeats, workers, n, PrimaryCache(layer));
    PrimaryOnce(repeats, workers, n, PrimaryCache(layer));
    var low, high, cold :=
      ExtraPasses(repeats, 1.0, Standard, n), ExtraPasses(repeats, 4.0, Standard, n), ExtraPasses(repeats, 2.0, C0, n);
    hide PrimaryPasses, ExtraPasses;
    JoinPasses(low, high);
    JoinPasses(low + high, cold);
    if HasExtras(layer, gist) {
      JoinPasses(primary, (low + high) + cold);
    } else {
      assert primary + [] == primary;
    }
  }

  // --- The list of runs -----------------------------------------------------------------------------------

  /** The runs of a test: the primary passes, and on GIST, outside fast mode, the extra ones. */
  function TestItems(specs: seq<Spec>, layer: Layer, gist: bool, fast: bool, repeats: nat, workers: seq<nat>,
                     selected: set<Mode>): seq<WorkItem>
    requires specs != []
  {
    Items(specs, selected, TestPasses(layer, HasExtras(layer, gist && !fast), repeats, workers, |specs|))
  }

  /** The runs of any other phase: each method and mode once. */
  function TuningItems(specs: seq<Spec>, layer: Layer, selected: set<Mode>): seq<WorkItem> {
    PassItems(specs, selected, Pass(0, 1, 2.0, PrimaryCache(layer), 0))
  }

  // --- The order of the runs ------------------------------------------------------------------------------

  function Concat<T>(parts: seq<seq<T>>): seq<T>
    decreases |parts|
  {
    if parts == [] then [] else Concat(parts[..|parts| - 1]) + parts[|parts| - 1]
  }

  lemma {:induction false} ConcatNext<T>(parts: seq<seq<T>>, part: seq<T>)
    ensures Concat(parts + [part]) == Concat(parts) + part
  {
    assert (parts + [part])[..|parts|] == parts;
  }

  lemma {:induction false} ConcatJoin<T>(a: seq<seq<T>>, b: seq<seq<T>>)
    ensures Concat(a + b) == Concat(a) + Concat(b)
    decreases |b|
  {
    if b == [] {
      assert a + b == a;
    } else {
      var front, last := b[..|b| - 1], b[|b| - 1];
      ConcatJoin(a, front);
      ConcatNext(a + front, last);
      ConcatNext(front, last);
      assert b == front + [last] && a + b == (a + front) + [last];
      assert (Concat(a) + Concat(front)) + last == Concat(a) + (Concat(front) + last);
    }
  }

  /** The runs of a list of passes, each a list of blocks. */
  function Flat(passes: seq<seq<seq<WorkItem>>>): seq<WorkItem> {
    Concat(Concat(passes))
  }

  function AllPasses(groups: seq<seq<seq<seq<WorkItem>>>>): seq<WorkItem> {
    Flat(Concat(groups))
  }

  /** One run for each of these modes that is selected, in the order of the list. */
  ghost predicate PicksModes(block: seq<WorkItem>, at: seq<nat>, modes: seq<Mode>, selected: set<Mode>) {
    && |at| == |block| && (forall a, b :: 0 <= a < b < |at| ==> at[a] < at[b])
    && (forall i: nat :: i in at <==> i < |modes| && modes[i] in selected)
    && (forall t :: 0 <= t < |at| ==> at[t] < |modes| && block[t].mode == modes[at[t]])
  }

  /** The runs of one method in one setting. */
  ghost predicate IsBlock(block: seq<WorkItem>, spec: Spec, selected: set<Mode>, repeat: nat, workers: nat,
                          budget: real, cache: Cache)
  {
    && (forall t :: 0 <= t < |block| ==> block[t] == WorkItem(spec, block[t].mode, repeat, workers, budget, cache))
    && exists at :: PicksModes(block, at, spec.modes, selected)
  }

  /** One pass over all n methods: position p holds the runs of method (p + turn) mod n. */
  ghost predicate IsTurn(blocks: seq<seq<WorkItem>>, specs: seq<Spec>, selected: set<Mode>, turn: nat, repeat: nat,
                         workers: nat, budget: real, cache: Cache)
  {
    && |blocks| == |specs|
    && forall p :: 0 <= p < |blocks| ==>
      IsBlock(blocks[p], specs[(p + turn) % |specs|], selected, repeat, workers, budget, cache)
  }

  /** The passes of a schedule, one list for each repeat; pass i of repeat r is turned by r + i. */
  ghost predicate Rotates(repeats: seq<seq<seq<seq<WorkItem>>>>, specs: seq<Spec>, selected: set<Mode>,
                          workers: seq<nat>, cache: Cache)
  {
    forall r :: 0 <= r < |repeats| ==> RepeatTurns(repeats[r], specs, selected, r, workers, cache)
  }

  ghost predicate RepeatTurns(passes: seq<seq<seq<WorkItem>>>, specs: seq<Spec>, selected: set<Mode>, r: nat,
                              workers: seq<nat>, cache: Cache)
  {
    && |passes| == |workers|
    && forall i :: 0 <= i < |passes| ==> IsTurn(passes[i], specs, selected, r + i, r, workers[i], 2.0, cache)
  }

  /** The passes of one extra setting: one worker, and the pass of repeat r is turned by r. */
  ghost predicate ExtraTurns(passes: seq<seq<seq<WorkItem>>>, specs: seq<Spec>, selected: set<Mode>, repeats: nat,
                             budget: real, cache: Cache)
  {
    && |passes| == repeats
    && forall r :: 0 <= r < repeats ==> IsTurn(passes[r], specs, selected, r, r, 1, budget, cache)
  }

  /** The list is, one after the other, the passes of every repeat, and then those of the three extra settings. */
  ghost predicate LaidOut(items: seq<WorkItem>, primary: seq<seq<seq<seq<WorkItem>>>>,
                          extra: seq<seq<seq<seq<WorkItem>>>>, specs: seq<Spec>, selected: set<Mode>, extras: bool,
                          repeats: nat, workers: seq<nat>, cache: Cache)
  {
    && items == AllPasses(primary) + AllPasses(extra)
    && |primary| == repeats && Rotates(primary, specs, selected, workers, cache)
    && |extra| == (if extras then 3 else 0)
    && (extras ==> ExtraTurns(extra[0], specs, selected, repeats, 1.0, Standard)
                   && ExtraTurns(extra[1], specs, selected, repeats, 4.0, Standard)
                   && ExtraTurns(extra[2], specs, selected, repeats, 2.0, C0))
  }

  lemma {:induction false} PickedNext(block: seq<WorkItem>, at: seq<nat>, front: seq<Mode>, mode: Mode,
                                      selected: set<Mode>, w: WorkItem)
    requires PicksModes(block, at, front, selected) && w.mode == mode
    ensures mode in selected ==> PicksModes(block + [w], at + [|front|], front + [mode], selected)
    ensures mode !in selected ==> PicksModes(block, at, front + [mode], selected)
  {
    var modes, more := front + [mode], at + [|front|];
    assert forall a :: 0 <= a < |at| ==> at[a] in at;
    assert forall i: nat :: i in more <==> i in at || i == |front|;
  }

  lemma {:induction false} NonePicked(spec: Spec, selected: set<Mode>, pass: Pass)
    ensures PicksModes(ModeItems(spec, [], selected, pass), [], [], selected)
  {}

  lemma {:induction false} ModeItemsNext(spec: Spec, front: seq<Mode>, mode: Mode, selected: set<Mode>, pass: Pass)
    ensures ModeItems(spec, front + [mode], selected, pass)
      == if mode in selected
         then ModeItems(spec, front, selected, pass)
              + [WorkItem(spec, mode, pass.repeat, pass.workers, pass.budget, pass.cache)]
         else ModeItems(spec, front, selected, pass)
  {
    assert (front + [mode])[..|front|] == front;
  }

  lemma {:induction false} ModesPicked(spec: Spec, modes: seq<Mode>, selected: set<Mode>, pass: Pass)
    returns (at: seq<nat>)
    ensures PicksModes(ModeItems(spec, modes, selected, pass), at, modes, selected)
    decreases |modes|
  {
    hide PicksModes, ModeItems;
    at := [];
    if modes == [] {
      NonePicked(spec, selected, pass);
    } else {
      var front, mode := modes[..|modes| - 1], modes[|modes| - 1];
      at := ModesPicked(spec, front, selected, pass);
      var w := WorkItem(spec, mode, pass.repeat, pass.workers, pass.budget, pass.cache);
      PickedNext(ModeItems(spec, front, selected, pass), at, front, mode, selected, w);
      ModeItemsNext(spec, front, mode, selected, pass);
      assert modes == front + [mode];
      if mode in selected {
        at := at + [|front|];
      }
    }
  }

  lemma {:induction false} ModesBlock(spec: Spec, selected: set<Mode>, pass: Pass)
    ensures IsBlock(ModeItems(spec, spec.modes, selected, pass), spec, selected, pass.repeat, pass.workers, pass.budget,
                    pass.cache)
  {
    var at := ModesPicked(spec, spec.modes, selected, pass);
    hide PicksModes;
    var items := ModeItems(spec, spec.modes, selected, pass);
    assert forall t :: 0 <= t < |items| ==> items[t] in items;
  }

  /** A pass as one block for each method. */
  lemma {:induction false} PassBlocks(ordered: seq<Spec>, selected: set<Mode>, pass: Pass)
    returns (blocks: seq<seq<WorkItem>>)
    ensures |blocks| == |ordered| && Concat(blocks) == PassItems(ordered, selected, pass)
    ensures forall p :: 0 <= p < |blocks| ==>
      blocks[p] == ModeItems(ordered[p], ordered[p].modes, selected, pass)
    decreases |ordered|
  {
    blocks := [];
    if ordered == [] {
    } else {
      var front, spec := ordered[..|ordered| - 1], ordered[|ordered| - 1];
      var before := PassBlocks(front, selected, pass);
      ConcatNext(before, ModeItems(spec, spec.modes, selected, pass));
      blocks := before + [ModeItems(spec, spec.modes, selected, pass)];
    }
  }

  lemma {:induction false} PassTurn(specs: seq<Spec>, selected: set<Mode>, pass: Pass, turn: nat)
    returns (blocks: seq<seq<WorkItem>>)
    requires specs != [] && pass.shift == turn % |specs|
    ensures Concat(blocks) == PassItems(Rotated(specs, pass.shift), selected, pass)
    ensures IsTurn(blocks, specs, selected, turn, pass.repeat, pass.workers, pass.budget, pass.cache)
  {
    hide IsBlock, ModeItems, PassItems;
    var ordered, n := Rotated(specs, pass.shift), |specs|;
    blocks := PassBlocks(ordered, selected, pass);
    forall p | 0 <= p < n
      ensures IsBlock(blocks[p], specs[(p + turn) % n], selected, pass.repeat, pass.workers, pass.budget, pass.cache)
    {
      RotatedAt(specs, pass.shift, p);
      ModTwice(p, turn, n);
      ModesBlock(ordered[p], selected, pass);
    }
  }

  lemma {:induction false} ItemsJoin(specs: seq<Spec>, selected: set<Mode>, a: seq<Pass>, b: seq<Pass>)
    requires Turned(a, |specs|) && Turned(b, |specs|)
    ensures Turned(a + b, |specs|)
    ensures Items(specs, selected, a + b) == Items(specs, selected, a) + Items(specs, selected, b)
    decreases |b|
  {
    if b == [] {
      assert a + b == a;
      NoItems(specs, selected);
    } else {
      var front, last := b[..|b| - 1], b[|b| - 1];
      assert Turned(front, |specs|) && last.shift < |specs|;
      hide Items, PassItems, Turned, Rotated;
      assert b == front + [last] && a + b == (a + front) + [last];
      ItemsJoin(specs, selected, a, front);
      ItemsNext(specs, selected, a + front, last);
      ItemsNext(specs, selected, front, last);
      JoinThree(Items(specs, selected, a), Items(specs, selected, front),
                PassItems(Rotated(specs, last.shift), selected, last));
    }
  }

  lemma {:induction false} JoinThree<T>(a: seq<T>, b: seq<T>, c: seq<T>)
    ensures (a + b) + c == a + (b + c)
  {}

  lemma {:induction false} FlatNext(passes: seq<seq<seq<WorkItem>>>, blocks: seq<seq<WorkItem>>)
    ensures Flat(passes + [blocks]) == Flat(passes) + Concat(blocks)
  {
    ConcatNext(passes, blocks);
    ConcatJoin(Concat(passes), blocks);
  }

  lemma {:induction false} AllNext(groups: seq<seq<seq<seq<WorkItem>>>>, passes: seq<seq<seq<WorkItem>>>)
    ensures AllPasses(groups + [passes]) == AllPasses(groups) + Flat(passes)
  {
    ConcatNext(groups, passes);
    ConcatJoin(Concat(groups), passes);
    ConcatJoin(Concat(Concat(groups)), Concat(passes));
  }

  lemma {:induction false} NoGroups()
    ensures AllPasses([]) == []
  {}

  lemma {:induction false} NoPasses()
    ensures Flat([]) == []
  {}

  lemma {:induction false} RepeatNext(before: seq<seq<seq<WorkItem>>>, blocks: seq<seq<WorkItem>>, specs: seq<Spec>,
                                      selected: set<Mode>, r: nat, workers: seq<nat>, w: nat, cache: Cache)
    requires RepeatTurns(before, specs, selected, r, workers, cache)
    requires IsTurn(blocks, specs, selected, r + |workers|, r, w, 2.0, cache)
    ensures RepeatTurns(before + [blocks], specs, selected, r, workers + [w], cache)
  {
    hide IsTurn;
  }

  lemma {:induction false} PassesNext(r: nat, workers: seq<nat>, w: nat, n: nat, cache: Cache)
    requires n > 0
    ensures RepeatPasses(r, workers + [w], n, cache)
         == RepeatPasses(r, workers, n, cache) + [Pass(r, w, 2.0, cache, (r + |workers|) % n)]
  {
    assert (workers + [w])[..|workers|] == workers;
  }

  lemma {:induction false} RepeatInOrder(specs: seq<Spec>, selected: set<Mode>, r: nat, workers: seq<nat>, cache: Cache)
    returns (turns: seq<seq<seq<WorkItem>>>)
    requires specs != []
    ensures RepeatTurns(turns, specs, selected, r, workers, cache)
    ensures Flat(turns) == Items(specs, selected, RepeatPasses(r, workers, |specs|, cache))
    decreases |workers|
  {
    hide IsTurn, Flat, Concat, PassItems, Rotated;
    turns := [];
    if workers == [] {
      NoPasses();
    } else {
      var front, i, n := workers[..|workers| - 1], |workers| - 1, |specs|;
      var before := RepeatInOrder(specs, selected, r, front, cache);
      var pass := Pass(r, workers[i], 2.0, cache, (r + i) % n);
      var blocks := PassTurn(specs, selected, pass, r + i);
      assert workers == front + [workers[i]];
      hide RepeatTurns, Items, RepeatPasses;
      turns := before + [blocks];
      RepeatNext(before, blocks, specs, selected, r, front, workers[i], cache);
      FlatNext(before, blocks);
      PassesNext(r, front, workers[i], n, cache);
      ItemsNext(specs, selected, RepeatPasses(r, front, n, cache), pass);
    }
  }

  lemma {:induction false} PrimaryNext(before: seq<seq<seq<seq<WorkItem>>>>, turns: seq<seq<seq<WorkItem>>>,
                                       specs: seq<Spec>, selected: set<Mode>, workers: seq<nat>, cache: Cache)
    requires Rotates(before, specs, selected, workers, cache)
    requires RepeatTurns(turns, specs, selected, |before|, workers, cache)
    ensures Rotates(before + [turns], specs, selected, workers, cache)
  {
    hide RepeatTurns;
  }

  lemma {:induction false} PrimaryItems(specs: seq<Spec>, selected: set<Mode>, repeats: nat, workers: seq<nat>,
                                        cache: Cache)
    requires specs != []
    ensures Items(specs, selected, PrimaryPasses(repeats + 1, workers, |specs|, cache))
      == Items(specs, selected, PrimaryPasses(repeats, workers, |specs|, cache))
         + Items(specs, selected, RepeatPasses(repeats, workers, |specs|, cache))
  {
    var passes, more := PrimaryPasses(repeats, workers, |specs|, cache), RepeatPasses(repeats, workers, |specs|, cache);
    assert PrimaryPasses(repeats + 1, workers, |specs|, cache) == passes + more;
    hide Items, PrimaryPasses, RepeatPasses;
    ItemsJoin(specs, selected, passes, more);
  }

  lemma {:induction false} PrimaryInOrder(specs: seq<Spec>, selected: set<Mode>, repeats: nat, workers: seq<nat>,
                                          cache: Cache)
    returns (primary: seq<seq<seq<seq<WorkItem>>>>)
    requires specs != []
    ensures |primary| == repeats && Rotates(primary, specs, selected, workers, cache)
    ensures AllPasses(primary) == Items(specs, selected, PrimaryPasses(repeats, workers, |specs|, cache))
    decreases repeats
  {
    hide RepeatTurns, RepeatPasses, Flat, AllPasses, Items;
    primary := [];
    if repeats == 0 {
      NoGroups();
      NoItems(specs, selected);
    } else {
      hide Rotates, PrimaryPasses;
      var r := repeats - 1;
      var before := PrimaryInOrder(specs, selected, r, workers, cache);
      var turns := RepeatInOrder(specs, selected, r, workers, cache);
      primary := before + [turns];
      PrimaryNext(before, turns, specs, selected, workers, cache);
      AllNext(before, turns);
      PrimaryItems(specs, selected, r, workers, cache);
    }
  }

  lemma {:induction false} ExtraNext(before: seq<seq<seq<WorkItem>>>, blocks: seq<seq<WorkItem>>, specs: seq<Spec>,
                                     selected: set<Mode>, r: nat, budget: real, cache: Cache)
    requires ExtraTurns(before, specs, selected, r, budget, cache)
    requires IsTurn(blocks, specs, selected, r, r, 1, budget, cache)
    ensures ExtraTurns(before + [blocks], specs, selected, r + 1, budget, cache)
  {
    hide IsTurn;
  }

  lemma {:induction false} NoTurns(specs: seq<Spec>, selected: set<Mode>, budget: real, cache: Cache)
    ensures ExtraTurns([], specs, selected, 0, budget, cache)
  {}

  lemma {:induction false} ExtraInOrder(specs: seq<Spec>, selected: set<Mode>, repeats: nat, budget: real, cache: Cache)
    returns (turns: seq<seq<seq<WorkItem>>>)
    requires specs != []
    ensures ExtraTurns(turns, specs, selected, repeats, budget, cache)
    ensures Flat(turns) == Items(specs, selected, ExtraPasses(repeats, budget, cache, |specs|))
    decreases repeats
  {
    hide Flat, Concat, PassItems, Rotated, ExtraTurns, Items, IsTurn;
    turns := [];
    if repeats == 0 {
      NoPasses();
      NoItems(specs, selected);
      NoTurns(specs, selected, budget, cache);
    } else {
      var r := repeats - 1;
      var before := ExtraInOrder(specs, selected, r, budget, cache);
      var pass := Pass(r, 1, budget, cache, r % |specs|);
      var blocks := PassTurn(specs, selected, pass, r);
      turns := before + [blocks];
      ExtraNext(before, blocks, specs, selected, r, budget, cache);
      FlatNext(before, blocks);
      ItemsNext(specs, selected, ExtraPasses(r, budget, cache, |specs|), pass);
    }
  }

  lemma {:induction false} ExtrasInOrder(specs: seq<Spec>, selected: set<Mode>, repeats: nat)
    returns (low: seq<seq<seq<WorkItem>>>, high: seq<seq<seq<WorkItem>>>, cold: seq<seq<seq<WorkItem>>>)
    requires specs != []
    ensures ExtraTurns(low, specs, selected, repeats, 1.0, Standard)
    ensures ExtraTurns(high, specs, selected, repeats, 4.0, Standard)
    ensures ExtraTurns(cold, specs, selected, repeats, 2.0, C0)
    ensures AllPasses([low, high, cold]) == Items(specs, selected, AllExtras(repeats, |specs|))
  {
    hide ExtraTurns, Items, Flat, AllPasses, ExtraPasses;
    var n := |specs|;
    low := ExtraInOrder(specs, selected, repeats, 1.0, Standard);
    high := ExtraInOrder(specs, selected, repeats, 4.0, Standard);
    cold := ExtraInOrder(specs, selected, repeats, 2.0, C0);
    ItemsJoin(specs, selected, ExtraPasses(repeats, 1.0, Standard, n), ExtraPasses(repeats, 4.0, Standard, n));
    ItemsJoin(specs, selected, ExtraPasses(repeats, 1.0, Standard, n) + ExtraPasses(repeats, 4.0, Standard, n),
              ExtraPasses(repeats, 2.0, C0, n));
    ThreePasses(low, high, cold);
  }

  lemma {:induction false} ThreePasses(a: seq<seq<seq<WorkItem>>>, b: seq<seq<seq<WorkItem>>>,
                                       c: seq<seq<seq<WorkItem>>>)
    ensures AllPasses([a, b, c]) == Flat(a) + Flat(b) + Flat(c)
  {
    hide AllPasses, Flat;
    NoGroups();
    AllNext([], a);
    AllNext([a], b);
    AllNext([a, b], c);
    assert [] + [a] == [a] && [a] + [b] == [a, b] && [a, b] + [c] == [a, b, c];
  }

  lemma {:induction false} TestList(specs: seq<Spec>, layer: Layer, gist: bool, fast: bool, repeats: nat,
                                    workers: seq<nat>, selected: set<Mode>)
    requires specs != []
    ensures TestItems(specs, layer, gist, fast, repeats, workers, selected)
      == Items(specs, selected, PrimaryPasses(repeats, workers, |specs|, PrimaryCache(layer)))
         + if gist && !fast && layer != L05a then Items(specs, selected, AllExtras(repeats, |specs|)) else []
  {
    hide Items, PrimaryPasses, AllExtras, PrimaryCache;
    var passes := PrimaryPasses(repeats, workers, |specs|, PrimaryCache(layer));
    ItemsJoin(specs, selected, passes, AllExtras(repeats, |specs|));
    assert passes + [] == passes;
  }

  ghost predicate InOrder(items: seq<WorkItem>, specs: seq<Spec>, selected: set<Mode>, extras: bool, repeats: nat,
                          workers: seq<nat>, cache: Cache)
  {
    exists primary, extra :: LaidOut(items, primary, extra, specs, selected, extras, repeats, workers, cache)
  }

  /** The runs of a test come in that order. */
  lemma {:induction false} TestInOrder(specs: seq<Spec>, layer: Layer, gist: bool, fast: bool, repeats: nat,
                                       workers: seq<nat>, selected: set<Mode>)
    requires specs != []
    ensures InOrder(TestItems(specs, layer, gist, fast, repeats, workers, selected), specs, selected,
                    gist && !fast && layer != L05a, repeats, workers, PrimaryCache(layer))
  {
    hide ExtraTurns, Rotates, Items, PrimaryPasses, AllExtras, PrimaryCache, AllPasses, TestItems, Concat, Flat;
    var primary := PrimaryInOrder(specs, selected, repeats, workers, PrimaryCache(layer));
    var low, high, cold := ExtrasInOrder(specs, selected, repeats);
    TestList(specs, layer, gist, fast, repeats, workers, selected);
    NoGroups();
    var extra := if gist && !fast && layer != L05a then [low, high, cold] else [];
    assert LaidOut(TestItems(specs, layer, gist, fast, repeats, workers, selected), primary, extra, specs, selected,
                   gist && !fast && layer != L05a, repeats, workers, PrimaryCache(layer));
  }

  /** Position p holds the runs of method p. */
  ghost predicate InTableOrder(items: seq<WorkItem>, specs: seq<Spec>, selected: set<Mode>, cache: Cache) {
    exists blocks :: Concat(blocks) == items && IsTurn(blocks, specs, selected, 0, 0, 1, 2.0, cache)
  }

  lemma {:induction false} TuningInOrder(specs: seq<Spec>, selected: set<Mode>, cache: Cache)
    requires specs != []
    ensures InTableOrder(PassItems(specs, selected, Pass(0, 1, 2.0, cache, 0)), specs, selected, cache)
  {
    var blocks := PassTurn(specs, selected, Pass(0, 1, 2.0, cache, 0), 0);
    assert Rotated(specs, 0) == specs;
  }

  /** No run of this method is in the block. */
  predicate Lacks(block: seq<WorkItem>, spec: Spec) {
    forall w :: w in block ==> w.spec != spec
  }

  lemma {:induction false} TurnPlaces(blocks: seq<seq<WorkItem>>, specs: seq<Spec>, selected: set<Mode>, turn: nat,
                                      repeat: nat, workers: nat, budget: real, cache: Cache, p: nat, m: nat)
    requires IsTurn(blocks, specs, selected, turn, repeat, workers, budget, cache)
    requires DistinctNames(specs) && p < |specs| && m < |specs|
    ensures (p + turn) % |specs| == m ==> IsBlock(blocks[p], specs[m], selected, repeat, workers, budget, cache)
    ensures (p + turn) % |specs| != m ==> Lacks(blocks[p], specs[m])
  {
    var at := (p + turn) % |specs|;
    assert IsBlock(blocks[p], specs[at], selected, repeat, workers, budget, cache);
    hide PicksModes;
    assert at != m ==> specs[at] != specs[m];
  }

  /** In exactly one of any n repeats in a row the pass with a given number of workers has a given method in a given
      position. */
  lemma {:induction false} RepeatsRotate(primary: seq<seq<seq<seq<WorkItem>>>>, specs: seq<Spec>, selected: set<Mode>,
                                         workers: seq<nat>, cache: Cache, start: nat, i: nat, p: nat, m: nat)
    returns (j: nat)
    requires DistinctNames(specs) && p < |specs| && m < |specs| && i < |workers| && start + |specs| <= |primary|
    requires Rotates(primary, specs, selected, workers, cache)
    ensures forall k :: 0 <= k < |primary| ==> |primary[k]| == |workers| && |primary[k][i]| == |specs|
    ensures start <= j < start + |specs| && IsBlock(primary[j][i][p], specs[m], selected, j, workers[i], 2.0, cache)
    ensures forall k :: start <= k < start + |specs| && k != j ==> Lacks(primary[k][i][p], specs[m])
  {
    var n := |specs|;
    assert forall k :: 0 <= k < |primary| ==> RepeatTurns(primary[k], specs, selected, k, workers, cache);
    j := start + Turn(n, start + i, p, m);
    hide Lacks, IsBlock, Turn;
    forall k | start <= k < start + n
      ensures k == j ==> IsBlock(primary[k][i][p], specs[m], selected, k, workers[i], 2.0, cache)
      ensures k != j ==> Lacks(primary[k][i][p], specs[m])
    {
      hide IsTurn, Rotates;
      TurnExact(n, start + i, p, m, k - start);
      TurnPlaces(primary[k][i], specs, selected, k + i, k, workers[i], 2.0, cache, p, m);
    }
  }

  /** So it is with any n numbers of workers in a row, within one repeat. */
  lemma {:induction false} WorkersRotate(passes: seq<seq<seq<WorkItem>>>, specs: seq<Spec>, selected: set<Mode>, r: nat,
                                         workers: seq<nat>, cache: Cache, start: nat, p: nat, m: nat)
    returns (j: nat)
    requires DistinctNames(specs) && p < |specs| && m < |specs| && start + |specs| <= |workers|
    requires RepeatTurns(passes, specs, selected, r, workers, cache)
    ensures forall k :: 0 <= k < |passes| ==> |passes[k]| == |specs|
    ensures start <= j < start + |specs| && IsBlock(passes[j][p], specs[m], selected, r, workers[j], 2.0, cache)
    ensures forall k :: start <= k < start + |specs| && k != j ==> Lacks(passes[k][p], specs[m])
  {
    var n := |specs|;
    j := start + Turn(n, r + start, p, m);
    hide Lacks, IsBlock, Turn;
    forall k | start <= k < start + n
      ensures k == j ==> IsBlock(passes[k][p], specs[m], selected, r, workers[k], 2.0, cache)
      ensures k != j ==> Lacks(passes[k][p], specs[m])
    {
      hide IsTurn;
      TurnExact(n, r + start, p, m, k - start);
      TurnPlaces(passes[k], specs, selected, r + k, r, workers[k], 2.0, cache, p, m);
    }
  }

  /** And with the extra passes of any n repeats in a row. */
  lemma {:induction false} ExtrasRotate(passes: seq<seq<seq<WorkItem>>>, specs: seq<Spec>, selected: set<Mode>,
                                        repeats: nat, budget: real, cache: Cache, start: nat, p: nat, m: nat)
    returns (j: nat)
    requires DistinctNames(specs) && p < |specs| && m < |specs| && start + |specs| <= repeats
    requires ExtraTurns(passes, specs, selected, repeats, budget, cache)
    ensures forall k :: 0 <= k < |passes| ==> |passes[k]| == |specs|
    ensures start <= j < start + |specs| && IsBlock(passes[j][p], specs[m], selected, j, 1, budget, cache)
    ensures forall k :: start <= k < start + |specs| && k != j ==> Lacks(passes[k][p], specs[m])
  {
    var n := |specs|;
    j := start + Turn(n, start, p, m);
    hide Lacks, IsBlock, Turn;
    forall k | start <= k < start + n
      ensures k == j ==> IsBlock(passes[k][p], specs[m], selected, k, 1, budget, cache)
      ensures k != j ==> Lacks(passes[k][p], specs[m])
    {
      hide IsTurn;
      TurnExact(n, start, p, m, k - start);
      TurnPlaces(passes[k], specs, selected, k, k, 1, budget, cache, p, m);
    }
  }

  /** The passes of one repeat, one per number of workers. */
  method AddRepeat(specs: seq<Spec>, selected: set<Mode>, repeat: nat, workers: seq<nat>, cache: Cache,
                   items: seq<WorkItem>, ghost passes: seq<Pass>) returns (more: seq<WorkItem>)
    requires specs != [] && Turned(passes, |specs|) && items == Items(specs, selected, passes)
    ensures Turned(passes + RepeatPasses(repeat, workers, |specs|, cache), |specs|)
    ensures more == Items(specs, selected, passes + RepeatPasses(repeat, workers, |specs|, cache))
  {
    hide Items, PassItems;
    more := items;
    var wi := 0;
    assert passes + RepeatPasses(repeat, workers[..0], |specs|, cache) == passes;
    while wi < |workers|
      invariant wi <= |workers|
      invariant Turned(passes + RepeatPasses(repeat, workers[..wi], |specs|, cache), |specs|)
      invariant more == Items(specs, selected, passes + RepeatPasses(repeat, workers[..wi], |specs|, cache))
    {
      var shift := (repeat + wi) % |specs|;
      var pass := Pass(repeat, workers[wi], 2.0, cache, shift);
      ghost var before := RepeatPasses(repeat, workers[..wi], |specs|, cache);
      assert workers[..wi + 1][..wi] == workers[..wi];
      assert RepeatPasses(repeat, workers[..wi + 1], |specs|, cache) == before + [pass];
      assert passes + (before + [pass]) == (passes + before) + [pass];
      ItemsNext(specs, selected, passes + before, pass);
      more := more + PassItems(Rotated(specs, shift), selected, pass);
      wi := wi + 1;
    }
    assert workers[..wi] == workers;
  }

  /** The extra passes of one budget and cache. */
  method AddExtras(specs: seq<Spec>, selected: set<Mode>, repeats: nat, budget: real, cache: Cache,
                   items: seq<WorkItem>, ghost passes: seq<Pass>) returns (more: seq<WorkItem>)
    requires specs != [] && Turned(passes, |specs|) && items == Items(specs, selected, passes)
    ensures Turned(passes + ExtraPasses(repeats, budget, cache, |specs|), |specs|)
    ensures more == Items(specs, selected, passes + ExtraPasses(repeats, budget, cache, |specs|))
  {
    hide Items, PassItems;
    more := items;
    var repeat := 0;
    assert passes + ExtraPasses(0, budget, cache, |specs|) == passes;
    while repeat < repeats
      invariant repeat <= repeats
      invariant Turned(passes + ExtraPasses(repeat, budget, cache, |specs|), |specs|)
      invariant more == Items(specs, selected, passes + ExtraPasses(repeat, budget, cache, |specs|))
    {
      var shift := repeat % |specs|;
      var pass := Pass(repeat, 1, budget, cache, shift);
      ghost var before := ExtraPasses(repeat, budget, cache, |specs|);
      assert ExtraPasses(repeat + 1, budget, cache, |specs|) == before + [pass];
      assert passes + (before + [pass]) == (passes + before) + [pass];
      ItemsNext(specs, selected, passes + before, pass);
      more := more + PassItems(Rotated(specs, shift), selected, pass);
      repeat := repeat + 1;
    }
  }

  lemma {:induction false} TestPassesAre(layer: Layer, extras: bool, repeats: nat, workers: seq<nat>, n: nat)
    requires n > 0
    ensures var primary := PrimaryPasses(repeats, workers, n, PrimaryCache(layer));
      TestPasses(layer, extras, repeats, workers, n)
      == if extras then primary + ExtraPasses(repeats, 1.0, Standard, n) + ExtraPasses(repeats, 4.0, Standard, n)
                        + ExtraPasses(repeats, 2.0, C0, n)
         else primary
  {
    hide PrimaryPasses, ExtraPasses, PrimaryCache;
  }

  function Chosen(modes: seq<Mode>): (selected: set<Mode>)
    ensures forall m :: m in selected <==> m in modes
  {
    set m | m in modes
  }

  /** `_work_items` */
  method WorkItems(specs: seq<Spec>, isTest: bool, workers: seq<nat>, repeats: nat, gist: bool, modes: seq<Mode>,
                   fast: bool) returns (items: seq<WorkItem>)
    requires specs != []
    ensures var selected := Chosen(modes);
      items == if isTest then TestItems(specs, specs[0].layer, gist, fast, repeats, workers, selected)
               else TuningItems(specs, specs[0].layer, selected)
    ensures var cache := if specs[0].layer == L05a then C0 else Standard;
      if isTest
      then InOrder(items, specs, Chosen(modes), gist && !fast && specs[0].layer != L05a, repeats, workers, cache)
      else InTableOrder(items, specs, Chosen(modes), cache)
  {
    hide Items, PassItems, InOrder, InTableOrder, Chosen, TestPasses, ExtraPasses;
    var layer := specs[0].layer;
    var cache := PrimaryCache(layer);
    var selected := Chosen(modes);
    if !isTest {
      TuningInOrder(specs, selected, cache);
      return PassItems(specs, selected, Pass(0, 1, 2.0, cache, 0));
    }
    var n := |specs|;
    items := [];
    NoItems(specs, selected);
    var repeat := 0;
    while repeat < repeats
      invariant repeat <= repeats && items == Items(specs, selected, PrimaryPasses(repeat, workers, n, cache))
    {
      items := AddRepeat(specs, selected, repeat, workers, cache, items, PrimaryPasses(repeat, workers, n, cache));
      repeat := repeat + 1;
    }
    ghost var passes := PrimaryPasses(repeats, workers, n, cache);
    if gist && layer in {L05b, L05c} && !fast {
      ghost var low, high := ExtraPasses(repeats, 1.0, Standard, n), ExtraPasses(repeats, 4.0, Standard, n);
      items := AddExtras(specs, selected, repeats, 1.0, Standard, items, passes);
      items := AddExtras(specs, selected, repeats, 4.0, Standard, items, passes + low);
      items := AddExtras(specs, selected, repeats, 2.0, C0, items, passes + low + high);
    }
    TestPassesAre(layer, gist && layer != L05a && !fast, repeats, workers, n);
    TestInOrder(specs, layer, gist, fast, repeats, workers, selected);
  }

  lemma {:induction false} NoItems(specs: seq<Spec>, selected: set<Mode>)
    ensures Items(specs, selected, []) == []
  {}

  // --- What the schedule covers ---------------------------------------------------------------------------

  /** Exactly the planned runs, in the selected modes, are in the list. */
  ghost predicate Scheduled(items: seq<WorkItem>, specs: seq<Spec>, layer: Layer, extras: bool, repeats: nat,
                            workers: seq<nat>, selected: set<Mode>)
  {
    forall w :: w in items <==> Needed(w, specs, layer, extras, repeats, workers) && w.mode in selected
  }

  /** Every combination of method, mode, repeat and setting that is planned is in the list, and nothing
      else is. */
  lemma {:induction false} AllScheduled(specs: seq<Spec>, layer: Layer, gist: bool, fast: bool, repeats: nat,
                                        workers: seq<nat>, selected: set<Mode>)
    requires specs != []
    ensures Scheduled(TestItems(specs, layer, gist, fast, repeats, workers, selected), specs, layer, gist && !fast,
                      repeats, workers, selected)
  {
    hide Items, PassItems, TestPasses;
    var passes := TestPasses(layer, HasExtras(layer, gist && !fast), repeats, workers, |specs|);
    forall w ensures w in TestItems(specs, layer, gist, fast, repeats, workers, selected)
        <==> Needed(w, specs, layer, gist && !fast, repeats, workers) && w.mode in selected
    {
      InItems(specs, selected, passes, w);
      HasTest(layer, gist && !fast, repeats, workers, |specs|, w);
    }
  }

  /** With the numbers of workers all different, it is in the list exactly once. */
  lemma {:induction false} EachOnce(specs: seq<Spec>, layer: Layer, gist: bool, fast: bool, repeats: nat,
                                    workers: seq<nat>, selected: set<Mode>)
    requires specs != [] && GoodSpecs(specs) && DistinctWorkers(workers)
    ensures NoRepeats(TestItems(specs, layer, gist, fast, repeats, workers, selected))
    ensures Scheduled(TestItems(specs, layer, gist, fast, repeats, workers, selected), specs, layer, gist && !fast,
                      repeats, workers, selected)
  {
    AllScheduled(specs, layer, gist, fast, repeats, workers, selected);
    hide Items, PassesOnce, NoRepeats, TestPasses, GoodSpecs, Scheduled;
    TestOnce(layer, gist && !fast, repeats, workers, |specs|);
    ItemsOnce(specs, selected, TestPasses(layer, HasExtras(layer, gist && !fast), repeats, workers, |specs|));
  }

  /** One row per run. */
  function Rows(items: seq<WorkItem>): (rows: seq<Row>)
    ensures |rows| == |items| && forall i :: 0 <= i < |rows| ==> rows[i] == RowOf(items[i])
    decreases |items|
  {
    if items == [] then [] else Rows(items[..|items| - 1]) + [RowOf(items[|items| - 1])]
  }

  /** Every mode of every method is selected. */
  predicate AllModes(specs: seq<Spec>, selected: set<Mode>) {
    forall i, m :: 0 <= i < |specs| && m in specs[i].modes ==> m in selected
  }

  /** A run is found among the rows exactly when it was scheduled: rows name the method, and methods have
      different names. */
  lemma {:induction false} FoundIff(specs: seq<Spec>, items: seq<WorkItem>, w: WorkItem)
    requires DistinctNames(specs) && w.spec in specs && forall i :: 0 <= i < |items| ==> items[i].spec in specs
    ensures Found(Rows(items), w) <==> w in items
  {
    var rows := Rows(items);
    if w in items {
      var i :| 0 <= i < |items| && items[i] == w;
      assert rows[i] == RowOf(w);
    }
    if Found(rows, w) {
      var i :| 0 <= i < |rows| && rows[i] == RowOf(w);
      assert items[i].spec.name == w.spec.name;
      assert items[i] == w;
    }
  }

  /** Some run is called for at all. */
  predicate SomeRun(layer: Layer, gist: bool, repeats: nat, workers: seq<nat>) {
    repeats > 0 && (workers != [] || HasExtras(layer, gist))
  }

  /** A run that is called for, of this method and mode. */
  function Sample(spec: Spec, mode: Mode, layer: Layer, workers: seq<nat>): WorkItem {
    if workers != [] then WorkItem(spec, mode, 0, workers[0], 2.0, PrimaryCache(layer))
    else WorkItem(spec, mode, 0, 1, 1.0, Standard)
  }

  /** The completed schedule of a layer satisfies the coverage check exactly when it has a run at all, every
      storage mode was selected, no method was filtered out, and no extra GIST run was dropped by fast mode. */
  lemma {:induction false} CoverageIff(table: seq<Spec>, layer: Layer, wanted: set<Method>, gist: bool, fast: bool,
                                       repeats: nat, workers: seq<nat>, selected: set<Mode>, specs: seq<Spec>)
    requires WellFormed(table) && wanted <= LayerMethods(layer, table)
    requires specs == Selected(table, layer, wanted) && specs != []
    ensures Complete(Rows(TestItems(specs, layer, gist, fast, repeats, workers, selected)), table, layer, gist, repeats,
                     workers)
      <==> (SomeRun(layer, gist, repeats, workers) && AllModes(specs, selected) && !(HasExtras(layer, gist) && fast)
            && wanted == LayerMethods(layer, table))
  {
    SelectedGood(table, layer, wanted, specs);
    AllScheduled(specs, layer, gist, fast, repeats, workers, selected);
    var items := TestItems(specs, layer, gist, fast, repeats, workers, selected);
    hide TestItems, Selected, WellFormed, LayerMethods, Complete, Scheduled, AllModes, GoodSpecs, NoRepeats;
    ItemSpecs(items, specs, layer, gist && !fast, repeats, workers, selected);
    if wanted != LayerMethods(layer, table) {
      MethodMissing(items, table, layer, wanted, specs, gist, repeats, workers);
    } else if !SomeRun(layer, gist, repeats, workers) {
      NothingScheduled(items, table, specs, layer, gist, fast, repeats, workers, selected);
    } else if AllModes(specs, selected) && !(HasExtras(layer, gist) && fast) {
      AllCovered(items, table, layer, gist, fast, repeats, workers, selected, specs);
    } else if !AllModes(specs, selected) {
      ModeMissing(items, table, specs, layer, gist, fast, repeats, workers, selected);
    } else {
      ExtraMissing(items, table, specs, layer, gist, fast, repeats, workers, selected);
    }
  }

  /** A method that was filtered out has no row. */
  lemma {:induction false} MethodMissing(items: seq<WorkItem>, table: seq<Spec>, layer: Layer, wanted: set<Method>,
                                         specs: seq<Spec>, gist: bool, repeats: nat, workers: seq<nat>)
    requires wanted < LayerMethods(layer, table) && specs == Selected(table, layer, wanted)
    requires forall i :: 0 <= i < |items| ==> items[i].spec in specs
    ensures !Complete(Rows(items), table, layer, gist, repeats, workers)
  {
    var m :| m in LayerMethods(layer, table) && m !in wanted;
    var rows := Rows(items);
    forall i | 0 <= i < |rows| ensures rows[i].name != m {
      assert items[i].spec in specs;
    }
    assert m !in Names(rows);
  }

  lemma {:induction false} SelectedGood(table: seq<Spec>, layer: Layer, wanted: set<Method>, specs: seq<Spec>)
    requires WellFormed(table) && specs == Selected(table, layer, wanted)
    ensures GoodSpecs(specs)
  {
    SelectedDistinct(table, layer, wanted);
    hide DistinctModes, DistinctNames;
    forall i | 0 <= i < |specs| ensures specs[i].modes != [] && DistinctModes(specs[i].modes) {
      assert specs[i] in table;
    }
  }

  lemma {:induction false} ItemSpecs(items: seq<WorkItem>, specs: seq<Spec>, layer: Layer, extras: bool, repeats: nat,
                                     workers: seq<nat>, selected: set<Mode>)
    requires Scheduled(items, specs, layer, extras, repeats, workers, selected)
    ensures forall i :: 0 <= i < |items| ==> items[i].spec in specs
  {
    forall i | 0 <= i < |items| ensures items[i].spec in specs {
      assert items[i] in items;
    }
  }

  /** A run left out of the schedule is missed. */
  lemma {:induction false} RunMissing(items: seq<WorkItem>, specs: seq<Spec>, layer: Layer, gist: bool, repeats: nat,
                                      workers: seq<nat>, w: WorkItem)
    requires DistinctNames(specs) && forall i :: 0 <= i < |items| ==> items[i].spec in specs
    requires Needed(w, specs, layer, gist, repeats, workers) && w !in items
    ensures !(forall v :: Needed(v, specs, layer, gist, repeats, workers) ==> Found(Rows(items), v))
  {
    hide NeededFor, Found, DistinctNames;
    FoundIff(specs, items, w);
  }

  lemma {:induction false} HasMember(items: seq<WorkItem>)
    requires items != []
    ensures exists w :: w in items
  {
    assert items[0] in items;
  }

  /** Without any run there is no row, and the methods check fails. */
  lemma {:induction false} NothingScheduled(items: seq<WorkItem>, table: seq<Spec>, specs: seq<Spec>, layer: Layer,
                                            gist: bool, fast: bool, repeats: nat, workers: seq<nat>,
                                              selected: set<Mode>)
    requires specs == Selected(table, layer, LayerMethods(layer, table)) && specs != []
    requires !SomeRun(layer, gist, repeats, workers)
    requires Scheduled(items, specs, layer, gist && !fast, repeats, workers, selected)
    ensures !Complete(Rows(items), table, layer, gist, repeats, workers)
  {
    if items != [] {
      HasMember(items);
    }
    forall w ensures w !in items {
      assert !Needed(w, specs, layer, gist && !fast, repeats, workers);
    }
    assert specs[0] in specs && specs[0].name in LayerMethods(layer, table);
    assert Rows(items) == [];
  }

  lemma {:induction false} ModeMissing(items: seq<WorkItem>, table: seq<Spec>, specs: seq<Spec>, layer: Layer,
                                       gist: bool, fast: bool, repeats: nat, workers: seq<nat>, selected: set<Mode>)
    requires GoodSpecs(specs) && specs == Selected(table, layer, LayerMethods(layer, table))
    requires SomeRun(layer, gist, repeats, workers) && !AllModes(specs, selected)
    requires Scheduled(items, specs, layer, gist && !fast, repeats, workers, selected)
    requires forall i :: 0 <= i < |items| ==> items[i].spec in specs
    ensures !Complete(Rows(items), table, layer, gist, repeats, workers)
  {
    var i, m :| 0 <= i < |specs| && m in specs[i].modes && m !in selected;
    var w := Sample(specs[i], m, layer, workers);
    assert Needed(w, specs, layer, gist, repeats, workers);
    RunMissing(items, specs, layer, gist, repeats, workers, w);
  }

  lemma {:induction false} ExtraMissing(items: seq<WorkItem>, table: seq<Spec>, specs: seq<Spec>, layer: Layer,
                                        gist: bool, fast: bool, repeats: nat, workers: seq<nat>, selected: set<Mode>)
    requires GoodSpecs(specs) && specs == Selected(table, layer, LayerMethods(layer, table))
    requires specs != [] && repeats > 0 && HasExtras(layer, gist) && fast
    requires Scheduled(items, specs, layer, gist && !fast, repeats, workers, selected)
    requires forall i :: 0 <= i < |items| ==> items[i].spec in specs
    ensures !Complete(Rows(items), table, layer, gist, repeats, workers)
  {
    var w := WorkItem(specs[0], specs[0].modes[0], 0, 1, 1.0, Standard);
    assert specs[0] in specs && specs[0].modes[0] in specs[0].modes;
    assert Needed(w, specs, layer, gist, repeats, workers);
    assert !Needed(w, specs, layer, gist && !fast, repeats, workers);
    RunMissing(items, specs, layer, gist, repeats, workers, w);
  }

  lemma {:induction false} AllCovered(items: seq<WorkItem>, table: seq<Spec>, layer: Layer, gist: bool, fast: bool,
                                      repeats: nat, workers: seq<nat>, selected: set<Mode>, specs: seq<Spec>)
    requires GoodSpecs(specs) && specs == Selected(table, layer, LayerMethods(layer, table))
    requires SomeRun(layer, gist, repeats, workers)
    requires AllModes(specs, selected) && !(HasExtras(layer, gist) && fast)
    requires Scheduled(items, specs, layer, gist && !fast, repeats, workers, selected)
    requires forall i :: 0 <= i < |items| ==> items[i].spec in specs
    ensures Complete(Rows(items), table, layer, gist, repeats, workers)
  {
    forall w | Needed(w, specs, layer, gist, repeats, workers) ensures Found(Rows(items), w) {
      ModeSelected(specs, selected, w.spec, w.mode);
      assert w in items;
      FoundIff(specs, items, w);
    }
    NamesAll(items, table, layer, gist, fast, repeats, workers, selected, specs);
  }

  lemma {:induction false} ModeSelected(specs: seq<Spec>, selected: set<Mode>, spec: Spec, mode: Mode)
    requires AllModes(specs, selected) && spec in specs && mode in spec.modes
    ensures mode in selected
  {}

  lemma {:induction false} NameKnown(items: seq<WorkItem>, table: seq<Spec>, layer: Layer, specs: seq<Spec>, m: Method)
    requires specs == Selected(table, layer, LayerMethods(layer, table))
    requires forall i :: 0 <= i < |items| ==> items[i].spec in specs
    requires m in Names(Rows(items))
    ensures m in LayerMethods(layer, table)
  {
    var rows := Rows(items);
    var i :| 0 <= i < |rows| && rows[i].name == m;
    assert items[i].spec in specs;
    hide LayerMethods;
  }

  lemma {:induction false} SpecNamed(table: seq<Spec>, layer: Layer, m: Method) returns (spec: Spec)
    requires m in LayerMethods(layer, table)
    ensures spec in Selected(table, layer, LayerMethods(layer, table)) && spec.name == m
  {
    var t :| 0 <= t < |table| && table[t].layer == layer && table[t].name == m;
    spec := table[t];
  }

  lemma {:induction false} NameListed(items: seq<WorkItem>, layer: Layer, extras: bool, repeats: nat, workers: seq<nat>,
                                      selected: set<Mode>, specs: seq<Spec>, spec: Spec)
    requires SomeRun(layer, extras, repeats, workers) && AllModes(specs, selected) && spec in specs && spec.modes != []
    requires Scheduled(items, specs, layer, extras, repeats, workers, selected)
    ensures spec.name in Names(Rows(items))
  {
    hide AllModes;
    var w := Sample(spec, spec.modes[0], layer, workers);
    assert spec.modes[0] in spec.modes;
    ModeSelected(specs, selected, spec, spec.modes[0]);
    assert Needed(w, specs, layer, extras, repeats, workers);
    assert w in items;
    var i :| 0 <= i < |items| && items[i] == w;
    assert Rows(items)[i].name == spec.name;
  }

  lemma {:induction false} NamesAll(items: seq<WorkItem>, table: seq<Spec>, layer: Layer, gist: bool, fast: bool,
                                    repeats: nat, workers: seq<nat>, selected: set<Mode>, specs: seq<Spec>)
    requires GoodSpecs(specs) && specs == Selected(table, layer, LayerMethods(layer, table))
    requires SomeRun(layer, gist && !fast, repeats, workers) && AllModes(specs, selected)
    requires Scheduled(items, specs, layer, gist && !fast, repeats, workers, selected)
    requires forall i :: 0 <= i < |items| ==> items[i].spec in specs
    ensures Names(Rows(items)) == LayerMethods(layer, table)
  {
    assert forall spec :: spec in specs ==> spec.modes != [];
    hide AllModes, Scheduled, Selected, LayerMethods, Names, GoodSpecs;
    forall m | m in Names(Rows(items)) ensures m in LayerMethods(layer, table) {
      NameKnown(items, table, layer, specs, m);
    }
    forall m | m in LayerMethods(layer, table) ensures m in Names(Rows(items)) {
      var spec := SpecNamed(table, layer, m);
      NameListed(items, layer, gist && !fast, repeats, workers, selected, specs, spec);
    }
  }

  // --- A whole test run -------------------------------------------------------------------------------------

  /** `[spec for spec in specs if spec.method in wanted]` */
  function Narrowed(specs: seq<Spec>, wanted: set<Method>): (r: seq<Spec>)
    ensures forall s :: s in r <==> s in specs && s.name in wanted
    decreases |specs|
  {
    if specs == [] then []
    else
      var front, last := specs[..|specs| - 1], specs[|specs| - 1];
      assert specs == front + [last];
      Narrowed(front, wanted) + if last.name in wanted then [last] else []
  }

  function NamesOf(specs: seq<Spec>): (names: set<Method>)
    ensures forall m :: m in names <==> exists i :: 0 <= i < |specs| && specs[i].name == m
  {
    set i | 0 <= i < |specs| :: specs[i].name
  }

  /** The specs of a run: those of its layer, narrowed by the method filter. */
  function RunSpecs(table: seq<Spec>, layer: Layer, methods: set<Method>): Selection {
    var specs := Selected(table, layer, LayerMethods(layer, table));
    var narrowed := Narrowed(specs, methods);
    if methods == {} then Specs(specs)
    else if methods - NamesOf(narrowed) != {} then ContractError(methods - NamesOf(narrowed))
    else Specs(narrowed)
  }

  lemma {:induction false} NarrowedSnoc(specs: seq<Spec>, last: Spec, wanted: set<Method>)
    ensures Narrowed(specs + [last], wanted) == Narrowed(specs, wanted) + if last.name in wanted then [last] else []
  {
    assert (specs + [last])[..|specs|] == specs;
  }

  lemma {:induction false} SelectedSnoc(table: seq<Spec>, last: Spec, layer: Layer, wanted: set<Method>)
    ensures Selected(table + [last], layer, wanted)
      == Selected(table, layer, wanted) + if last.layer == layer && last.name in wanted then [last] else []
  {
    assert (table + [last])[..|table|] == table;
  }

  lemma {:induction false} NothingChosen(layer: Layer, all: set<Method>, wanted: set<Method>)
    ensures Selected([], layer, all) == [] && Selected([], layer, wanted) == [] && Narrowed([], wanted) == []
  {}

  lemma {:induction false} NarrowedSelected(table: seq<Spec>, layer: Layer, all: set<Method>, wanted: set<Method>)
    requires forall i :: 0 <= i < |table| && table[i].layer == layer ==> table[i].name in all
    ensures Narrowed(Selected(table, layer, all), wanted) == Selected(table, layer, wanted)
    decreases |table|
  {
    hide Narrowed, Selected;
    NothingChosen(layer, all, wanted);
    if table == [] {
    } else {
      var front, last := table[..|table| - 1], table[|table| - 1];
      assert table == front + [last];
      NarrowedSelected(front, layer, all, wanted);
      SelectedSnoc(front, last, layer, all);
      SelectedSnoc(front, last, layer, wanted);
      var chosen := Selected(front, layer, all);
      if last.layer == layer {
        NarrowedSnoc(chosen, last, wanted);
      } else {
        assert chosen + [] == chosen;
        assert Selected(front, layer, wanted) + [] == Selected(front, layer, wanted);
      }
    }
  }

  lemma {:induction false} NoneLeft(a: set<Method>, b: set<Method>)
    ensures a - b == {} <==> a <= b
  {
    if a - b == {} {
      forall m | m in a ensures m in b {
        assert m !in a - b;
      }
    }
  }

  /** The specs a layer has of these names are named by exactly those of the names that it has. */
  lemma {:induction false} SelectedNames(table: seq<Spec>, layer: Layer, wanted: set<Method>, m: Method)
    ensures m in NamesOf(Selected(table, layer, wanted)) <==> m in wanted && m in LayerMethods(layer, table)
  {
    var specs := Selected(table, layer, wanted);
    hide Selected;
    if m in wanted && m in LayerMethods(layer, table) {
      var i :| 0 <= i < |table| && table[i].layer == layer && table[i].name == m;
      var j :| 0 <= j < |specs| && specs[j] == table[i];
    }
    if m in NamesOf(specs) {
      var j :| 0 <= j < |specs| && specs[j].name == m;
      assert specs[j] in specs;
    }
  }

  /** Filtering the specs of a layer by name is asking `specs_for` for those names, errors included. */
  lemma {:induction false} RunSpecsAgree(table: seq<Spec>, layer: Layer, methods: set<Method>)
    ensures RunSpecs(table, layer, methods) == SpecsFor(table, layer, methods)
  {
    var all := LayerMethods(layer, table);
    NarrowedSelected(table, layer, all, methods);
    hide Selected, Narrowed, LayerMethods, NamesOf;
    var narrowed := Narrowed(Selected(table, layer, all), methods);
    forall m | m in methods ensures m in NamesOf(narrowed) <==> m in all {
      SelectedNames(table, layer, methods, m);
    }
    assert methods - NamesOf(narrowed) == methods - all;
  }

  /** A completed test run is accepted: its methods are known, it has work, and, outside fast mode, its rows pass
      the coverage check. */
  ghost predicate Accepted(table: seq<Spec>, layer: Layer, methods: set<Method>, gist: bool, fast: bool, repeats: nat,
                           workers: seq<nat>, selected: set<Mode>)
  {
    var specs := RunSpecs(table, layer, methods);
    && specs.Specs? && specs.value != []
    && var items := TestItems(specs.value, layer, gist, fast, repeats, workers, selected);
    && items != []
    && (fast || Complete(Rows(items), table, layer, gist, repeats, workers))
  }

  /** Outside fast mode exactly the unfiltered runs with every storage mode are. */
  lemma {:induction false} AcceptedIff(table: seq<Spec>, layer: Layer, methods: set<Method>, gist: bool, repeats: nat,
                                       workers: seq<nat>, selected: set<Mode>)
    requires WellFormed(table) && LayerMethods(layer, table) != {}
    ensures Accepted(table, layer, methods, gist, false, repeats, workers, selected)
      <==> (&& (methods == {} || methods == LayerMethods(layer, table)) && SomeRun(layer, gist, repeats, workers)
            && AllModes(Selected(table, layer, LayerMethods(layer, table)), selected))
  {
    var all := LayerMethods(layer, table);
    var wanted := if methods == {} then all else methods;
    RunSpecsAgree(table, layer, methods);
    NoneLeft(wanted, all);
    hide RunSpecs, LayerMethods, Complete, SomeRun, AllModes, WellFormed, TestItems, Rows, Selected;
    if wanted <= all {
      var specs := Selected(table, layer, wanted);
      WantedSpecs(table, layer, wanted);
      CoverageIff(table, layer, wanted, gist, false, repeats, workers, selected, specs);
      NoRowsFail(table, layer, gist, repeats, workers);
    }
  }

  lemma {:induction false} WantedSpecs(table: seq<Spec>, layer: Layer, wanted: set<Method>)
    requires wanted != {} && wanted <= LayerMethods(layer, table)
    ensures Selected(table, layer, wanted) != []
  {
    var m :| m in wanted;
    var i :| 0 <= i < |table| && table[i].layer == layer && table[i].name == m;
    assert table[i] in Selected(table, layer, wanted);
  }

  lemma {:induction false} NoRowsFail(table: seq<Spec>, layer: Layer, gist: bool, repeats: nat, workers: seq<nat>)
    requires LayerMethods(layer, table) != {}
    ensures !Complete(Rows([]), table, layer, gist, repeats, workers)
  {
    var m :| m in LayerMethods(layer, table);
    assert m !in Names(Rows([]));
  }

  /** A storage mode of the table that was not selected fails the run. */
  lemma {:induction false} ModeUnselected(table: seq<Spec>, i: nat, mode: Mode, gist: bool, repeats: nat,
                                          workers: seq<nat>, selected: set<Mode>)
    requires WellFormed(table) && i < |table| && mode in table[i].modes && mode !in selected
    ensures !Accepted(table, table[i].layer, {}, gist, false, repeats, workers, selected)
  {
    var layer := table[i].layer;
    var specs := Selected(table, layer, LayerMethods(layer, table));
    assert table[i].name in LayerMethods(layer, table) && table[i] in specs;
    var k :| 0 <= k < |specs| && specs[k] == table[i];
    assert mode in specs[k].modes;
    hide WellFormed, Accepted, LayerMethods, Selected, SomeRun;
    AcceptedIff(table, layer, {}, gist, repeats, workers, selected);
  }

  /** So does a filter that names some methods of the layer but not all. */
  lemma {:induction false} MethodFiltered(table: seq<Spec>, i: nat, methods: set<Method>, gist: bool, repeats: nat,
                                          workers: seq<nat>, selected: set<Mode>)
    requires WellFormed(table) && i < |table| && table[i].name !in methods && methods != {}
    ensures !Accepted(table, table[i].layer, methods, gist, false, repeats, workers, selected)
  {
    var layer := table[i].layer;
    assert table[i].name in LayerMethods(layer, table);
    hide WellFormed, Accepted, LayerMethods, Selected, SomeRun, AllModes;
    AcceptedIff(table, layer, methods, gist, repeats, workers, selected);
  }

  lemma {:induction false} GraphModes()
    ensures SPECS[4] == Spec(L05b, PqDiskAnn, GRAPH_MODES) && DiskPayload in GRAPH_MODES
    ensures SPECS[9] == Spec(L05c, SymphonyQG, SYSTEM_MODES)
  {
    assert GRAPH_MODES[1] == DiskPayload;
  }

  /** Two runs that end in an error: 05B with only the hybrid mode selected, and 05C of our method alone. */
  lemma {:induction false} IncompleteRuns(gist: bool, repeats: nat, workers: seq<nat>)
    ensures !Accepted(SPECS, L05b, {}, gist, false, repeats, workers, {HybridDisk})
    ensures !Accepted(SPECS, L05c, {OursDisk}, gist, false, repeats, workers, {HybridDisk})
  {
    SpecsWellFormed();
    GraphModes();
    hide WellFormed, Accepted;
    ModeUnselected(SPECS, 4, DiskPayload, gist, repeats, workers, {HybridDisk});
    MethodFiltered(SPECS, 9, {OursDisk}, gist, repeats, workers, {HybridDisk});
  }
}
