/** The methods of the disk experiments, and the check that a result set covers them. */
module Contract {

  datatype Layer = L05a | L05b | L05c

  datatype Method = PQ4 | SQ4 | SaqB4 | OursRaBitQ
                  | PqDiskAnn | SqDiskAnn | SaqDiskAnn | OursDisk
                  | SymphonyQG | OgLvq | GlassNsg | DiskAnnPq

  datatype Mode = Resident | PayloadOnSsd | HybridDisk | DiskPayload

  datatype Cache = C0 | Standard

  datatype Spec = Spec(layer: Layer, name: Method, modes: seq<Mode>)

  const QUANTIZER_MODES: seq<Mode> := [Resident, PayloadOnSsd]
  const GRAPH_MODES: seq<Mode> := [HybridDisk, DiskPayload]
  const SYSTEM_MODES: seq<Mode> := [HybridDisk]

  /** `METHOD_SPECS` */
  const SPECS: seq<Spec> := [
    Spec(L05a, PQ4, QUANTIZER_MODES),
    Spec(L05a, SQ4, QUANTIZER_MODES),
    Spec(L05a, SaqB4, QUANTIZER_MODES),
    Spec(L05a, OursRaBitQ, QUANTIZER_MODES),
    Spec(L05b, PqDiskAnn, GRAPH_MODES),
    Spec(L05b, SqDiskAnn, GRAPH_MODES),
    Spec(L05b, SaqDiskAnn, GRAPH_MODES),
    Spec(L05b, OursDisk, SYSTEM_MODES),
    Spec(L05c, OursDisk, SYSTEM_MODES),
    Spec(L05c, SymphonyQG, SYSTEM_MODES),
    Spec(L05c, OgLvq, SYSTEM_MODES),
    Spec(L05c, GlassNsg, SYSTEM_MODES),
    Spec(L05c, DiskAnnPq, SYSTEM_MODES)
  ]

  /** The specs asked for, or the names a layer does not have. */
  datatype Selection = Specs(value: seq<Spec>) | ContractError(unknown: set<Method>)

  // --- Which specs ----------------------------------------------------------------------------------------

  function LayerMethods(layer: Layer, table: seq<Spec>): (names: set<Method>)
    ensures forall m :: m in names <==> exists i :: 0 <= i < |table| && table[i].layer == layer && table[i].name == m
  {
    set i | 0 <= i < |table| && table[i].layer == layer :: table[i].name
  }

  /** The specs of a layer with these names, in the order of the table. */
  function Selected(table: seq<Spec>, layer: Layer, wanted: set<Method>): (r: seq<Spec>)
    ensures forall s :: s in r <==> s in table && s.layer == layer && s.name in wanted
    decreases |table|
  {
    if table == [] then []
    else
      var front, last := table[..|table| - 1], table[|table| - 1];
      assert table == front + [last];
      Selected(front, layer, wanted) + if last.layer == layer && last.name in wanted then [last] else []
  }

  /** The specs chosen stand in the table in this order. */
  ghost predicate OrderedIn(chosen: seq<Spec>, at: seq<nat>, table: seq<Spec>) {
    && |at| == |chosen| && (forall a, b :: 0 <= a < b < |at| ==> at[a] < at[b])
    && forall t :: 0 <= t < |at| ==> at[t] < |table| && chosen[t] == table[at[t]]
  }

  lemma {:induction false} OrderedNext(chosen: seq<Spec>, at: seq<nat>, front: seq<Spec>, last: Spec)
    requires OrderedIn(chosen, at, front)
    ensures OrderedIn(chosen, at, front + [last])
    ensures OrderedIn(chosen + [last], at + [|front|], front + [last])
  {}

  lemma {:induction false} SelectedInOrder(table: seq<Spec>, layer: Layer, wanted: set<Method>) returns (at: seq<nat>)
    ensures OrderedIn(Selected(table, layer, wanted), at, table)
    decreases |table|
  {
    at := [];
    if table == [] {
    } else {
      var front, last := table[..|table| - 1], table[|table| - 1];
      at := SelectedInOrder(front, layer, wanted);
      OrderedNext(Selected(front, layer, wanted), at, front, last);
      assert table == front + [last];
      hide OrderedIn;
      if last.layer == layer && last.name in wanted {
        at := at + [|front|];
      }
    }
  }

  /** `specs_for`: no names stand for all of the layer's; a name the layer does not have is an error. */
  function SpecsFor(table: seq<Spec>, layer: Layer, methods: set<Method>): (r: Selection) {
    var wanted := if methods == {} then LayerMethods(layer, table) else methods;
    var unknown := wanted - LayerMethods(layer, table);
    if unknown != {} then ContractError(unknown) else Specs(Selected(table, layer, wanted))
  }

  /** No layer has two specs of one name. */
  predicate Unambiguous(table: seq<Spec>) {
    forall i, j :: 0 <= i < j < |table| ==> table[i].layer != table[j].layer || table[i].name != table[j].name
  }

  predicate DistinctModes(modes: seq<Mode>) {
    forall i, j :: 0 <= i < j < |modes| ==> modes[i] != modes[j]
  }

  predicate WellFormed(table: seq<Spec>) {
    Unambiguous(table) && forall i :: 0 <= i < |table| ==> table[i].modes != [] && DistinctModes(table[i].modes)
  }

  /** Where the table has the spec of this layer and name. */
  function Index(layer: Layer, name: Method): nat {
    match name
    case PQ4 => 0
    case SQ4 => 1
    case SaqB4 => 2
    case OursRaBitQ => 3
    case PqDiskAnn => 4
    case SqDiskAnn => 5
    case SaqDiskAnn => 6
    case OursDisk => if layer == L05b then 7 else 8
    case SymphonyQG => 9
    case OgLvq => 10
    case GlassNsg => 11
    case DiskAnnPq => 12
  }

  /** The table is well formed. */
  lemma {:induction false} SpecsWellFormed()
    ensures WellFormed(SPECS)
  {
    forall i | 0 <= i < |SPECS|
      ensures Index(SPECS[i].layer, SPECS[i].name) == i && SPECS[i].modes != [] && DistinctModes(SPECS[i].modes) {}
  }

  /** Under a well-formed table the chosen specs have different names. */
  predicate DistinctNames(specs: seq<Spec>) {
    forall i, j :: 0 <= i < j < |specs| ==> specs[i].name != specs[j].name
  }

  lemma {:induction false} SelectedDistinct(table: seq<Spec>, layer: Layer, wanted: set<Method>)
    requires Unambiguous(table)
    ensures DistinctNames(Selected(table, layer, wanted))
    decreases |table|
  {
    if table == [] {
      return;
    }
    var front, last := table[..|table| - 1], table[|table| - 1];
    SelectedDistinct(front, layer, wanted);
    var chosen := Selected(front, layer, wanted);
    forall i | 0 <= i < |chosen| && last.layer == layer ensures chosen[i].name != last.name {
      assert chosen[i] in front;
      var k :| 0 <= k < |front| && front[k] == chosen[i];
      assert table[k] == chosen[i];
    }
  }

  /** `specs_for` fails exactly on unknown names, and otherwise returns exactly the specs asked for. */
  lemma {:induction false} SpecsForExact(table: seq<Spec>, layer: Layer, methods: set<Method>)
    requires Unambiguous(table)
    ensures SpecsFor(table, layer, methods).Specs? <==> methods <= LayerMethods(layer, table)
    ensures var r := SpecsFor(table, layer, methods); r.Specs? ==> DistinctNames(r.value)
    ensures var r := SpecsFor(table, layer, methods);
      r.Specs? ==> forall s :: s in r.value <==> s in table && s.layer == layer && (methods == {} || s.name in methods)
    ensures var r := SpecsFor(table, layer, methods); r.Specs? ==> exists at :: OrderedIn(r.value, at, table)
  {
    var all := LayerMethods(layer, table);
    var wanted := if methods == {} then all else methods;
    SelectedDistinct(table, layer, wanted);
    var at := SelectedInOrder(table, layer, wanted);
    hide OrderedIn, Selected;
    if wanted <= all {
      assert wanted - all == {};
    } else {
      var m :| m in wanted && m !in all;
      assert m in wanted - all;
    }
    forall s | s in table && s.layer == layer ensures s.name in all {
      var i :| 0 <= i < |table| && table[i] == s;
    }
  }

  // --- Coverage -------------------------------------------------------------------------------------------

  /** One run of one method. */
  datatype WorkItem = WorkItem(spec: Spec, mode: Mode, repeat: nat, workers: nat, budget: real, cache: Cache)

  /** What a measured run reports of the item it ran. */
  datatype Row = Row(name: Method, mode: Mode, repeat: nat, workers: nat, budget: real, cache: Cache)

  function RowOf(w: WorkItem): Row {
    Row(w.spec.name, w.mode, w.repeat, w.workers, w.budget, w.cache)
  }

  function PrimaryCache(layer: Layer): Cache {
    if layer == L05a then C0 else Standard
  }

  /** The extra settings of the GIST runs. */
  predicate IsExtra(budget: real, cache: Cache) {
    (budget == 1.0 && cache == Standard) || (budget == 4.0 && cache == Standard) || (budget == 2.0 && cache == C0)
  }

  predicate HasExtras(layer: Layer, gist: bool) {
    gist && layer != L05a
  }

  /** The runs a spec and mode must have. */
  predicate NeededFor(w: WorkItem, spec: Spec, mode: Mode, layer: Layer, gist: bool, repeats: nat, workers: seq<nat>) {
    && w.spec == spec && w.mode == mode && w.repeat < repeats
    && ((w.workers in workers && w.budget == 2.0 && w.cache == PrimaryCache(layer))
        || (HasExtras(layer, gist) && w.workers == 1 && IsExtra(w.budget, w.cache)))
  }

  predicate Needed(w: WorkItem, specs: seq<Spec>, layer: Layer, gist: bool, repeats: nat, workers: seq<nat>) {
    w.spec in specs && w.mode in w.spec.modes && NeededFor(w, w.spec, w.mode, layer, gist, repeats, workers)
  }

  predicate Found(rows: seq<Row>, w: WorkItem) {
    RowOf(w) in rows
  }

  method CheckRepeats(rows: seq<Row>, spec: Spec, mode: Mode, worker: nat, budget: real, cache: Cache, repeats: nat)
    returns (errors: seq<WorkItem>)
    ensures forall e :: e in errors <==>
      e.repeat < repeats && e == WorkItem(spec, mode, e.repeat, worker, budget, cache) && !Found(rows, e)
  {
    errors := [];
    var repeat := 0;
    while repeat < repeats
      invariant repeat <= repeats
      invariant forall e :: e in errors <==>
        e.repeat < repeat && e == WorkItem(spec, mode, e.repeat, worker, budget, cache) && !Found(rows, e)
    {
      var e := WorkItem(spec, mode, repeat, worker, budget, cache);
      if !Found(rows, e) {
        errors := errors + [e];
      }
      repeat := repeat + 1;
    }
  }

  method CheckMode(rows: seq<Row>, spec: Spec, mode: Mode, layer: Layer, gist: bool, repeats: nat, workers: seq<nat>)
    returns (errors: seq<WorkItem>)
    ensures forall e :: e in errors <==> NeededFor(e, spec, mode, layer, gist, repeats, workers) && !Found(rows, e)
  {
    hide Found;
    errors := [];
    var primary := PrimaryCache(layer);
    var i := 0;
    while i < |workers|
      invariant i <= |workers|
      invariant forall e :: e in errors <==>
        NeededFor(e, spec, mode, layer, false, repeats, workers[..i]) && !Found(rows, e)
    {
      var more := CheckRepeats(rows, spec, mode, workers[i], 2.0, primary, repeats);
      assert workers[..i + 1] == workers[..i] + [workers[i]];
      errors := errors + more;
      i := i + 1;
    }
    assert workers[..i] == workers;
    if HasExtras(layer, gist) {
      var low := CheckRepeats(rows, spec, mode, 1, 1.0, Standard, repeats);
      var high := CheckRepeats(rows, spec, mode, 1, 4.0, Standard, repeats);
      var cold := CheckRepeats(rows, spec, mode, 1, 2.0, C0, repeats);
      errors := errors + low + high + cold;
    }
  }

  method CheckSpec(rows: seq<Row>, spec: Spec, layer: Layer, gist: bool, repeats: nat, workers: seq<nat>)
    returns (errors: seq<WorkItem>)
    ensures forall e :: e in errors <==>
      e.mode in spec.modes && NeededFor(e, spec, e.mode, layer, gist, repeats, workers) && !Found(rows, e)
  {
    hide Found, HasExtras, IsExtra, PrimaryCache;
    errors := [];
    var i := 0;
    while i < |spec.modes|
      invariant i <= |spec.modes|
      invariant forall e :: e in errors <==>
        e.mode in spec.modes[..i] && NeededFor(e, spec, e.mode, layer, gist, repeats, workers) && !Found(rows, e)
    {
      var more := CheckMode(rows, spec, spec.modes[i], layer, gist, repeats, workers);
      assert spec.modes[..i + 1] == spec.modes[..i] + [spec.modes[i]];
      errors := errors + more;
      i := i + 1;
    }
    assert spec.modes[..i] == spec.modes;
  }

  function Names(rows: seq<Row>): (names: set<Method>)
    ensures forall m :: m in names <==> exists i :: 0 <= i < |rows| && rows[i].name == m
  {
    set i | 0 <= i < |rows| :: rows[i].name
  }

  /** What the coverage loops ask of a result set. */
  ghost predicate Complete(rows: seq<Row>, table: seq<Spec>, layer: Layer, gist: bool, repeats: nat,
                           workers: seq<nat>)
  {
    var specs := Selected(table, layer, LayerMethods(layer, table));
    && Names(rows) == LayerMethods(layer, table)
    && forall w :: Needed(w, specs, layer, gist, repeats, workers) ==> Found(rows, w)
  }

  /** The methods check and the coverage loops of `validate_layer_completeness`: they report exactly the
      missing runs. */
  method Validate(rows: seq<Row>, table: seq<Spec>, layer: Layer, gist: bool, repeats: nat, workers: seq<nat>)
    returns (methodsOk: bool, errors: seq<WorkItem>)
    ensures methodsOk <==> Names(rows) == LayerMethods(layer, table)
    ensures forall e :: e in errors <==>
      Needed(e, Selected(table, layer, LayerMethods(layer, table)), layer, gist, repeats, workers) && !Found(rows, e)
    ensures methodsOk && errors == [] <==> Complete(rows, table, layer, gist, repeats, workers)
  {
    hide Found, HasExtras, IsExtra, PrimaryCache, NeededFor, Names, LayerMethods;
    methodsOk := Names(rows) == LayerMethods(layer, table);
    var specs := Selected(table, layer, LayerMethods(layer, table));
    errors := [];
    var i := 0;
    while i < |specs|
      invariant i <= |specs|
      invariant forall e :: e in errors <==>
        e.spec in specs[..i] && e.mode in e.spec.modes
        && NeededFor(e, e.spec, e.mode, layer, gist, repeats, workers) && !Found(rows, e)
    {
      var more := CheckSpec(rows, specs[i], layer, gist, repeats, workers);
      SpecOf(more, specs[i], layer, gist, repeats, workers, rows);
      assert specs[..i + 1] == specs[..i] + [specs[i]];
      errors := errors + more;
      i := i + 1;
    }
    assert specs[..i] == specs;
    NoneMissing(errors, rows, specs, layer, gist, repeats, workers);
  }

  lemma {:induction false} SpecOf(errors: seq<WorkItem>, spec: Spec, layer: Layer, gist: bool, repeats: nat,
                                  workers: seq<nat>, rows: seq<Row>)
    requires forall e :: e in errors <==>
      e.mode in spec.modes && NeededFor(e, spec, e.mode, layer, gist, repeats, workers) && !Found(rows, e)
    ensures forall e :: e in errors <==>
      e.spec == spec && e.mode in e.spec.modes
      && NeededFor(e, e.spec, e.mode, layer, gist, repeats, workers) && !Found(rows, e)
  {
    hide Found, HasExtras, IsExtra, PrimaryCache;
  }

  lemma {:induction false} NoneMissing(errors: seq<WorkItem>, rows: seq<Row>, specs: seq<Spec>, layer: Layer,
                                       gist: bool, repeats: nat, workers: seq<nat>)
    requires forall e :: e in errors <==> Needed(e, specs, layer, gist, repeats, workers) && !Found(rows, e)
    ensures errors == [] <==> forall w :: Needed(w, specs, layer, gist, repeats, workers) ==> Found(rows, w)
  {
    hide Found, Needed;
    if errors != [] {
      assert errors[0] in errors;
    }
  }
}
