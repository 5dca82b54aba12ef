/** `_pareto_front`: the rows that no other row beats on both recall and speed. */
module Pareto {
  import opened Collections
  import opened Rounding
  import opened Wrappers

  datatype Row = Row(id: nat, recall: real, qps: real)

  /** A dictionary key: a recall, as a whole number of ten-digit decimals. */
  datatype Rounded = Rounded(units: int)

  /** Recall to ten decimals, as a whole number of them. */
  function Key(r: Row): int {
    RoundHalfEven(r.recall * 10000000000.0)
  }

  function At(r: Row): Rounded {
    Rounded(Key(r))
  }

  lemma {:induction false} KeyMonotone(a: Row, b: Row)
    requires a.recall <= b.recall
    ensures Key(a) <= Key(b)
  {
    RoundMonotone(a.recall * 10000000000.0, b.recall * 10000000000.0);
  }

  /** `a` is at least as good as `b` on both counts. */
  predicate Covers(a: Row, b: Row) {
    Key(a) >= Key(b) && a.qps >= b.qps
  }

  /** And better on one. */
  predicate Dominates(a: Row, b: Row) {
    Covers(a, b) && (Key(a) > Key(b) || a.qps > b.qps)
  }

  // --- The best row of each recall ------------------------------------------------------------------------

  ghost predicate BestOf(best: map<Rounded, Row>, rows: seq<Row>) {
    && (forall k :: k in best ==> At(best[k]) == k && best[k] in rows)
    && (forall i :: 0 <= i < |rows| ==> At(rows[i]) in best && best[At(rows[i])].qps >= rows[i].qps)
  }

  lemma {:induction false} BestNext(best: map<Rounded, Row>, rows: seq<Row>, i: nat)
    requires i < |rows| && BestOf(best, rows[..i])
    ensures var row := rows[i];
      BestOf(if At(row) !in best || row.qps > best[At(row)].qps then best[At(row) := row] else best, rows[..i + 1])
  {
    hide Key;
    var more := rows[..i + 1];
    assert more == rows[..i] + [rows[i]];
    assert forall r :: r in more <==> r in rows[..i] || r == rows[i];
    assert forall j :: 0 <= j < i ==> more[j] == rows[..i][j];
  }

  method BestByRecall(rows: seq<Row>) returns (best: map<Rounded, Row>)
    ensures BestOf(best, rows)
  {
    hide Key, BestOf;
    best := map[];
    var i := 0;
    NoRows(rows);
    while i < |rows|
      invariant i <= |rows| && BestOf(best, rows[..i])
    {
      var row := rows[i];
      BestNext(best, rows, i);
      if At(row) !in best || row.qps > best[At(row)].qps {
        best := best[At(row) := row];
      }
      i := i + 1;
    }
    assert rows[..i] == rows;
  }

  lemma {:induction false} NoRows(rows: seq<Row>)
    ensures BestOf(map[], rows[..0])
  {}

  // --- Sorting --------------------------------------------------------------------------------------------

  ghost predicate Keyed(best: map<Rounded, Row>) {
    forall k :: k in best ==> At(best[k]) == k
  }

  predicate Falling(rows: seq<Row>) {
    forall i, j :: 0 <= i < j < |rows| ==> rows[i].recall > rows[j].recall
  }

  predicate IsHighest(r: Row, rows: set<Row>) {
    r in rows && forall q :: q in rows ==> q.recall <= r.recall
  }

  /** Some row has the highest recall. */
  lemma {:induction false} HighestExists(rows: set<Row>)
    requires rows != {}
    ensures exists r :: IsHighest(r, rows)
  {
    var ge := (a: Row, b: Row) => a.recall >= b.recall;
    FirstExists(rows, ge);
    var r :| IsFirst(r, rows, ge);
    assert IsHighest(r, rows);
  }

  ghost predicate Distinct(rows: set<Row>) {
    forall a, b :: a in rows && b in rows && a.recall == b.recall ==> a == b
  }

  /** `sorted(..., reverse=True)` by recall. */
  method SortByRecall(rows: set<Row>) returns (ordered: seq<Row>)
    requires Distinct(rows)
    ensures Falling(ordered) && forall r :: r in ordered <==> r in rows
  {
    ordered := [];
    var rest := rows;
    while rest != {}
      invariant SortedSoFar(rows, ordered, rest)
      decreases |rest|
    {
      hide SortedSoFar;
      HighestExists(rest);
      var row :| row in rest && IsHighest(row, rest);
      TakeHighest(rows, ordered, rest, row);
      ordered := ordered + [row];
      rest := rest - {row};
    }
  }

  /** The rows sorted so far come before the rest. */
  ghost predicate SortedSoFar(rows: set<Row>, ordered: seq<Row>, rest: set<Row>) {
    && Falling(ordered) && rest <= rows
    && (forall r :: r in rows <==> r in ordered || r in rest)
    && forall i, r :: 0 <= i < |ordered| && r in rest ==> ordered[i].recall > r.recall
  }

  lemma {:induction false} TakeHighest(rows: set<Row>, ordered: seq<Row>, rest: set<Row>, row: Row)
    requires Distinct(rows) && SortedSoFar(rows, ordered, rest) && IsHighest(row, rest)
    ensures SortedSoFar(rows, ordered + [row], rest - {row})
  {
    forall r | r in rest - {row} ensures row.recall > r.recall {
      assert r in rows && row in rows;
    }
  }

  /** Rows of different keys have different recall. */
  lemma {:induction false} ValuesDistinct(best: map<Rounded, Row>)
    requires Keyed(best)
    ensures Distinct(best.Values)
    ensures forall r :: r in best.Values <==> At(r) in best && best[At(r)] == r
  {
    hide Key;
    forall a, b | a in best.Values && b in best.Values && a.recall == b.recall ensures a == b {
      KeyMonotone(a, b);
      KeyMonotone(b, a);
    }
  }

  // --- The scan -------------------------------------------------------------------------------------------

  /** Some kept row is at least as good as `r`. */
  ghost predicate Covered(kept: seq<Row>, r: Row) {
    exists i :: 0 <= i < |kept| && kept[i].recall >= r.recall && kept[i].qps >= r.qps
  }

  ghost predicate From(kept: seq<Row>, seen: seq<Row>) {
    forall i :: 0 <= i < |kept| ==> kept[i] in seen
  }

  ghost predicate Steep(kept: seq<Row>) {
    forall i, j :: 0 <= i < j < |kept| ==> kept[i].recall > kept[j].recall && kept[i].qps < kept[j].qps
  }

  ghost predicate AllCovered(kept: seq<Row>, seen: seq<Row>) {
    forall j :: 0 <= j < |seen| ==> Covered(kept, seen[j])
  }

  ghost predicate NoneFaster(seen: seq<Row>, best: Option<real>) {
    forall j :: 0 <= j < |seen| ==> best.Some? && seen[j].qps <= best.value
  }

  /** Rows of higher recall than a kept one are slower. */
  ghost predicate Unbeaten(kept: seq<Row>, seen: seq<Row>) {
    forall i, j :: 0 <= i < |kept| && 0 <= j < |seen| && seen[j].recall > kept[i].recall ==> seen[j].qps < kept[i].qps
  }

  /** The rows kept of those scanned, fastest last; `best` is its speed. */
  ghost predicate Scanned(kept: seq<Row>, best: Option<real>, seen: seq<Row>) {
    && From(kept, seen) && Steep(kept) && AllCovered(kept, seen) && NoneFaster(seen, best) && Unbeaten(kept, seen)
    && best == (if kept == [] then None else Some(kept[|kept| - 1].qps))
  }

  ghost predicate Below(row: Row, seen: seq<Row>) {
    forall j :: 0 <= j < |seen| ==> seen[j].recall > row.recall
  }

  lemma {:induction false} CoveredLonger(kept: seq<Row>, row: Row, r: Row)
    ensures Covered(kept, r) ==> Covered(kept + [row], r)
    ensures row.recall >= r.recall && row.qps >= r.qps ==> Covered(kept + [row], r)
  {
    var more := kept + [row];
    if Covered(kept, r) {
      var i :| 0 <= i < |kept| && kept[i].recall >= r.recall && kept[i].qps >= r.qps;
      assert more[i] == kept[i];
    }
    assert more[|kept|] == row;
  }

  lemma {:induction false} KeptAbove(kept: seq<Row>, seen: seq<Row>, row: Row)
    requires From(kept, seen) && Below(row, seen)
    ensures Below(row, kept) && From(kept, seen + [row])
  {
    forall i | 0 <= i < |kept| ensures kept[i].recall > row.recall {
      var j :| 0 <= j < |seen| && seen[j] == kept[i];
    }
  }

  lemma {:induction false} KeepSteep(kept: seq<Row>, best: Option<real>, row: Row)
    requires Steep(kept) && Below(row, kept) && best == (if kept == [] then None else Some(kept[|kept| - 1].qps))
    requires best.None? || row.qps > best.value
    ensures Steep(kept + [row])
  {
    forall i | 0 <= i < |kept| ensures kept[i].qps < row.qps {
      if i < |kept| - 1 {
        assert kept[i].qps < kept[|kept| - 1].qps;
      }
    }
  }

  lemma {:induction false} KeepUnbeaten(kept: seq<Row>, best: Option<real>, seen: seq<Row>, row: Row)
    requires Unbeaten(kept, seen) && Below(row, kept) && NoneFaster(seen, best)
    ensures best.None? || row.qps > best.value ==> Unbeaten(kept + [row], seen + [row])
    ensures Unbeaten(kept, seen + [row])
  {}

  lemma {:induction false} ScanKeep(kept: seq<Row>, best: Option<real>, seen: seq<Row>, row: Row)
    requires Scanned(kept, best, seen) && Below(row, seen)
    requires best.None? || row.qps > best.value
    ensures Scanned(kept + [row], Some(row.qps), seen + [row])
  {
    hide Covered, Steep, Unbeaten, Below, From;
    KeptAbove(kept, seen, row);
    KeepSteep(kept, best, row);
    KeepUnbeaten(kept, best, seen, row);
    FromNext(kept, seen, row);
    var more := seen + [row];
    forall j | 0 <= j < |more| ensures Covered(kept + [row], more[j]) {
      CoveredLonger(kept, row, more[j]);
    }
  }

  lemma {:induction false} FromNext(kept: seq<Row>, seen: seq<Row>, row: Row)
    requires From(kept, seen)
    ensures From(kept + [row], seen + [row])
  {}

  lemma {:induction false} ScanSkip(kept: seq<Row>, best: Option<real>, seen: seq<Row>, row: Row)
    requires Scanned(kept, best, seen) && Below(row, seen)
    requires best.Some? && row.qps <= best.value
    ensures Scanned(kept, best, seen + [row])
  {
    hide Covered, Steep, Unbeaten, From;
    KeptAbove(kept, seen, row);
    KeepUnbeaten(kept, best, seen, row);
    CoveredByLast(kept, row);
  }

  lemma {:induction false} CoveredByLast(kept: seq<Row>, row: Row)
    requires kept != [] && Below(row, kept) && row.qps <= kept[|kept| - 1].qps
    ensures Covered(kept, row)
  {
    assert kept[|kept| - 1].recall >= row.recall;
  }

  method Scan(ordered: seq<Row>) returns (kept: seq<Row>, best: Option<real>)
    requires Falling(ordered)
    ensures Scanned(kept, best, ordered)
  {
    hide Scanned, Below;
    kept := [];
    best := None;
    assert Scanned(kept, best, ordered[..0]) by {
      NothingScanned();
    }
    var i := 0;
    while i < |ordered|
      invariant i <= |ordered| && Scanned(kept, best, ordered[..i])
    {
      var row := ordered[i];
      assert ordered[..i + 1] == ordered[..i] + [row];
      BelowFront(ordered, i);
      if best.None? || row.qps > best.value {
        ScanKeep(kept, best, ordered[..i], row);
        kept := kept + [row];
        best := Some(row.qps);
      } else {
        ScanSkip(kept, best, ordered[..i], row);
      }
      i := i + 1;
    }
    assert ordered[..i] == ordered;
  }

  lemma {:induction false} BelowFront(ordered: seq<Row>, i: nat)
    requires Falling(ordered) && i < |ordered|
    ensures Below(ordered[i], ordered[..i])
  {}

  lemma {:induction false} NothingScanned()
    ensures Scanned([], None, [])
  {}

  // --- The front ------------------------------------------------------------------------------------------

  /** Strictly rising recall and strictly falling speed. */
  predicate IsCurve(front: seq<Row>) {
    forall i, j :: 0 <= i < j < |front| ==>
      front[i].recall < front[j].recall && Key(front[i]) < Key(front[j]) && front[i].qps > front[j].qps
  }

  ghost predicate InFront(front: seq<Row>, r: Row) {
    exists i :: 0 <= i < |front| && Covers(front[i], r)
  }

  /** No row beats a row of the front, and the front covers every row. */
  ghost predicate IsFront(front: seq<Row>, rows: seq<Row>) {
    && (forall i :: 0 <= i < |front| ==> front[i] in rows)
    && (forall i, j :: 0 <= i < |front| && 0 <= j < |rows| ==> !Dominates(rows[j], front[i]))
    && (forall j :: 0 <= j < |rows| ==> InFront(front, rows[j]))
  }

  function Reversed(rows: seq<Row>): (r: seq<Row>)
    ensures |r| == |rows| && forall i :: 0 <= i < |rows| ==> r[i] == rows[|rows| - 1 - i]
    ensures forall f :: f in r <==> f in rows
    decreases |rows|
  {
    if rows == [] then []
    else
      assert rows == [rows[0]] + rows[1..];
      Reversed(rows[1..]) + [rows[0]]
  }

  ghost predicate IsOrdered(ordered: seq<Row>, best: map<Rounded, Row>) {
    Falling(ordered) && forall r :: r in ordered <==> At(r) in best && best[At(r)] == r
  }

  /** The row kept for a recall is in the order, and as fast as any row of that recall. */
  lemma {:induction false} Representative(rows: seq<Row>, best: map<Rounded, Row>, ordered: seq<Row>, r: Row)
    returns (rep: Row, j: nat)
    requires BestOf(best, rows) && IsOrdered(ordered, best) && r in rows
    ensures j < |ordered| && ordered[j] == rep && Key(rep) == Key(r) && rep.qps >= r.qps
    ensures forall f :: f in ordered && Key(f) == Key(r) ==> f == rep
  {
    hide Key;
    rep := best[At(r)];
    assert rep in ordered;
    j :| j < |ordered| && ordered[j] == rep;
  }

  lemma {:induction false} NotBeaten(rows: seq<Row>, best: map<Rounded, Row>, ordered: seq<Row>, kept: seq<Row>,
                                     top: Option<real>, i: nat, r: Row)
    requires BestOf(best, rows) && IsOrdered(ordered, best) && Scanned(kept, top, ordered)
    requires i < |kept| && r in rows
    ensures !Dominates(r, kept[i])
  {
    hide Key, Covered, BestOf, IsOrdered, Steep, AllCovered, NoneFaster;
    var rep, j := Representative(rows, best, ordered, r);
    assert kept[i] in ordered;
    var f := kept[i];
    if rep.recall <= f.recall {
      KeyMonotone(rep, f);
    }
  }

  lemma {:induction false} IsCovered(rows: seq<Row>, best: map<Rounded, Row>, ordered: seq<Row>, kept: seq<Row>,
                                     top: Option<real>, r: Row) returns (i: nat)
    requires BestOf(best, rows) && IsOrdered(ordered, best) && Scanned(kept, top, ordered) && r in rows
    ensures i < |kept| && Covers(kept[i], r)
  {
    hide Key, BestOf, IsOrdered, From, Steep, NoneFaster, Unbeaten;
    var rep, j := Representative(rows, best, ordered, r);
    assert Covered(kept, ordered[j]);
    i :| 0 <= i < |kept| && kept[i].recall >= rep.recall && kept[i].qps >= rep.qps;
    KeyMonotone(rep, kept[i]);
  }

  lemma {:induction false} KeptCurve(ordered: seq<Row>, best: map<Rounded, Row>, kept: seq<Row>, top: Option<real>)
    requires IsOrdered(ordered, best) && Scanned(kept, top, ordered)
    ensures IsCurve(Reversed(kept))
  {
    hide Key, Covered, Unbeaten, AllCovered, NoneFaster, Falling;
    var front := Reversed(kept);
    forall i, j | 0 <= i < j < |front| ensures Key(front[i]) < Key(front[j]) {
      var a, b := |kept| - 1 - i, |kept| - 1 - j;
      assert front[i] == kept[a] && front[j] == kept[b];
      assert kept[a] in ordered && kept[b] in ordered;
      KeyMonotone(front[i], front[j]);
    }
  }

  /** `_pareto_front` */
  method ParetoFront(rows: seq<Row>) returns (front: seq<Row>)
    ensures IsCurve(front) && IsFront(front, rows) && IsFrontInRecall(front, rows)
  {
    hide Key, BestOf, Scanned, Falling, Covers, Dominates, IsCurve, IsFront, IsFrontInRecall;
    var best := BestByRecall(rows);
    BestKeyed(best, rows);
    ValuesDistinct(best);
    var ordered := SortByRecall(best.Values);
    var kept, top := Scan(ordered);
    KeptCurve(ordered, best, kept, top);
    front := Reversed(kept);
    ReversedFront(rows, best, ordered, kept, top);
    FrontInRecall(front, rows);
  }

  lemma {:induction false} ReversedFront(rows: seq<Row>, best: map<Rounded, Row>, ordered: seq<Row>, kept: seq<Row>,
                                         top: Option<real>)
    requires BestOf(best, rows) && IsOrdered(ordered, best) && Scanned(kept, top, ordered)
    ensures IsFront(Reversed(kept), rows)
  {
    hide Key, BestOf, Scanned, IsOrdered, Covers, Dominates;
    var front := Reversed(kept);
    forall i | 0 <= i < |front| ensures front[i] in rows {
      KeptRow(rows, best, ordered, kept, top, |kept| - 1 - i);
    }
    forall i, j | 0 <= i < |front| && 0 <= j < |rows| ensures !Dominates(rows[j], front[i]) {
      NotBeaten(rows, best, ordered, kept, top, |kept| - 1 - i, rows[j]);
    }
    forall j | 0 <= j < |rows| ensures InFront(front, rows[j]) {
      var i := IsCovered(rows, best, ordered, kept, top, rows[j]);
      assert front[|kept| - 1 - i] == kept[i];
    }
  }

  lemma {:induction false} BestKeyed(best: map<Rounded, Row>, rows: seq<Row>)
    requires BestOf(best, rows)
    ensures Keyed(best)
  {}

  lemma {:induction false} KeptRow(rows: seq<Row>, best: map<Rounded, Row>, ordered: seq<Row>, kept: seq<Row>,
                                   top: Option<real>, i: nat)
    requires BestOf(best, rows) && IsOrdered(ordered, best) && Scanned(kept, top, ordered) && i < |kept|
    ensures kept[i] in rows
  {
    hide Key, Covered;
    assert kept[i] in ordered;
  }

  predicate Same(a: Row, b: Row) {
    Key(a) == Key(b) && a.qps == b.qps
  }

  /** The front is all of it: a row is unbeaten exactly when the front has a row with the same rounded
      recall and the same speed. */
  lemma {:induction false} FrontIsUnbeaten(front: seq<Row>, rows: seq<Row>, r: Row)
    requires IsFront(front, rows) && r in rows
    ensures (forall j :: 0 <= j < |rows| ==> !Dominates(rows[j], r))
      <==> (exists i :: 0 <= i < |front| && Same(front[i], r))
  {
    hide Key;
    var k :| 0 <= k < |rows| && rows[k] == r;
    assert InFront(front, rows[k]);
    var f :| 0 <= f < |front| && Covers(front[f], r);
    var m :| 0 <= m < |rows| && rows[m] == front[f];
    if forall j :: 0 <= j < |rows| ==> !Dominates(rows[j], r) {
      assert !Dominates(rows[m], r);
      assert Same(front[f], r);
    }
    hide InFront, Covers;
    if exists i :: 0 <= i < |front| && Same(front[i], r) {
      var i :| 0 <= i < |front| && Same(front[i], r);
      forall j | 0 <= j < |rows| ensures !Dominates(rows[j], r) {
        assert !Dominates(rows[j], front[i]);
        SameBeaten(rows[j], front[i], r);
      }
    }
  }

  lemma {:induction false} SameBeaten(q: Row, a: Row, b: Row)
    requires Same(a, b)
    ensures Dominates(q, a) <==> Dominates(q, b)
  {
    hide Key;
  }

  // --- In terms of recall itself ----------------------------------------------------------------------------

  /** One unit of the tenth decimal. */
  const UNIT: real := 0.0000000001

  /** Rows of one key are within one unit of each other, and a row more than one unit better has a higher key. */
  lemma {:induction false} KeyGap(a: Row, b: Row)
    ensures Key(a) == Key(b) ==> -UNIT <= a.recall - b.recall <= UNIT
    ensures Key(a) <= Key(b) ==> a.recall <= b.recall + UNIT
    ensures a.recall <= b.recall ==> Key(a) <= Key(b)
  {
    if a.recall <= b.recall {
      KeyMonotone(a, b);
    }
  }

  /** Recalls with ten decimals are compared as they are. */
  lemma {:induction false} KeyExact(a: Row, m: int)
    requires a.recall == m as real * UNIT
    ensures Key(a) == m
  {}

  /** The front has a row as fast as this one that loses at most one unit of recall. */
  ghost predicate NearlyCovered(front: seq<Row>, r: Row) {
    exists i :: 0 <= i < |front| && front[i].qps >= r.qps && front[i].recall >= r.recall - UNIT
  }

  /** A row as fast as one of the front gains at most one unit of recall. */
  predicate GainsLittle(f: Row, r: Row) {
    r.qps >= f.qps ==> r.recall <= f.recall + UNIT
  }

  /** What the front means for recall and speed themselves. */
  ghost predicate IsFrontInRecall(front: seq<Row>, rows: seq<Row>) {
    && (forall j :: 0 <= j < |rows| ==> NearlyCovered(front, rows[j]))
    && forall i, j :: 0 <= i < |front| && 0 <= j < |rows| ==> GainsLittle(front[i], rows[j])
  }

  lemma {:induction false} CoveredInRecall(front: seq<Row>, r: Row)
    requires InFront(front, r)
    ensures NearlyCovered(front, r)
  {
    hide Key;
    var i :| 0 <= i < |front| && Covers(front[i], r);
    KeyGap(r, front[i]);
  }

  lemma {:induction false} GainInRecall(f: Row, r: Row)
    requires !Dominates(r, f)
    ensures GainsLittle(f, r)
  {
    hide Key;
    KeyGap(r, f);
  }

  lemma {:induction false} FrontInRecall(front: seq<Row>, rows: seq<Row>)
    requires IsFront(front, rows)
    ensures IsFrontInRecall(front, rows)
  {
    hide InFront, Dominates, NearlyCovered, GainsLittle;
    forall j | 0 <= j < |rows| ensures NearlyCovered(front, rows[j]) {
      CoveredInRecall(front, rows[j]);
    }
    forall i, j | 0 <= i < |front| && 0 <= j < |rows| ensures GainsLittle(front[i], rows[j]) {
      GainInRecall(front[i], rows[j]);
    }
  }
}
