/**
 * `deduplicate_all_by_priority` (screens/shared/dedup.py, and the identical copy inside
 * screens/bbox_screen.py): stops of a lower-priority category that lie within the
 * threshold of an already kept stop are dropped. Kept points are indexed by a grid of
 * cells; the cell of a point is an input (the source derives it from the threshold and
 * the mean latitude), as is the distance.
 */
module Dedup {
  import opened Common
  import opened Tables
  import opened AppConfig

  datatype Cell = Cell(x: int, y: int)

  /** `cell_key`, left abstract. */
  type CellOf = LatLon -> Cell

  /** `b` is one of the nine cells around `a`. */
  predicate Neighbour(a: Cell, b: Cell) {
    -1 <= b.x - a.x <= 1 && -1 <= b.y - a.y <= 1
  }

  /** The kept point `q` rules out `p`: it is in a cell around p's and within the threshold. */
  predicate Close(p: LatLon, q: LatLon, threshold: int, dist: Distance, cell: CellOf) {
    Neighbour(cell(p), cell(q)) && dist(p, q) <= threshold as real
  }

  /** `too_close_to_kept`. */
  predicate TooClose(kept: seq<LatLon>, p: LatLon, threshold: int, dist: Distance, cell: CellOf) {
    exists k :: 0 <= k < |kept| && Close(p, kept[k], threshold, dist, cell)
  }

  // ---------------------------------------------------------------------------
  // One category
  // ---------------------------------------------------------------------------

  /** The kept row indices, the kept points after the table, and the removed count. */
  datatype Scan = Scan(keep: seq<nat>, kept: seq<LatLon>, removed: nat)

  /** The loop over one table's rows, starting from the points kept so far. */
  function ScanRows(rows: seq<Stop>, kept0: seq<LatLon>, threshold: int, dist: Distance, cell: CellOf): Scan {
    if rows == [] then Scan([], kept0, 0)
    else
      var n := |rows| - 1;
      var s := ScanRows(rows[..n], kept0, threshold, dist, cell);
      if TooClose(s.kept, rows[n].pos, threshold, dist, cell) then s.(removed := s.removed + 1)
      else Scan(s.keep + [n], s.kept + [rows[n].pos], s.removed)
  }

  /** The shape of one scan: the counts add up, and the kept rows are an increasing
      selection whose points extend the kept list in order. */
  lemma {:induction false} ScanRowsShape(rows: seq<Stop>, kept0: seq<LatLon>, threshold: int, dist: Distance, cell: CellOf)
    ensures var s := ScanRows(rows, kept0, threshold, dist, cell);
      |s.keep| + s.removed == |rows|
      && StrictlyIncreasing(s.keep, |rows|)
      && |s.kept| == |kept0| + |s.keep| && s.kept[..|kept0|] == kept0
      && (forall m :: 0 <= m < |s.keep| ==> s.kept[|kept0| + m] == rows[s.keep[m]].pos)
  {
    if rows != [] {
      var n := |rows| - 1;
      var pre := rows[..n];
      var s := ScanRows(pre, kept0, threshold, dist, cell);
      ScanRowsShape(pre, kept0, threshold, dist, cell);
      assert forall i :: 0 <= i < n ==> pre[i] == rows[i];
      var r := ScanRows(rows, kept0, threshold, dist, cell);
      if !TooClose(s.kept, rows[n].pos, threshold, dist, cell) {
        assert r.keep == s.keep + [n] && r.kept == s.kept + [rows[n].pos];
        assert r.kept[..|kept0|] == s.kept[..|kept0|];
      }
    }
  }

  /** A row is kept only when no point kept before it is close. */
  lemma {:induction false} ScanRowsKeptFar(rows: seq<Stop>, kept0: seq<LatLon>, threshold: int, dist: Distance, cell: CellOf)
    ensures var s := ScanRows(rows, kept0, threshold, dist, cell);
      forall m :: 0 <= m < |s.keep| && |kept0| + m <= |s.kept| && s.keep[m] < |rows| ==>
        !TooClose(s.kept[..|kept0| + m], rows[s.keep[m]].pos, threshold, dist, cell)
  {
    if rows != [] {
      var n := |rows| - 1;
      var pre := rows[..n];
      var s := ScanRows(pre, kept0, threshold, dist, cell);
      ScanRowsShape(pre, kept0, threshold, dist, cell);
      ScanRowsKeptFar(pre, kept0, threshold, dist, cell);
      var r := ScanRows(rows, kept0, threshold, dist, cell);
      if !TooClose(s.kept, rows[n].pos, threshold, dist, cell) {
        assert r.keep == s.keep + [n] && r.kept == s.kept + [rows[n].pos];
        forall m | 0 <= m < |r.keep| && |kept0| + m <= |r.kept| && r.keep[m] < |rows|
          ensures !TooClose(r.kept[..|kept0| + m], rows[r.keep[m]].pos, threshold, dist, cell)
        {
          if m < |s.keep| {
            assert r.kept[..|kept0| + m] == s.kept[..|kept0| + m];
            assert rows[r.keep[m]] == pre[s.keep[m]];
          } else {
            assert r.kept[..|kept0| + m] == s.kept;
          }
        }
      }
    }
  }

  /** A row is removed only when a point kept before it, from a higher-priority table or
      earlier in this one, is close. */
  lemma {:induction false} ScanRowsRemovedNear(rows: seq<Stop>, kept0: seq<LatLon>, threshold: int, dist: Distance, cell: CellOf)
    ensures var s := ScanRows(rows, kept0, threshold, dist, cell);
      forall j :: 0 <= j < |rows| && j !in s.keep ==>
        exists k :: 0 <= k < |s.kept| && Close(rows[j].pos, s.kept[k], threshold, dist, cell)
                    && (k < |kept0| || (k - |kept0| < |s.keep| && s.keep[k - |kept0|] < j))
  {
    if rows != [] {
      var n := |rows| - 1;
      var pre := rows[..n];
      var s := ScanRows(pre, kept0, threshold, dist, cell);
      ScanRowsShape(pre, kept0, threshold, dist, cell);
      ScanRowsRemovedNear(pre, kept0, threshold, dist, cell);
      var r := ScanRows(rows, kept0, threshold, dist, cell);
      forall j | 0 <= j < |rows| && j !in r.keep
        ensures exists k :: 0 <= k < |r.kept| && Close(rows[j].pos, r.kept[k], threshold, dist, cell)
                            && (k < |kept0| || (k - |kept0| < |r.keep| && r.keep[k - |kept0|] < j))
      {
        if j == n {
          assert TooClose(s.kept, rows[n].pos, threshold, dist, cell);
          assert r.keep == s.keep && r.kept == s.kept;
          var k :| 0 <= k < |s.kept| && Close(rows[n].pos, s.kept[k], threshold, dist, cell);
          if k >= |kept0| {
            assert s.keep[k - |kept0|] < n;
          }
        } else {
          assert j !in s.keep && pre[j] == rows[j];
          var k :| 0 <= k < |s.kept| && Close(pre[j].pos, s.kept[k], threshold, dist, cell)
                   && (k < |kept0| || (k - |kept0| < |s.keep| && s.keep[k - |kept0|] < j));
          assert r.kept[..|s.kept|] == s.kept;
          assert r.keep[..|s.keep|] == s.keep;
          assert r.kept[k] == s.kept[k];
          if k >= |kept0| {
            assert r.keep[k - |kept0|] == s.keep[k - |kept0|];
          }
        }
      }
    }
  }

  /** The rows at the kept indices, in order (`df2.iloc[keep_rows]`). */
  function Pick(rows: seq<Stop>, ix: seq<nat>): (out: seq<Stop>)
    requires forall m :: 0 <= m < |ix| ==> ix[m] < |rows|
    ensures |out| == |ix|
    ensures forall m :: 0 <= m < |ix| ==> out[m] == rows[ix[m]]
  {
    seq(|ix|, m requires 0 <= m < |ix| => rows[ix[m]])
  }

  // ---------------------------------------------------------------------------
  // The grid
  // ---------------------------------------------------------------------------

  /** `grid[c]` lists exactly the indices of the kept points in cell `c`. */
  ghost predicate GridIndexes(grid: map<Cell, seq<nat>>, kept: seq<LatLon>, cell: CellOf) {
    (forall c :: c in grid ==> forall j :: 0 <= j < |grid[c]| ==> grid[c][j] < |kept| && cell(kept[grid[c][j]]) == c)
    && (forall k :: 0 <= k < |kept| ==> cell(kept[k]) in grid && k in grid[cell(kept[k])])
  }

  /** `too_close_to_kept`: scans the nine cells around the point through the grid. */
  method TooCloseToKept(p: LatLon, kept: seq<LatLon>, grid: map<Cell, seq<nat>>,
                        threshold: int, dist: Distance, cell: CellOf) returns (b: bool)
    requires GridIndexes(grid, kept, cell)
    ensures b == TooClose(kept, p, threshold, dist, cell)
  {
    var c := cell(p);
    var dx := -1;
    while dx <= 1
      invariant -1 <= dx <= 2
      invariant forall k :: 0 <= k < |kept| && Neighbour(c, cell(kept[k])) && cell(kept[k]).x - c.x < dx
                  ==> !Close(p, kept[k], threshold, dist, cell)
    {
      var dy := -1;
      while dy <= 1
        invariant -1 <= dy <= 2
        invariant forall k :: 0 <= k < |kept| && Neighbour(c, cell(kept[k]))
                    && (cell(kept[k]).x - c.x < dx || (cell(kept[k]).x - c.x == dx && cell(kept[k]).y - c.y < dy))
                    ==> !Close(p, kept[k], threshold, dist, cell)
      {
        var nb := Cell(c.x + dx, c.y + dy);
        var bucket := if nb in grid then grid[nb] else [];
        var j := 0;
        while j < |bucket|
          invariant 0 <= j <= |bucket|
          invariant forall j' :: 0 <= j' < j ==> !Close(p, kept[bucket[j']], threshold, dist, cell)
        {
          var q := kept[bucket[j]];
          if dist(p, q) <= threshold as real {
            assert Close(p, kept[bucket[j]], threshold, dist, cell);
            return true;
          }
          j := j + 1;
        }
        forall k | 0 <= k < |kept| && cell(kept[k]) == nb
          ensures !Close(p, kept[k], threshold, dist, cell)
        {
          var j' :| 0 <= j' < |grid[nb]| && grid[nb][j'] == k;
        }
        dy := dy + 1;
      }
      dx := dx + 1;
    }
    return false;
  }

  /** `add_kept`. */
  method AddKept(p: LatLon, kept: seq<LatLon>, grid: map<Cell, seq<nat>>, cell: CellOf)
    returns (kept': seq<LatLon>, grid': map<Cell, seq<nat>>)
    requires GridIndexes(grid, kept, cell)
    ensures kept' == kept + [p]
    ensures GridIndexes(grid', kept', cell)
  {
    var c := cell(p);
    kept' := kept + [p];
    var bucket := if c in grid then grid[c] else [];
    grid' := grid[c := bucket + [|kept'| - 1]];
    forall k | 0 <= k < |kept'| ensures cell(kept'[k]) in grid' && k in grid'[cell(kept'[k])] {
      if k < |kept| {
        assert kept'[k] == kept[k];
        assert k in grid[cell(kept[k])];
      }
    }
  }

  /** The row loop for one category. */
  method DedupTable(rows: seq<Stop>, kept: seq<LatLon>, grid: map<Cell, seq<nat>>,
                    threshold: int, dist: Distance, cell: CellOf)
    returns (keep: seq<nat>, kept': seq<LatLon>, grid': map<Cell, seq<nat>>, removed: nat)
    requires GridIndexes(grid, kept, cell)
    ensures Scan(keep, kept', removed) == ScanRows(rows, kept, threshold, dist, cell)
    ensures GridIndexes(grid', kept', cell)
  {
    keep, kept', grid', removed := [], kept, grid, 0;
    var i := 0;
    while i < |rows|
      invariant 0 <= i <= |rows|
      invariant Scan(keep, kept', removed) == ScanRows(rows[..i], kept, threshold, dist, cell)
      invariant GridIndexes(grid', kept', cell)
    {
      assert rows[..i + 1][..i] == rows[..i];
      var p := rows[i].pos;
      var close := TooCloseToKept(p, kept', grid', threshold, dist, cell);
      if close {
        removed := removed + 1;
      } else {
        keep := keep + [i];
        kept', grid' := AddKept(p, kept', grid', cell);
      }
      i := i + 1;
    }
    assert rows[..i] == rows;
  }

  // ---------------------------------------------------------------------------
  // All categories
  // ---------------------------------------------------------------------------

  /** The category holds a non-empty table. */
  predicate Present(data: map<string, Option<seq<Stop>>>, t: string) {
    t in data && data[t].Some? && data[t].value != []
  }

  const ZeroCounts: map<string, nat> := map["Train" := 0, "Subway" := 0, "Tram" := 0, "Bus" := 0]

  /** The tables, removed counts, kept indices per category and kept points after a prefix of the categories. */
  datatype State = State(data: map<string, Option<seq<Stop>>>, counts: map<string, nat>,
                         picks: map<string, seq<nat>>, kept: seq<LatLon>)

  /** One pass of the category loop: a present table is scanned against the points kept
      so far; an absent or empty one is skipped. */
  function CategoryPass(s: State, t: string, threshold: int, dist: Distance, cell: CellOf): (s': State)
    ensures s'.data.Keys == s.data.Keys && s'.counts.Keys == s.counts.Keys + (if Present(s.data, t) then {t} else {})
  {
    if !Present(s.data, t) then s
    else
      var rows := s.data[t].value;
      var sc := ScanRows(rows, s.kept, threshold, dist, cell);
      ScanRowsShape(rows, s.kept, threshold, dist, cell);
      State(s.data[t := Some(Pick(rows, sc.keep))], s.counts[t := sc.removed], s.picks[t := sc.keep], sc.kept)
  }

  /** The category loop after the first `n` categories in priority order. */
  function DedupUpTo(data0: map<string, Option<seq<Stop>>>, n: nat, threshold: int, dist: Distance, cell: CellOf): (s: State)
    requires n <= |Categories|
    ensures s.data.Keys == data0.Keys && s.counts.Keys == ZeroCounts.Keys
  {
    if n == 0 then State(data0, ZeroCounts, map[], [])
    else CategoryPass(DedupUpTo(data0, n - 1, threshold, dist, cell), Categories[n - 1], threshold, dist, cell)
  }

  /** Sum of the four counts (`sum(removed_counts.values())`). */
  function Total(counts: map<string, nat>): nat
    requires forall t :: t in Categories ==> t in counts
  {
    counts["Train"] + counts["Subway"] + counts["Tram"] + counts["Bus"]
  }

  /** The result of `deduplicate_all_by_priority`: new tables and removed counts. */
  function DedupAll(data: map<string, Option<seq<Stop>>>, threshold: int, dist: Distance, cell: CellOf)
    : (map<string, Option<seq<Stop>>>, map<string, nat>)
  {
    if threshold <= 0 then (data, ZeroCounts)
    else
      var s := DedupUpTo(data, |Categories|, threshold, dist, cell);
      (s.data, s.counts)
  }

  lemma CategoriesDistinct()
    ensures forall i, j :: 0 <= i < j < |Categories| ==> Categories[i] != Categories[j]
  {
    assert |Categories[0]| == 5 && |Categories[1]| == 6 && |Categories[2]| == 4 && |Categories[3]| == 3;
  }

  /** One category more in the prefix. */
  lemma PrefixSnoc(n: nat)
    requires 0 < n <= |Categories|
    ensures forall t :: t in Categories[..n] <==> t in Categories[..n - 1] || t == Categories[n - 1]
  {
    assert Categories[..n] == Categories[..n - 1] + [Categories[n - 1]];
  }

  /** Tables of categories not yet reached are untouched. */
  lemma {:induction false} DedupUpToDataFrame(data0: map<string, Option<seq<Stop>>>, n: nat, threshold: int, dist: Distance, cell: CellOf)
    requires n <= |Categories|
    ensures var s := DedupUpTo(data0, n, threshold, dist, cell);
      forall t :: t in data0 && t !in Categories[..n] ==> s.data[t] == data0[t]
  {
    if n > 0 {
      DedupUpToDataFrame(data0, n - 1, threshold, dist, cell);
      PrefixSnoc(n);
    }
  }

  /** Counts of categories not yet reached are still 0. */
  lemma {:induction false} DedupUpToCountsFrame(data0: map<string, Option<seq<Stop>>>, n: nat, threshold: int, dist: Distance, cell: CellOf)
    requires n <= |Categories|
    ensures var s := DedupUpTo(data0, n, threshold, dist, cell);
      forall t :: t in ZeroCounts && t !in Categories[..n] ==> s.counts[t] == 0
  {
    if n > 0 {
      DedupUpToCountsFrame(data0, n - 1, threshold, dist, cell);
      PrefixSnoc(n);
    }
  }

  /** Only reached categories have picks. */
  lemma {:induction false} DedupUpToPicksFrame(data0: map<string, Option<seq<Stop>>>, n: nat, threshold: int, dist: Distance, cell: CellOf)
    requires n <= |Categories|
    ensures forall t :: t in DedupUpTo(data0, n, threshold, dist, cell).picks ==> t in Categories[..n]
  {
    if n > 0 {
      DedupUpToPicksFrame(data0, n - 1, threshold, dist, cell);
      PrefixSnoc(n);
    }
  }

  /** Categories not yet reached are untouched, and only reached ones have picks. */
  lemma DedupUpToFrame(data0: map<string, Option<seq<Stop>>>, n: nat, threshold: int, dist: Distance, cell: CellOf)
    requires n <= |Categories|
    ensures var s := DedupUpTo(data0, n, threshold, dist, cell);
      (forall t :: t in data0 && t !in Categories[..n] ==> s.data[t] == data0[t])
      && (forall t :: t in ZeroCounts && t !in Categories[..n] ==> s.counts[t] == 0)
      && (forall t :: t in s.picks ==> t in Categories[..n])
  {
    DedupUpToDataFrame(data0, n, threshold, dist, cell);
    DedupUpToCountsFrame(data0, n, threshold, dist, cell);
    DedupUpToPicksFrame(data0, n, threshold, dist, cell);
  }

  /** How each reached category ends: a present table becomes the rows at its picked
      indices, with kept plus removed equal to its length; an absent or empty one is unchanged. */
  lemma {:induction false} DedupUpToTables(data0: map<string, Option<seq<Stop>>>, n: nat, threshold: int, dist: Distance, cell: CellOf)
    requires n <= |Categories|
    ensures var s := DedupUpTo(data0, n, threshold, dist, cell);
      forall c :: 0 <= c < n ==>
        var t := Categories[c];
        (Present(data0, t) ==>
          t in s.picks && StrictlyIncreasing(s.picks[t], |data0[t].value|)
          && s.data[t] == Some(Pick(data0[t].value, s.picks[t]))
          && |s.picks[t]| + s.counts[t] == |data0[t].value|)
        && (!Present(data0, t) ==> t !in s.picks && s.counts[t] == 0 && (t in data0 ==> s.data[t] == data0[t]))
  {
    CategoriesDistinct();
    if n > 0 {
      DedupUpToTables(data0, n - 1, threshold, dist, cell);
      DedupUpToFrame(data0, n - 1, threshold, dist, cell);
      var s := DedupUpTo(data0, n - 1, threshold, dist, cell);
      var t := Categories[n - 1];
      assert t !in Categories[..n - 1];
      if Present(s.data, t) {
        ScanRowsShape(s.data[t].value, s.kept, threshold, dist, cell);
      }
    }
  }

  /** Every kept point is the position of a picked row of a reached, present category. */
  lemma {:induction false} DedupUpToKept(data0: map<string, Option<seq<Stop>>>, n: nat, threshold: int, dist: Distance, cell: CellOf)
    requires n <= |Categories|
    ensures KeptAll(data0, n, DedupUpTo(data0, n, threshold, dist, cell))
    decreases n, 1
  {
    if n > 0 {
      var s := DedupUpTo(data0, n - 1, threshold, dist, cell);
      var t := Categories[n - 1];
      if Present(s.data, t) {
        DedupUpToKeptStep(data0, n, threshold, dist, cell);
      } else {
        DedupUpToKept(data0, n - 1, threshold, dist, cell);
        forall k | 0 <= k < |s.kept| ensures KeptFrom(data0, s.picks, n, s.kept[k]) {
          assert KeptFrom(data0, s.picks, n - 1, s.kept[k]);
          var c: nat, m: nat :| c < n - 1 && KeptAt(data0, s.picks, c, m, s.kept[k]);
        }
      }
    }
  }

  /** The step of `DedupUpToKept` that scans a present category. */
  lemma DedupUpToKeptStep(data0: map<string, Option<seq<Stop>>>, n: nat, threshold: int, dist: Distance, cell: CellOf)
    requires 0 < n <= |Categories|
    requires Present(DedupUpTo(data0, n - 1, threshold, dist, cell).data, Categories[n - 1])
    ensures KeptAll(data0, n, DedupUpTo(data0, n, threshold, dist, cell))
    decreases n, 0
  {
    var s := DedupUpTo(data0, n - 1, threshold, dist, cell);
    var t := Categories[n - 1];
    var rows := s.data[t].value;
    assert rows == data0[t].value && Present(data0, t) by {
      CategoriesDistinct();
      DedupUpToFrame(data0, n - 1, threshold, dist, cell);
      assert t !in Categories[..n - 1];
    }
    var sc := ScanRows(rows, s.kept, threshold, dist, cell);
    assert DedupUpTo(data0, n, threshold, dist, cell).kept == sc.kept;
    assert DedupUpTo(data0, n, threshold, dist, cell).picks == s.picks[t := sc.keep];
    ScanRowsShape(rows, s.kept, threshold, dist, cell);
    DedupUpToKept(data0, n - 1, threshold, dist, cell);
    KeptExtend(data0, n, s.picks, s.kept, sc.keep, sc.kept);
  }

  /** Appending the positions of the rows picked in category `n - 1` keeps every point accounted for. */
  lemma KeptExtend(data0: map<string, Option<seq<Stop>>>, n: nat, picks: map<string, seq<nat>>,
                   kept: seq<LatLon>, keep: seq<nat>, kept': seq<LatLon>)
    requires 0 < n <= |Categories| && Present(data0, Categories[n - 1])
    requires forall k :: 0 <= k < |kept| ==> KeptFrom(data0, picks, n - 1, kept[k])
    requires StrictlyIncreasing(keep, |data0[Categories[n - 1]].value|)
    requires |kept'| == |kept| + |keep| && kept'[..|kept|] == kept
    requires forall m :: 0 <= m < |keep| ==> kept'[|kept| + m] == data0[Categories[n - 1]].value[keep[m]].pos
    ensures forall k :: 0 <= k < |kept'| ==> KeptFrom(data0, picks[Categories[n - 1] := keep], n, kept'[k])
  {
    var t := Categories[n - 1];
    var picks' := picks[t := keep];
    forall k | 0 <= k < |kept'| ensures KeptFrom(data0, picks', n, kept'[k]) {
      if k < |kept| {
        assert kept'[k] == kept[k];
        var c: nat, m: nat :| c < n - 1 && KeptAt(data0, picks, c, m, kept[k]);
        assert Categories[c] != t by {
          CategoriesDistinct();
        }
        assert KeptAt(data0, picks', c, m, kept'[k]);
      } else {
        var m := k - |kept|;
        assert KeptAt(data0, picks', n - 1, m, kept'[k]);
      }
    }
  }

  /** `p` is the position of the `m`-th picked row of category `c`. */
  ghost predicate KeptAt(data0: map<string, Option<seq<Stop>>>, picks: map<string, seq<nat>>, c: nat, m: nat, p: LatLon) {
    c < |Categories| && Present(data0, Categories[c]) && Categories[c] in picks
    && m < |picks[Categories[c]]| && picks[Categories[c]][m] < |data0[Categories[c]].value|
    && p == data0[Categories[c]].value[picks[Categories[c]][m]].pos
  }

  /** Every point kept in `s` comes from one of the first `n` categories. */
  ghost predicate KeptAll(data0: map<string, Option<seq<Stop>>>, n: nat, s: State) {
    forall k :: 0 <= k < |s.kept| ==> KeptFrom(data0, s.picks, n, s.kept[k])
  }

  ghost predicate KeptFrom(data0: map<string, Option<seq<Stop>>>, picks: map<string, seq<nat>>, n: nat, p: LatLon) {
    exists c: nat, m: nat :: c < n && KeptAt(data0, picks, c, m, p)
  }

  /** Reaching a present category `c` scans its original rows from the points kept so far,
      and those picks survive every later category up to `n`. */
  lemma DedupStep(data0: map<string, Option<seq<Stop>>>, threshold: int, dist: Distance, cell: CellOf, c: nat, n: nat)
    requires c < n <= |Categories| && Present(data0, Categories[c])
    ensures var before := DedupUpTo(data0, c, threshold, dist, cell);
      var fin := DedupUpTo(data0, n, threshold, dist, cell);
      Categories[c] in fin.picks
      && fin.picks[Categories[c]] == ScanRows(data0[Categories[c]].value, before.kept, threshold, dist, cell).keep
  {
    CategoriesDistinct();
    var t := Categories[c];
    DedupUpToFrame(data0, c, threshold, dist, cell);
    assert t !in Categories[..c];
    PicksStable(data0, c + 1, n, threshold, dist, cell);
  }

  /** A stop removed within the first `n` categories is within the threshold, and in a
      neighbouring cell, of a stop kept in a category of the same or higher priority; in the
      same category that stop comes earlier. */
  lemma DedupRemovedNearKept(data0: map<string, Option<seq<Stop>>>, threshold: int, dist: Distance, cell: CellOf,
                             c: nat, j: nat, n: nat)
    requires c < n <= |Categories| && Present(data0, Categories[c])
    requires var s := DedupUpTo(data0, n, threshold, dist, cell);
      Categories[c] in s.picks && j < |data0[Categories[c]].value| && j !in s.picks[Categories[c]]
    ensures var s := DedupUpTo(data0, n, threshold, dist, cell);
      exists c': nat, m: nat, q: LatLon :: c' <= c && KeptAt(data0, s.picks, c', m, q)
        && Close(data0[Categories[c]].value[j].pos, q, threshold, dist, cell)
        && (c' == c ==> s.picks[Categories[c]][m] < j)
  {
    var t := Categories[c];
    var before := DedupUpTo(data0, c, threshold, dist, cell);
    var fin := DedupUpTo(data0, n, threshold, dist, cell);
    var rows := data0[t].value;
    DedupStep(data0, threshold, dist, cell, c, n);
    PicksStable(data0, c, n, threshold, dist, cell);
    DedupUpToKept(data0, c, threshold, dist, cell);
    NearAnchor(data0, c, j, before, fin.picks, threshold, dist, cell);
  }

  /** `DedupRemovedNearKept` for one category, stated over the state before it and the final picks. */
  lemma NearAnchor(data0: map<string, Option<seq<Stop>>>, c: nat, j: nat, before: State,
                   picks': map<string, seq<nat>>, threshold: int, dist: Distance, cell: CellOf)
    requires c < |Categories| && Present(data0, Categories[c]) && j < |data0[Categories[c]].value|
    requires Categories[c] in picks' && j !in picks'[Categories[c]]
    requires picks'[Categories[c]] == ScanRows(data0[Categories[c]].value, before.kept, threshold, dist, cell).keep
    requires forall t :: t in before.picks ==> t in picks' && picks'[t] == before.picks[t]
    requires KeptAll(data0, c, before)
    ensures exists c': nat, m: nat, q: LatLon ::
              (c' <= c && KeptAt(data0, picks', c', m, q)
               && Close(data0[Categories[c]].value[j].pos, q, threshold, dist, cell)
               && (c' == c ==> picks'[Categories[c]][m] < j))
  {
    var rows := data0[Categories[c]].value;
    var kept := before.kept;
    var k := RemovedWitness(rows, kept, threshold, dist, cell, j);
    ScanRowsShape(rows, kept, threshold, dist, cell);
    if k < |kept| {
      NearEarlierAnchor(data0, c, j, before, picks', threshold, dist, cell, k);
    } else {
      NearSameAnchor(data0, c, j, picks', threshold, dist, cell, k - |kept|);
    }
  }

  /** The kept point that rules out a removed row: one kept before the table was scanned,
      or an earlier row of the table. */
  lemma RemovedWitness(rows: seq<Stop>, kept: seq<LatLon>, threshold: int, dist: Distance, cell: CellOf, j: nat)
    returns (k: nat)
    requires j < |rows| && j !in ScanRows(rows, kept, threshold, dist, cell).keep
    ensures var sc := ScanRows(rows, kept, threshold, dist, cell);
      k < |sc.kept| && Close(rows[j].pos, sc.kept[k], threshold, dist, cell)
      && (k < |kept| ==> sc.kept[k] == kept[k])
      && (k >= |kept| ==> k - |kept| < |sc.keep| && sc.keep[k - |kept|] < j)
  {
    var sc := ScanRows(rows, kept, threshold, dist, cell);
    ScanRowsShape(rows, kept, threshold, dist, cell);
    ScanRowsRemovedNear(rows, kept, threshold, dist, cell);
    k :| 0 <= k < |sc.kept| && Close(rows[j].pos, sc.kept[k], threshold, dist, cell)
         && (k < |kept| || (k - |kept| < |sc.keep| && sc.keep[k - |kept|] < j));
    if k < |kept| {
      assert sc.kept[..|kept|][k] == kept[k];
    }
  }

  /** The removed stop lies near a point kept before its category was reached. */
  lemma NearEarlierAnchor(data0: map<string, Option<seq<Stop>>>, c: nat, j: nat, before: State,
                          picks': map<string, seq<nat>>, threshold: int, dist: Distance, cell: CellOf, k: nat)
    requires c < |Categories| && Present(data0, Categories[c]) && j < |data0[Categories[c]].value|
    requires k < |before.kept| && Close(data0[Categories[c]].value[j].pos, before.kept[k], threshold, dist, cell)
    requires forall t :: t in before.picks ==> t in picks' && picks'[t] == before.picks[t]
    requires KeptAll(data0, c, before)
    ensures exists c': nat, m: nat, q: LatLon ::
              (c' <= c && KeptAt(data0, picks', c', m, q)
               && Close(data0[Categories[c]].value[j].pos, q, threshold, dist, cell)
               && (c' == c ==> picks'[Categories[c]][m] < j))
  {
    var q := before.kept[k];
    assert KeptFrom(data0, before.picks, c, q);
    var c', m := StillKeptAt(data0, before.picks, picks', c, q);
    assert c' < c && KeptAt(data0, picks', c', m, q);
  }

  /** The removed stop lies near an earlier row of its own category that was kept. */
  lemma NearSameAnchor(data0: map<string, Option<seq<Stop>>>, c: nat, j: nat,
                       picks': map<string, seq<nat>>, threshold: int, dist: Distance, cell: CellOf, m: nat)
    requires c < |Categories| && Present(data0, Categories[c]) && j < |data0[Categories[c]].value|
    requires Categories[c] in picks' && m < |picks'[Categories[c]]| && picks'[Categories[c]][m] < j
    requires Close(data0[Categories[c]].value[j].pos, data0[Categories[c]].value[picks'[Categories[c]][m]].pos,
                   threshold, dist, cell)
    ensures exists c': nat, m: nat, q: LatLon ::
              (c' <= c && KeptAt(data0, picks', c', m, q)
               && Close(data0[Categories[c]].value[j].pos, q, threshold, dist, cell)
               && (c' == c ==> picks'[Categories[c]][m] < j))
  {
    var q := data0[Categories[c]].value[picks'[Categories[c]][m]].pos;
    assert KeptAt(data0, picks', c, m, q);
  }

  /** A point kept from an earlier category is still kept there once the picks grow. */
  lemma StillKeptAt(data0: map<string, Option<seq<Stop>>>, picks: map<string, seq<nat>>,
                    picks': map<string, seq<nat>>, c: nat, q: LatLon) returns (c': nat, m: nat)
    requires KeptFrom(data0, picks, c, q)
    requires forall t :: t in picks ==> t in picks' && picks'[t] == picks[t]
    ensures c' < c && KeptAt(data0, picks', c', m, q)
  {
    c', m :| c' < c && KeptAt(data0, picks, c', m, q);
  }

  /** No kept point rules out a point kept after it. */
  ghost predicate Spread(kept: seq<LatLon>, threshold: int, dist: Distance, cell: CellOf) {
    forall i, k :: 0 <= i < k < |kept| ==> !Close(kept[k], kept[i], threshold, dist, cell)
  }

  /** Scanning a table keeps the kept points spread out. */
  lemma ScanRowsSpread(rows: seq<Stop>, kept0: seq<LatLon>, threshold: int, dist: Distance, cell: CellOf)
    requires Spread(kept0, threshold, dist, cell)
    ensures Spread(ScanRows(rows, kept0, threshold, dist, cell).kept, threshold, dist, cell)
  {
    var sc := ScanRows(rows, kept0, threshold, dist, cell);
    ScanRowsShape(rows, kept0, threshold, dist, cell);
    ScanRowsKeptFar(rows, kept0, threshold, dist, cell);
    forall i, k | 0 <= i < k < |sc.kept| ensures !Close(sc.kept[k], sc.kept[i], threshold, dist, cell) {
      if k < |kept0| {
        assert sc.kept[k] == kept0[k] && sc.kept[i] == kept0[i];
      } else {
        var m := k - |kept0|;
        assert sc.kept[k] == rows[sc.keep[m]].pos;
        assert sc.kept[..k][i] == sc.kept[i];
      }
    }
  }

  /** After any prefix of the categories, no two kept stops are close. */
  lemma {:induction false} DedupUpToSpread(data0: map<string, Option<seq<Stop>>>, n: nat, threshold: int, dist: Distance, cell: CellOf)
    requires n <= |Categories|
    ensures Spread(DedupUpTo(data0, n, threshold, dist, cell).kept, threshold, dist, cell)
  {
    if n > 0 {
      DedupUpToSpread(data0, n - 1, threshold, dist, cell);
      var s := DedupUpTo(data0, n - 1, threshold, dist, cell);
      var t := Categories[n - 1];
      if Present(s.data, t) {
        ScanRowsSpread(s.data[t].value, s.kept, threshold, dist, cell);
      }
    }
  }

  /** Picks made within the first `n` categories are unchanged after the first `n2`. */
  lemma {:induction false} PicksStable(data0: map<string, Option<seq<Stop>>>, n: nat, n2: nat,
                                       threshold: int, dist: Distance, cell: CellOf)
    requires n <= n2 <= |Categories|
    ensures var s := DedupUpTo(data0, n, threshold, dist, cell);
      var fin := DedupUpTo(data0, n2, threshold, dist, cell);
      forall t :: t in s.picks ==> t in fin.picks && fin.picks[t] == s.picks[t]
    decreases n2 - n
  {
    if n < n2 {
      DedupUpToPicksFrame(data0, n, threshold, dist, cell);
      PicksStable(data0, n + 1, n2, threshold, dist, cell);
      NextNotInPrefix(n);
      PassKeepsOtherPicks(DedupUpTo(data0, n, threshold, dist, cell), Categories[n], threshold, dist, cell);
    }
  }

  /** A pass over one category leaves the picks of every other category alone. */
  lemma PassKeepsOtherPicks(s: State, t: string, threshold: int, dist: Distance, cell: CellOf)
    ensures var s' := CategoryPass(s, t, threshold, dist, cell);
      forall u :: u in s.picks && u != t ==> u in s'.picks && s'.picks[u] == s.picks[u]
  {
  }

  /** The next category is not among the ones already reached. */
  lemma NextNotInPrefix(n: nat)
    requires n < |Categories|
    ensures Categories[n] !in Categories[..n]
  {
    CategoriesDistinct();
  }

  /** With nothing to deduplicate the loop changes nothing. */
  lemma {:induction false} DedupUpToAllAbsent(data0: map<string, Option<seq<Stop>>>, n: nat, threshold: int, dist: Distance, cell: CellOf)
    requires n <= |Categories|
    requires forall t :: t in Categories ==> !Present(data0, t)
    ensures DedupUpTo(data0, n, threshold, dist, cell) == State(data0, ZeroCounts, map[], [])
  {
    if n > 0 {
      DedupUpToAllAbsent(data0, n - 1, threshold, dist, cell);
    }
  }

  /** `deduplicate_all_by_priority(config.all_data, threshold_m)`. */
  method DeduplicateAllByPriority(cfg: Config, threshold: int, dist: Distance, cell: CellOf)
    returns (counts: map<string, nat>, total: nat)
    modifies cfg`allData
    ensures (cfg.allData, counts) == DedupAll(old(cfg.allData), threshold, dist, cell)
    ensures forall t :: t in Categories ==> t in counts
    ensures total == Total(counts)
  {
    if threshold <= 0 {
      return ZeroCounts, 0;
    }
    var data0 := cfg.allData;
    var anyPresent := AnyPresent(data0);
    if !anyPresent {
      DedupUpToAllAbsent(data0, |Categories|, threshold, dist, cell);
      return ZeroCounts, 0;
    }
    counts := DedupCategories(cfg, threshold, dist, cell);
    total := counts["Train"] + counts["Subway"] + counts["Tram"] + counts["Bus"];
  }

  /** Whether any category holds a non-empty table. */
  method AnyPresent(data: map<string, Option<seq<Stop>>>) returns (b: bool)
    ensures !b ==> forall t :: t in Categories ==> !Present(data, t)
  {
    b := false;
    var c := 0;
    while c < |Categories|
      invariant 0 <= c <= |Categories|
      invariant !b ==> forall c' :: 0 <= c' < c ==> !Present(data, Categories[c'])
    {
      var t := Categories[c];
      if t in data && data[t].Some? && data[t].value != [] {
        b := true;
      }
      c := c + 1;
    }
  }

  /** The category loop of `deduplicate_all_by_priority`, with one spatial grid over
      the points kept so far. */
  method DedupCategories(cfg: Config, threshold: int, dist: Distance, cell: CellOf)
    returns (counts: map<string, nat>)
    modifies cfg`allData
    ensures var s := DedupUpTo(old(cfg.allData), |Categories|, threshold, dist, cell);
      cfg.allData == s.data && counts == s.counts
  {
    ghost var data0 := cfg.allData;
    counts := ZeroCounts;
    ghost var picks: map<string, seq<nat>> := map[];
    var kept: seq<LatLon> := [];
    var grid: map<Cell, seq<nat>> := map[];
    var i := 0;
    while i < |Categories|
      invariant 0 <= i <= |Categories|
      invariant State(cfg.allData, counts, picks, kept) == DedupUpTo(data0, i, threshold, dist, cell)
      invariant GridIndexes(grid, kept, cell)
    {
      counts, picks, kept, grid := DedupOne(cfg, Categories[i], counts, picks, kept, grid, threshold, dist, cell);
      i := i + 1;
    }
  }

  /** One pass of the loop, kept in step with `CategoryPass`. */
  method DedupOne(cfg: Config, t: string, counts: map<string, nat>, ghost picks: map<string, seq<nat>>,
                  kept: seq<LatLon>, grid: map<Cell, seq<nat>>, threshold: int, dist: Distance, cell: CellOf)
    returns (counts': map<string, nat>, ghost picks': map<string, seq<nat>>, kept': seq<LatLon>, grid': map<Cell, seq<nat>>)
    requires GridIndexes(grid, kept, cell)
    modifies cfg`allData
    ensures State(cfg.allData, counts', picks', kept')
      == CategoryPass(State(old(cfg.allData), counts, picks, kept), t, threshold, dist, cell)
    ensures GridIndexes(grid', kept', cell)
  {
    counts', picks', kept', grid' := counts, picks, kept, grid;
    var data := cfg.allData;
    if t in data && data[t].Some? && data[t].value != [] {
      var rows := data[t].value;
      var keep, removed;
      keep, kept', grid', removed := DedupTable(rows, kept, grid, threshold, dist, cell);
      ScanRowsShape(rows, kept, threshold, dist, cell);
      cfg.allData := data[t := Some(Pick(rows, keep))];
      counts' := counts[t := removed];
      picks' := picks[t := keep];
    }
  }
}
