/**
 * screens/shared/geo_area_helpers.py: the game-area selection of the region screens. A
 * Nominatim result is added to or removed from `config.game_areas`, keyed by
 * "osm_type:osm_id"; the region geometries are cached by key and combined into one
 * geometry by union and difference. The shapely geometry is kept symbolic.
 */
module GeoAreaHelpers {
  import opened Common
  import opened Text
  import opened Decimal
  import opened Tables
  import opened OsmRegions
  import opened BoundaryDraw
  import opened AppConfig

  // ---------------------------------------------------------------------------
  // Keys and selection
  // ---------------------------------------------------------------------------

  /** A field as an f-string shows it. */
  function Shown(v: Option<string>): string {
    match v
    case None => "None"
    case Some(s) => s
  }

  /** `area_key`. */
  function AreaKey(a: GameArea): string {
    Shown(a.osmType) + ":" + Shown(a.osmId)
  }

  /** The key is the shown type and the shown id on either side of a colon. */
  lemma AreaKeyShape(a: GameArea)
    ensures var n := |Shown(a.osmType)|; var key := AreaKey(a);
      n < |key| && key[..n] == Shown(a.osmType) && key[n] == ':' && key[n + 1..] == Shown(a.osmId)
  {
  }

  /** Entries with the same type and id have the same key. */
  lemma AreaKeySameIds(a: GameArea, b: GameArea)
    requires a.osmType == b.osmType && a.osmId == b.osmId
    ensures AreaKey(a) == AreaKey(b)
  {
  }

  /** When neither the type nor the id of the entries holds a colon, the key tells the
      entries' type and id apart. */
  lemma AreaKeyInjective(a: GameArea, b: GameArea)
    requires ':' !in Shown(a.osmType) && ':' !in Shown(b.osmType)
    requires AreaKey(a) == AreaKey(b)
    ensures Shown(a.osmType) == Shown(b.osmType) && Shown(a.osmId) == Shown(b.osmId)
  {
    SplitOnFirst(Shown(a.osmType), ':', Shown(a.osmId));
    SplitOnFirst(Shown(b.osmType), ':', Shown(b.osmId));
    assert AreaKey(a) == Shown(a.osmType) + [':'] + Shown(a.osmId);
    assert AreaKey(b) == Shown(b.osmType) + [':'] + Shown(b.osmId);
    assert Shown(a.osmType) == SplitOn(AreaKey(a), ':')[0];
    assert Shown(b.osmType) == SplitOn(AreaKey(b), ':')[0];
    assert |Shown(a.osmType)| == |Shown(b.osmType)|;
    assert Shown(a.osmId) == AreaKey(a)[|Shown(a.osmType)| + 1..];
    assert Shown(b.osmId) == AreaKey(b)[|Shown(b.osmType)| + 1..];
  }

  /** `is_selected`: some game area has the item's key. */
  predicate IsSelected(areas: seq<GameArea>, item: GameArea) {
    exists i :: 0 <= i < |areas| && AreaKey(areas[i]) == AreaKey(item)
  }

  /** No two game areas share a key. */
  predicate DistinctKeys(areas: seq<GameArea>) {
    forall i, j :: 0 <= i < j < |areas| ==> AreaKey(areas[i]) != AreaKey(areas[j])
  }

  /** `config.game_areas` after adding an item whose geometry is known; the entry stored
      holds the seven fields of the item, which are all a `GameArea` has. */
  function AddedAreas(areas: seq<GameArea>, item: GameArea): seq<GameArea> {
    if IsSelected(areas, item) then areas else areas + [item]
  }

  /** Adding selects the item, keeps the keys distinct, appends at most one entry, and
      adding the same item again changes nothing. */
  lemma AddedAreasFacts(areas: seq<GameArea>, item: GameArea)
    ensures IsSelected(AddedAreas(areas, item), item)
    ensures DistinctKeys(areas) ==> DistinctKeys(AddedAreas(areas, item))
    ensures AddedAreas(areas, item)[..|areas|] == areas
    ensures |AddedAreas(areas, item)| == |areas| + (if IsSelected(areas, item) then 0 else 1)
    ensures AddedAreas(AddedAreas(areas, item), item) == AddedAreas(areas, item)
  {
    var r := AddedAreas(areas, item);
    if !IsSelected(areas, item) {
      assert AreaKey(r[|areas|]) == AreaKey(item);
      assert r[..|areas|] == areas;
    }
  }

  /** The list comprehension of `remove_from_game_area`. */
  function RemainingAreas(areas: seq<GameArea>, k: string): (r: seq<GameArea>)
    ensures |r| <= |areas|
    decreases |areas|
  {
    if areas == [] then []
    else
      var init := RemainingAreas(areas[..|areas| - 1], k);
      var a := areas[|areas| - 1];
      if AreaKey(a) != k then init + [a] else init
  }

  /** Each entry with another key remains as often as it was there; none with the key does. */
  lemma {:induction false} RemainingAreasCount(areas: seq<GameArea>, k: string)
    ensures forall a :: multiset(RemainingAreas(areas, k))[a] == if AreaKey(a) != k then multiset(areas)[a] else 0
    decreases |areas|
  {
    if areas != [] {
      var pre := areas[..|areas| - 1];
      var last := areas[|areas| - 1];
      RemainingAreasCount(pre, k);
      assert areas == pre + [last];
      assert multiset(areas) == multiset(pre) + multiset{last};
      var init := RemainingAreas(pre, k);
      if AreaKey(last) != k {
        assert multiset(init + [last]) == multiset(init) + multiset{last};
      }
    }
  }

  /** Exactly the entries with another key remain, each as often as it was there. */
  lemma RemainingAreasMembers(areas: seq<GameArea>, k: string)
    ensures forall a :: a in RemainingAreas(areas, k) <==> a in areas && AreaKey(a) != k
    ensures forall a :: AreaKey(a) != k ==> multiset(RemainingAreas(areas, k))[a] == multiset(areas)[a]
    ensures forall a :: AreaKey(a) == k ==> multiset(RemainingAreas(areas, k))[a] == 0
  {
    RemainingAreasCount(areas, k);
    forall a ensures a in RemainingAreas(areas, k) <==> a in areas && AreaKey(a) != k {
      assert a in RemainingAreas(areas, k) <==> a in multiset(RemainingAreas(areas, k));
      assert a in areas <==> a in multiset(areas);
    }
  }

  /** After the removal the item is not selected, and distinct keys stay distinct. */
  lemma {:induction false} RemainingAreasUnselected(areas: seq<GameArea>, item: GameArea)
    ensures !IsSelected(RemainingAreas(areas, AreaKey(item)), item)
    ensures DistinctKeys(areas) ==> DistinctKeys(RemainingAreas(areas, AreaKey(item)))
    decreases |areas|
  {
    var r := RemainingAreas(areas, AreaKey(item));
    RemainingAreasMembers(areas, AreaKey(item));
    forall i | 0 <= i < |r| ensures AreaKey(r[i]) != AreaKey(item) {
      assert r[i] in r;
    }
    if DistinctKeys(areas) {
      RemainingKeepsDistinct(areas, AreaKey(item));
    }
  }

  lemma {:induction false} RemainingKeepsDistinct(areas: seq<GameArea>, k: string)
    requires DistinctKeys(areas)
    ensures DistinctKeys(RemainingAreas(areas, k))
    decreases |areas|
  {
    if areas != [] {
      var pre := areas[..|areas| - 1];
      var a := areas[|areas| - 1];
      assert DistinctKeys(pre) by {
        forall i, j | 0 <= i < j < |pre| ensures AreaKey(pre[i]) != AreaKey(pre[j]) {
          assert pre[i] == areas[i] && pre[j] == areas[j];
        }
      }
      RemainingKeepsDistinct(pre, k);
      if AreaKey(a) != k {
        var init := RemainingAreas(pre, k);
        RemainingAreasCount(pre, k);
        forall i | 0 <= i < |init| ensures AreaKey(init[i]) != AreaKey(a) {
          assert init[i] in multiset(init);
          var j :| 0 <= j < |pre| && pre[j] == init[i];
          assert areas[j] == pre[j];
        }
        DistinctSnoc(init, a);
      }
    }
  }

  /** An entry whose key is new keeps the keys distinct. */
  lemma DistinctSnoc(areas: seq<GameArea>, a: GameArea)
    requires DistinctKeys(areas)
    requires forall i :: 0 <= i < |areas| ==> AreaKey(areas[i]) != AreaKey(a)
    ensures DistinctKeys(areas + [a])
  {
    var r := areas + [a];
    forall i, j | 0 <= i < j < |r| ensures AreaKey(r[i]) != AreaKey(r[j]) {
      assert r[i] == areas[i];
    }
  }

  /** Removing an item right after adding it leaves the other entries as they were. */
  lemma {:induction false} RemoveAfterAdd(areas: seq<GameArea>, item: GameArea)
    ensures RemainingAreas(AddedAreas(areas, item), AreaKey(item)) == RemainingAreas(areas, AreaKey(item))
  {
    if !IsSelected(areas, item) {
      var r := areas + [item];
      assert r[..|r| - 1] == areas;
    }
  }

  /** Nothing to remove: the list is left as it is. */
  lemma {:induction false} RemainingUnselected(areas: seq<GameArea>, item: GameArea)
    requires !IsSelected(areas, item)
    ensures RemainingAreas(areas, AreaKey(item)) == areas
    decreases |areas|
  {
    if areas != [] {
      var pre := areas[..|areas| - 1];
      assert !IsSelected(pre, item) by {
        forall i | 0 <= i < |pre| ensures AreaKey(pre[i]) != AreaKey(item) {
          assert pre[i] == areas[i];
        }
      }
      RemainingUnselected(pre, item);
      assert AreaKey(areas[|areas| - 1]) != AreaKey(item);
      assert areas == pre + [areas[|areas| - 1]];
    }
  }

  // ---------------------------------------------------------------------------
  // Summary line and search
  // ---------------------------------------------------------------------------

  /** The name the summary shows: the display name, "Unnamed" when there is none. */
  function ShownName(a: GameArea): string {
    a.displayName.GetOr("Unnamed")
  }

  /** The summary line and what happens to the "Set hiding zone" button: disabled,
      enabled, or left as it is. */
  datatype Summary = Summary(text: string, button: Option<bool>)

  /** The first three names, as `update_selected_summary` lists them. */
  function FirstNames(areas: seq<GameArea>): (names: seq<string>)
    ensures |names| == Min(|areas|, 3)
    ensures forall i :: 0 <= i < |names| ==> names[i] == ShownName(areas[i])
  {
    var m := Min(|areas|, 3);
    seq(m, i requires 0 <= i < m => ShownName(areas[i]))
  }

  /** `update_selected_summary`, with a missing display name shown as "Unnamed". */
  function SelectedSummary(areas: seq<GameArea>, locked: bool): (r: Summary)
    ensures areas == [] <==> r.button == Some(false)
    ensures areas != [] && locked ==> r.button.None?
    ensures areas != [] && !locked ==> r.button == Some(true)
  {
    var n := |areas|;
    if n == 0 then Summary("Game Area: (none selected)", Some(false))
    else
      var extra := if n <= 3 then "" else " (+" + IntToString(n - 3) + " more)";
      Summary("Game Area: " + IntToString(n) + " selected — " + Join(FirstNames(areas), "; ") + extra,
              if locked then None else Some(true))
  }

  /** No selection disables the button; otherwise the count and up to three names are
      shown, with the number not shown when there are more, and the button is enabled
      unless the hiding zone is locked. */
  lemma SelectedSummaryFacts(areas: seq<GameArea>, locked: bool)
    ensures areas == [] <==> SelectedSummary(areas, locked).button == Some(false)
    ensures areas == [] ==> SelectedSummary(areas, locked).text == "Game Area: (none selected)"
    ensures areas != [] ==> (SelectedSummary(areas, locked).button.None? <==> locked)
    ensures areas != [] ==>
      var prefix := "Game Area: " + IntToString(|areas|) + " selected — ";
      var body := prefix + Join(FirstNames(areas), "; ");
      StartsWith(SelectedSummary(areas, locked).text, body)
      && (|areas| <= 3 <==> SelectedSummary(areas, locked).text == body)
  {
    if areas != [] {
      var prefix := "Game Area: " + IntToString(|areas|) + " selected — ";
      var body := prefix + Join(FirstNames(areas), "; ");
      var t := SelectedSummary(areas, locked).text;
      if |areas| > 3 {
        assert t == body + (" (+" + IntToString(|areas| - 3) + " more)");
        assert |t| > |body|;
      } else {
        assert t == body + "";
      }
      assert t[..|body|] == body;
    }
  }

  /** `update_selected_summary` as written: an entry stored without a display name holds
      `None`, `a.get("display_name", "Unnamed")` returns that `None`, and the join raises
      a TypeError (`None` here) when such an entry is among the first three. */
  function SelectedSummaryAsWritten(areas: seq<GameArea>, locked: bool): (r: Option<Summary>)
    ensures r.Some? ==> r.value == SelectedSummary(areas, locked)
    ensures (forall i :: 0 <= i < |areas| ==> areas[i].displayName.Some?) ==> r.Some?
    ensures areas != [] && areas[0].displayName.None? ==> r.None?
  {
    if |areas| > 0 && exists i :: 0 <= i < Min(|areas|, 3) && areas[i].displayName.None? then None
    else Some(SelectedSummary(areas, locked))
  }

  /** A Nominatim result without "display_name", once added, breaks the summary line. */
  lemma SummaryRaisesWithoutName()
    ensures var a := GameArea(None, Some("relation"), Some("1"), None, None, None, None);
      SelectedSummaryAsWritten([a], false).None?
      && FirstNames([a]) == ["Unnamed"] && SelectedSummary([a], false).button == Some(true)
  {
    var a := GameArea(None, Some("relation"), Some("1"), None, None, None, None);
    assert [a][0].displayName.None?;
  }

  /** The as-written summary agrees with the corrected one whenever the names shown exist. */
  lemma SummaryAgreesWithNames(areas: seq<GameArea>, locked: bool)
    requires forall i :: 0 <= i < |areas| ==> areas[i].displayName.Some?
    ensures SelectedSummaryAsWritten(areas, locked) == Some(SelectedSummary(areas, locked))
  {
  }

  /** What `do_search` does with the query. */
  datatype SearchStep = SearchLocked | NeedQuery | Searching(q: string)

  function DoSearch(locked: bool, query: string): (r: SearchStep)
    ensures locked <==> r.SearchLocked?
    ensures r.Searching? ==> r.q == Strip(query) && r.q != ""
  {
    if locked then SearchLocked
    else if Strip(query) == "" then NeedQuery
    else Searching(Strip(query))
  }

  /** The sort key of the results: boundaries and places first. */
  function ClassRank(a: GameArea): nat {
    if a.cls == Some("boundary") || a.cls == Some("place") then 0 else 1
  }

  function WithRank(items: seq<GameArea>, k: nat): (r: seq<GameArea>)
    ensures forall i :: 0 <= i < |r| ==> ClassRank(r[i]) == k
    ensures forall a :: ClassRank(a) == k ==> multiset(r)[a] == multiset(items)[a]
    ensures forall a :: ClassRank(a) != k ==> multiset(r)[a] == 0
    decreases |items|
  {
    if items == [] then []
    else
      var init := WithRank(items[..|items| - 1], k);
      assert items == items[..|items| - 1] + [items[|items| - 1]];
      if ClassRank(items[|items| - 1]) == k then init + [items[|items| - 1]] else init
  }

  /** The positions in `items` of the results with rank `k`, in increasing order. */
  function RankIndices(items: seq<GameArea>, k: nat): seq<nat>
    decreases |items|
  {
    if items == [] then []
    else
      var init := RankIndices(items[..|items| - 1], k);
      if ClassRank(items[|items| - 1]) == k then init + [|items| - 1] else init
  }

  /** The positions of rank `k` are increasing positions of `items`, exactly those whose rank is `k`. */
  lemma {:induction false} RankIndicesExact(items: seq<GameArea>, k: nat)
    ensures StrictlyIncreasing(RankIndices(items, k), |items|)
    ensures forall j :: 0 <= j < |items| ==> (j in RankIndices(items, k) <==> ClassRank(items[j]) == k)
    decreases |items|
  {
    if items != [] {
      var n := |items| - 1;
      var pre := items[..n];
      RankIndicesExact(pre, k);
      var idx0 := RankIndices(pre, k);
      forall j | 0 <= j < n ensures pre[j] == items[j] { }
      if ClassRank(items[n]) == k {
        assert RankIndices(items, k) == idx0 + [n];
      } else {
        assert RankIndices(items, k) == idx0;
        assert n !in idx0;
      }
    }
  }

  /** `WithRank(items, k)` is `items` read at the positions of rank `k`. */
  lemma {:induction false} WithRankAt(items: seq<GameArea>, k: nat)
    ensures |RankIndices(items, k)| == |WithRank(items, k)|
    ensures forall m :: 0 <= m < |RankIndices(items, k)| ==>
      RankIndices(items, k)[m] < |items| && WithRank(items, k)[m] == items[RankIndices(items, k)[m]]
    decreases |items|
  {
    if items != [] {
      var n := |items| - 1;
      var pre := items[..n];
      WithRankAt(pre, k);
      var idx0 := RankIndices(pre, k);
      var r0 := WithRank(pre, k);
      var idx := RankIndices(items, k);
      var r := WithRank(items, k);
      forall m | 0 <= m < |idx0| ensures idx0[m] < n && r0[m] == items[idx0[m]] {
        assert pre[idx0[m]] == items[idx0[m]];
      }
      if ClassRank(items[n]) == k {
        assert idx == idx0 + [n];
        assert r == r0 + [items[n]];
        forall m | 0 <= m < |idx| ensures idx[m] < |items| && r[m] == items[idx[m]] {
          if m < |idx0| {
            assert idx[m] == idx0[m] && r[m] == r0[m];
          }
        }
      } else {
        assert idx == idx0;
        assert r == r0;
      }
    }
  }

  /** `sorted(items, key=...)`: Python's sort is stable, so the boundaries and places in
      their order, then the rest in theirs. */
  function SortResults(items: seq<GameArea>): seq<GameArea> {
    WithRank(items, 0) + WithRank(items, 1)
  }

  /** The sorted results are a permutation of the results. */
  lemma SortResultsPermutation(items: seq<GameArea>)
    ensures multiset(SortResults(items)) == multiset(items)
  {
    var a0 := WithRank(items, 0);
    var a1 := WithRank(items, 1);
    assert multiset(SortResults(items)) == multiset(a0) + multiset(a1);
    forall a ensures (multiset(a0) + multiset(a1))[a] == multiset(items)[a] {
      if ClassRank(a) == 0 {
        assert multiset(a1)[a] == 0;
      } else {
        assert multiset(a0)[a] == 0;
      }
    }
  }

  /** The sorted results are ordered by the key. */
  lemma SortResultsOrdered(items: seq<GameArea>)
    ensures forall i, j :: 0 <= i < j < |SortResults(items)| ==>
      ClassRank(SortResults(items)[i]) <= ClassRank(SortResults(items)[j])
  {
    var r := SortResults(items);
    var a0 := WithRank(items, 0);
    var a1 := WithRank(items, 1);
    forall i | 0 <= i < |r| ensures ClassRank(r[i]) == if i < |a0| then 0 else 1 {
      if i < |a0| {
        assert r[i] == a0[i];
      } else {
        assert r[i] == a1[i - |a0|];
      }
    }
  }

  /** The positions in `items` of the sorted results. */
  function SortIndices(items: seq<GameArea>): seq<nat> {
    RankIndices(items, 0) + RankIndices(items, 1)
  }

  /** The sort is stable: the sorted results are `items` read at the positions
      `SortIndices(items)`, every position appears exactly once, and two results of the
      same rank keep their order. */
  lemma SortResultsStable(items: seq<GameArea>)
    ensures |SortIndices(items)| == |SortResults(items)|
    ensures forall m :: 0 <= m < |SortIndices(items)| ==>
      SortIndices(items)[m] < |items| && SortResults(items)[m] == items[SortIndices(items)[m]]
    ensures forall j :: 0 <= j < |items| ==> j in SortIndices(items)
    ensures forall m, m' :: 0 <= m < m' < |SortIndices(items)| ==> SortIndices(items)[m] != SortIndices(items)[m']
    ensures forall m, m' :: 0 <= m < m' < |SortIndices(items)| && ClassRank(SortResults(items)[m]) == ClassRank(SortResults(items)[m']) ==>
      SortIndices(items)[m] < SortIndices(items)[m']
  {
    WithRankAt(items, 0);
    WithRankAt(items, 1);
    RankIndicesExact(items, 0);
    RankIndicesExact(items, 1);
    MergedRanks(items, WithRank(items, 0), WithRank(items, 1), RankIndices(items, 0), RankIndices(items, 1));
  }

  /** Two rank classes read off `items` at increasing positions, rank 0 first, make a
      stable arrangement of `items`. */
  lemma MergedRanks(items: seq<GameArea>, a0: seq<GameArea>, a1: seq<GameArea>, i0: seq<nat>, i1: seq<nat>)
    requires |i0| == |a0| && |i1| == |a1|
    requires StrictlyIncreasing(i0, |items|) && StrictlyIncreasing(i1, |items|)
    requires forall m :: 0 <= m < |i0| ==> a0[m] == items[i0[m]]
    requires forall m :: 0 <= m < |i1| ==> a1[m] == items[i1[m]]
    requires forall j :: 0 <= j < |items| ==> (j in i0 <==> ClassRank(items[j]) == 0)
    requires forall j :: 0 <= j < |items| ==> (j in i1 <==> ClassRank(items[j]) == 1)
    ensures |i0 + i1| == |a0 + a1|
    ensures forall m :: 0 <= m < |i0 + i1| ==> (i0 + i1)[m] < |items| && (a0 + a1)[m] == items[(i0 + i1)[m]]
    ensures forall j :: 0 <= j < |items| ==> j in i0 + i1
    ensures forall m, m' :: 0 <= m < m' < |i0 + i1| ==> (i0 + i1)[m] != (i0 + i1)[m']
    ensures forall m, m' :: 0 <= m < m' < |i0 + i1| && ClassRank((a0 + a1)[m]) == ClassRank((a0 + a1)[m']) ==>
      (i0 + i1)[m] < (i0 + i1)[m']
  {
    var idx := i0 + i1;
    var r := a0 + a1;
    forall m | 0 <= m < |idx|
      ensures idx[m] < |items| && r[m] == items[idx[m]]
      ensures ClassRank(r[m]) == if m < |i0| then 0 else 1
    {
      if m < |i0| {
        assert idx[m] == i0[m] && r[m] == a0[m] && i0[m] in i0;
      } else {
        assert idx[m] == i1[m - |i0|] && r[m] == a1[m - |i0|] && i1[m - |i0|] in i1;
      }
    }
    forall m, m' | 0 <= m < m' < |idx|
      ensures idx[m] != idx[m'] && ((m < |i0| <==> m' < |i0|) ==> idx[m] < idx[m'])
    {
      if m' < |i0| {
        assert idx[m] == i0[m] && idx[m'] == i0[m'];
      } else if m >= |i0| {
        assert idx[m] == i1[m - |i0|] && idx[m'] == i1[m' - |i0|];
      }
    }
    forall j | 0 <= j < |items| ensures j in idx {
      if ClassRank(items[j]) == 0 {
        assert j in i0;
      } else {
        assert j in i1;
      }
    }
  }

  /** `zoom_to_bbox`: Nominatim orders the box south, north, west, east. `None` where
      `float` raises. */
  function NominatimBox(bb: seq<string>): (r: Option<BBox>)
    ensures r.Some? <==> |bb| >= 4 && ParseNumber(bb[0]).Some? && ParseNumber(bb[1]).Some?
                         && ParseNumber(bb[2]).Some? && ParseNumber(bb[3]).Some?
    ensures r.Some? ==> |bb| >= 4 && ParseNumber(bb[0]) == Some(r.value.south) && ParseNumber(bb[1]) == Some(r.value.north)
                        && ParseNumber(bb[2]) == Some(r.value.west) && ParseNumber(bb[3]) == Some(r.value.east)
  {
    if |bb| < 4 then None
    else
      match (ParseNumber(bb[0]), ParseNumber(bb[1]), ParseNumber(bb[2]), ParseNumber(bb[3]))
      case (Some(s), Some(n), Some(w), Some(e)) => Some(BBox(s, w, n, e))
      case _ => None
  }

  /** `zoom_to_bbox`: the view calls for the box Nominatim gives, `None` where reading it raises. */
  function ZoomCalls(w: Widget, bb: seq<string>): (r: Option<seq<ViewCall>>)
    ensures r.Some? <==> |bb| >= 4 && ParseNumber(bb[0]).Some? && ParseNumber(bb[1]).Some?
                         && ParseNumber(bb[2]).Some? && ParseNumber(bb[3]).Some?
    ensures r.Some? ==> r.value == ViewCalls(w, BBox(ParseNumber(bb[0]).value, ParseNumber(bb[2]).value,
                                                     ParseNumber(bb[1]).value, ParseNumber(bb[3]).value))
  {
    match NominatimBox(bb)
    case None => None
    case Some(b) => Some(ViewCalls(w, b))
  }

  // ---------------------------------------------------------------------------
  // The selection state
  // ---------------------------------------------------------------------------

  /** The combined game-area geometry, built symbolically from the region shapes. */
  datatype Geom = Shape(gj: GeoJson) | Union(a: Geom, b: Geom) | Difference(a: Geom, b: Geom)

  /** The shapely calls: whether `shape(gj)` succeeds, and `is_empty`. */
  datatype GeomOps = GeomOps(shapeOk: GeoJson -> bool, isEmpty: Geom -> bool)

  /** `geojson_to_shapely(item.get("geojson") or {})`. */
  function GeomOf(ops: GeomOps, gj: Option<GeoJson>): (r: Option<Geom>)
    ensures r.Some? <==> gj.Some? && ops.shapeOk(gj.value)
  {
    match gj
    case None => None
    case Some(g) => if ops.shapeOk(g) then Some(Shape(g)) else None
  }

  /** The region's geometry: the cached one, else the one derived from its GeoJSON. */
  function RegionGeom(ops: GeomOps, cache: map<string, Geom>, item: GameArea): Option<Geom> {
    if AreaKey(item) in cache then Some(cache[AreaKey(item)]) else GeomOf(ops, item.geojson)
  }

  /** The combined geometry after adding `g`. */
  function Combine(ops: GeomOps, combined: Option<Geom>, g: Geom): Geom {
    if combined.None? || ops.isEmpty(combined.value) then g else Union(combined.value, g)
  }

  datatype RemoveOutcome = NoPolygon | NothingSelected | Removed

  /** The state `init_geo_state` returns, with the `config.game_areas` it sets up. */
  class GeoSession {
    const ops: GeomOps
    var regionGeoms: map<string, Geom>
    var combined: Option<Geom>
    var locked: bool

    /** `init_geo_state`: an empty cache, no combined geometry, unlocked; game areas are
        created empty when absent. */
    constructor (cfg: Config, o: GeomOps)
      modifies cfg`gameAreas
      ensures ops == o && regionGeoms == map[] && combined.None? && !locked
      ensures cfg.gameAreas == if old(cfg.gameAreas).None? then Some([]) else old(cfg.gameAreas)
    {
      ops := o;
      regionGeoms := map[];
      combined := None;
      locked := false;
      if cfg.gameAreas.None? {
        cfg.gameAreas := Some([]);
      }
    }

    /** `add_to_game_area` (zooming and drawing are not modelled). `ok` is false where it
        reports "No polygon for this region". */
    method AddToGameArea(cfg: Config, item: GameArea) returns (ok: bool)
      requires cfg.gameAreas.Some?
      modifies this`regionGeoms, this`combined, cfg`gameAreas
      ensures ok <==> RegionGeom(ops, old(regionGeoms), item).Some?
      ensures !ok ==> regionGeoms == old(regionGeoms) && combined == old(combined) && cfg.gameAreas == old(cfg.gameAreas)
      ensures ok ==>
        var g := RegionGeom(ops, old(regionGeoms), item).value;
        regionGeoms == old(regionGeoms)[AreaKey(item) := g]
        && cfg.gameAreas == Some(AddedAreas(old(cfg.gameAreas).value, item))
        && combined == Some(Combine(ops, old(combined), g))
    {
      var k := AreaKey(item);
      if k !in regionGeoms {
        var g := GeomOf(ops, item.geojson);
        if g.None? {
          return false;
        }
        regionGeoms := regionGeoms[k := g.value];
      }
      var areas := cfg.gameAreas.value;
      if !IsSelected(areas, item) {
        cfg.gameAreas := Some(areas + [item]);
      }
      var g := regionGeoms[k];
      if combined.None? || ops.isEmpty(combined.value) {
        combined := Some(g);
      } else {
        combined := Some(Union(combined.value, g));
      }
      return true;
    }

    /** `remove_from_game_area` (drawing is not modelled). */
    method RemoveFromGameArea(cfg: Config, item: GameArea) returns (outcome: RemoveOutcome)
      requires cfg.gameAreas.Some?
      modifies this`regionGeoms, this`combined, cfg`gameAreas
      ensures outcome == NoPolygon <==> RegionGeom(ops, old(regionGeoms), item).None?
      ensures outcome == NoPolygon ==> regionGeoms == old(regionGeoms)
      ensures outcome != NoPolygon ==>
        regionGeoms == old(regionGeoms)[AreaKey(item) := RegionGeom(ops, old(regionGeoms), item).value]
      ensures outcome == NothingSelected <==>
        RegionGeom(ops, old(regionGeoms), item).Some? && (old(combined).None? || ops.isEmpty(old(combined).value))
      ensures outcome != Removed ==> combined == old(combined) && cfg.gameAreas == old(cfg.gameAreas)
      ensures outcome == Removed ==>
        combined == Some(Difference(old(combined).value, RegionGeom(ops, old(regionGeoms), item).value))
        && cfg.gameAreas == Some(RemainingAreas(old(cfg.gameAreas).value, AreaKey(item)))
    {
      var k := AreaKey(item);
      if k !in regionGeoms {
        var g := GeomOf(ops, item.geojson);
        if g.None? {
          return NoPolygon;
        }
        regionGeoms := regionGeoms[k := g.value];
      }
      if combined.None? || ops.isEmpty(combined.value) {
        return NothingSelected;
      }
      var g := regionGeoms[k];
      combined := Some(Difference(combined.value, g));
      cfg.gameAreas := Some(RemainingAreas(cfg.gameAreas.value, k));
      return Removed;
    }
  }
}
