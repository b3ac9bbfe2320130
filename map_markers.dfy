/**
 * screens/shared/map_markers.py: the transit-stop markers of the map, one list of marker
 * handles per stop type, and the single name label shown when a marker is clicked. The
 * label is drawn by a callback the Tk event loop runs later (`root.after(0, ...)`); a new
 * request cancels the one still waiting.
 */
module MapMarkers {
  import opened Common
  import opened Decimal
  import opened Tables
  import opened MapCanvas

  /** The callback waiting in the event loop. */
  datatype Callback = ClearLabel | ShowLabel(pos: LatLon, name: string)

  /** A label marker: a marker with no command (stop markers always have one). */
  predicate IsLabel(o: MapObject) {
    o.Marker? && o.command.NoCommand?
  }

  /** The handles of the label markers on the map. */
  function LabelHandles(objs: map<nat, MapObject>): (r: set<nat>)
    ensures forall h :: h in r <==> h in objs && IsLabel(objs[h])
  {
    set h | h in objs && IsLabel(objs[h])
  }

  /** The label-store invariant: `labelObj` is a label on the map, and every label on the map is it. */
  predicate SingleLabel(objs: map<nat, MapObject>, labelObj: Option<nat>) {
    (labelObj.Some? ==> labelObj.value in objs && IsLabel(objs[labelObj.value]))
    && forall h :: h in objs && IsLabel(objs[h]) ==> labelObj == Some(h)
  }

  /** There is at most one label on the map, and exactly one when `labelObj` is set. */
  lemma AtMostOneLabel(objs: map<nat, MapObject>, labelObj: Option<nat>)
    requires SingleLabel(objs, labelObj)
    ensures |LabelHandles(objs)| <= 1
    ensures |LabelHandles(objs)| == 1 <==> labelObj.Some?
  {
    if labelObj.Some? {
      assert LabelHandles(objs) == {labelObj.value};
    } else {
      assert LabelHandles(objs) == {};
    }
  }

  /** The label sits 0.00035 degrees north of the clicked stop. */
  function LabelLat(lat: Number): Number {
    Normalize(lat.mant * 100000 + 35 * Pow10(lat.exp), lat.exp + 5)
  }

  lemma LabelLatValue(lat: Number)
    ensures Value(LabelLat(lat)) == Value(lat) + 35.0 / 100000.0
  {
    var p := Pow10(lat.exp);
    assert Pow10(lat.exp + 5) == p * 100000 by {
      Pow10Add(lat.exp, 5);
    }
    OffsetSum(lat.mant, p);
  }

  lemma OffsetSum(m: int, p: nat)
    requires p >= 1
    ensures (m * 100000 + 35 * p) as real / (p * 100000) as real == m as real / p as real + 35.0 / 100000.0
  {
    var P := p as real;
    var M := m as real;
    assert (m * 100000 + 35 * p) as real == M * 100000.0 + 35.0 * P;
    assert (p * 100000) as real == P * 100000.0;
    var q := M / P + 35.0 / 100000.0;
    assert q * (P * 100000.0) == M * 100000.0 + 35.0 * P by {
      assert (M / P) * P == M;
    }
    DivOfProduct(M * 100000.0 + 35.0 * P, P * 100000.0, q);
  }

  lemma DivOfProduct(x: real, y: real, q: real)
    requires y != 0.0 && q * y == x
    ensures x / y == q
  {
  }

  /** The number of markers `plot_points` makes from `n` rows: the count is compared with
      the limit only after a marker is added, so a limit below 1 still plots one. */
  function PlotCount(n: nat, limit: int): (k: nat)
    ensures k <= n
  {
    if n == 0 then 0 else if limit <= 1 then 1 else Min(n, limit)
  }

  /** With a limit of at least one, `min(rows, limit)` markers; some marker for any rows. */
  lemma PlotCountBounds(n: nat, limit: int)
    ensures limit >= 1 ==> PlotCount(n, limit) == if n < limit then n else limit
    ensures n > 0 <==> PlotCount(n, limit) > 0
  {
  }

  /** The marker for one stop row: at its position, with the type's icon, showing its
      name when clicked. */
  function StopMarker(s: Stop, icon: Option<string>): MapObject {
    Marker(s.pos, "", icon, ShowLabelOf(s.name))
  }

  /** `k` consecutive handles from `start`. */
  function Handles(start: nat, k: nat): (hs: seq<nat>)
    ensures |hs| == k && forall i :: 0 <= i < k ==> hs[i] == start + i
  {
    seq(k, i requires 0 <= i < k => start + i)
  }

  /** One more handle follows the others. */
  lemma HandlesSnoc(start: nat, k: nat)
    ensures Handles(start, k + 1) == Handles(start, k) + [start + k]
  {
  }

  /** `objs` with the markers of the first `k` rows placed at the handles from `start` on. */
  function Placed(objs: map<nat, MapObject>, start: nat, rows: seq<Stop>, icon: Option<string>, k: nat): map<nat, MapObject>
    requires k <= |rows|
    decreases k
  {
    if k == 0 then objs
    else Placed(objs, start, rows, icon, k - 1)[start + k - 1 := StopMarker(rows[k - 1], icon)]
  }

  /** The handles from `start` on carry the rows' markers in row order, and every other
      object is left as it was. */
  lemma {:induction false} PlacedFacts(objs: map<nat, MapObject>, start: nat, rows: seq<Stop>, icon: Option<string>, k: nat)
    requires k <= |rows|
    ensures forall h :: h in Placed(objs, start, rows, icon, k) <==> h in objs || start <= h < start + k
    ensures forall i :: 0 <= i < k ==> Placed(objs, start, rows, icon, k)[start + i] == StopMarker(rows[i], icon)
    ensures forall h :: h in objs && !(start <= h < start + k) ==> Placed(objs, start, rows, icon, k)[h] == objs[h]
    decreases k
  {
    if k > 0 {
      PlacedFacts(objs, start, rows, icon, k - 1);
    }
  }

  /** One more row places its marker at the next handle. */
  lemma PlacedSnoc(objs: map<nat, MapObject>, start: nat, rows: seq<Stop>, icon: Option<string>, k: nat)
    requires k < |rows|
    ensures Placed(objs, start, rows, icon, k + 1) == Placed(objs, start, rows, icon, k)[start + k := StopMarker(rows[k], icon)]
  {
  }

  /** The handles listed under `t`, none when the type has no list. */
  function MarkersIn(byType: map<string, seq<nat>>, t: string): seq<nat> {
    if t in byType then byType[t] else []
  }

  /** The rows of a table that may be missing. */
  function RowsOf(df: Option<seq<Stop>>): seq<Stop> {
    if df.Some? then df.value else []
  }

  /** The marker lists hold handles already handed out that are not labels. */
  predicate MarkersOk(byType: map<string, seq<nat>>, objs: map<nat, MapObject>, next: nat) {
    forall t, i :: t in byType && 0 <= i < |byType[t]| ==>
      byType[t][i] < next && (byType[t][i] in objs ==> !IsLabel(objs[byType[t][i]]))
  }

  /** Adding a marker under a fresh handle and listing it keeps both invariants. */
  lemma AddMarkerKeeps(byType: map<string, seq<nat>>, objs: map<nat, MapObject>, next: nat, labelObj: Option<nat>,
                       t: string, o: MapObject)
    requires SingleLabel(objs, labelObj) && MarkersOk(byType, objs, next)
    requires next !in objs && !IsLabel(o) && t in byType
    ensures SingleLabel(objs[next := o], labelObj)
    ensures MarkersOk(byType[t := byType[t] + [next]], objs[next := o], next + 1)
  {
    var b2 := byType[t := byType[t] + [next]];
    forall u, i | u in b2 && 0 <= i < |b2[u]|
      ensures b2[u][i] < next + 1 && (b2[u][i] in objs[next := o] ==> !IsLabel(objs[next := o][b2[u][i]]))
    {
      if u == t && i == |byType[t]| {
        assert b2[u][i] == next;
      } else {
        assert b2[u][i] == byType[u][i];
      }
    }
  }

  class MarkerStore {
    const canvas: Canvas
    const icons: map<string, string>
    const transparentIcon: string
    var markersByType: map<string, seq<nat>>
    var labelObj: Option<nat>
    var pending: Option<Callback>

    /** The map's handles are sound; there is a single label at most; and the marker lists
        hold handles the map handed out that are not labels. */
    predicate Valid()
      reads this, canvas
    {
      canvas.Valid()
      && SingleLabel(canvas.objects, labelObj)
      && MarkersOk(markersByType, canvas.objects, canvas.nextId)
    }

    /** `MapMarkers(...)` on a map with no label on it yet. */
    constructor (c: Canvas, iconsByType: map<string, string>, transparent: string)
      requires c.Valid() && LabelHandles(c.objects) == {}
      ensures canvas == c && icons == iconsByType && transparentIcon == transparent
      ensures markersByType == map["Train" := [], "Tram" := [], "Bus" := [], "Subway" := []]
      ensures labelObj.None? && pending.None? && Valid()
    {
      canvas := c;
      icons := iconsByType;
      transparentIcon := transparent;
      markersByType := map["Train" := [], "Tram" := [], "Bus" := [], "Subway" := []];
      labelObj := None;
      pending := None;
    }

    /** `_delete_label_marker`. */
    method DeleteLabelMarker()
      requires Valid()
      modifies this`labelObj, canvas
      ensures Valid() && labelObj.None? && LabelHandles(canvas.objects) == {}
      ensures canvas.objects == (if old(labelObj).Some? then old(canvas.objects) - {old(labelObj).value} else old(canvas.objects))
      ensures canvas.nextId == old(canvas.nextId)
    {
      if labelObj.Some? {
        canvas.Delete(labelObj.value);
        labelObj := None;
      }
    }

    /** `schedule_clear_label`, also the map's left-click command. */
    method ScheduleClearLabel()
      modifies this`pending
      ensures pending == Some(ClearLabel)
    {
      pending := Some(ClearLabel);
    }

    /** `schedule_show_label`. */
    method ScheduleShowLabel(pos: LatLon, name: string)
      modifies this`pending
      ensures pending == Some(ShowLabel(pos, name))
    {
      pending := Some(ShowLabel(pos, name));
    }

    /** The click handler of a stop marker. */
    method ClickMarker(h: nat)
      modifies this`pending
      ensures h in canvas.objects && canvas.objects[h].Marker? && canvas.objects[h].command.ShowLabelOf? ==>
        pending == Some(ShowLabel(canvas.objects[h].pos, canvas.objects[h].command.clickName))
      ensures !(h in canvas.objects && canvas.objects[h].Marker? && canvas.objects[h].command.ShowLabelOf?) ==>
        pending == old(pending)
    {
      if h in canvas.objects && canvas.objects[h].Marker? && canvas.objects[h].command.ShowLabelOf? {
        ScheduleShowLabel(canvas.objects[h].pos, canvas.objects[h].command.clickName);
      }
    }

    /** The event loop runs the waiting callback. Showing deletes the old label first. */
    method RunPending()
      requires Valid()
      modifies this`labelObj, this`pending, canvas
      ensures Valid() && pending.None?
      ensures old(pending).None? ==> labelObj == old(labelObj) && canvas.objects == old(canvas.objects)
      ensures old(pending) == Some(ClearLabel) ==> labelObj.None? && LabelHandles(canvas.objects) == {}
      ensures old(pending).Some? && old(pending).value.ShowLabel? ==>
        var cb := old(pending).value;
        labelObj.Some? && LabelHandles(canvas.objects) == {labelObj.value}
        && canvas.objects[labelObj.value]
             == Marker(LatLon(LabelLat(cb.pos.lat), cb.pos.lon), cb.name, Some(transparentIcon), NoCommand)
    {
      match pending {
        case None =>
        case Some(ClearLabel) =>
          DeleteLabelMarker();
        case Some(ShowLabel(pos, name)) =>
          DeleteLabelMarker();
          var h := canvas.Add(Marker(LatLon(LabelLat(pos.lat), pos.lon), name, Some(transparentIcon), NoCommand));
          labelObj := Some(h);
          assert LabelHandles(canvas.objects) == {h};
      }
      pending := None;
    }

    /** The markers listed for `t`, nothing when the type is unknown. */
    function MarkersOf(t: string): seq<nat>
      reads this
    {
      MarkersIn(markersByType, t)
    }

    /** `clear_markers`: deletes `t`'s markers and empties its list. */
    method ClearMarkers(t: string)
      requires Valid()
      modifies this`markersByType, canvas
      ensures Valid()
      ensures markersByType == old(markersByType)[t := []]
      ensures canvas.objects == RemoveAll(old(canvas.objects), old(MarkersOf(t))) && canvas.nextId == old(canvas.nextId)
    {
      var ms := MarkersOf(t);
      ghost var objs0 := canvas.objects;
      var i := 0;
      while i < |ms|
        invariant 0 <= i <= |ms|
        invariant canvas.Valid() && canvas.nextId == old(canvas.nextId)
        invariant canvas.objects == RemoveAll(objs0, ms[..i])
        invariant markersByType == old(markersByType)
      {
        RemoveAllSnoc(objs0, ms[..i], ms[i]);
        assert ms[..i + 1] == ms[..i] + [ms[i]];
        canvas.Delete(ms[i]);
        i := i + 1;
      }
      assert ms[..i] == ms;
      markersByType := markersByType[t := []];
    }

    /** `self.icons.get(type_name)`. */
    function IconOf(t: string): Option<string> {
      if t in icons then Some(icons[t]) else None
    }

    /** `plot_points`: replaces `t`'s markers with one per row, in row order, up to the limit. */
    method PlotPoints(t: string, df: Option<seq<Stop>>, limit: int)
      requires Valid()
      modifies this`markersByType, canvas
      ensures Valid()
      ensures markersByType == old(markersByType)[t := Handles(old(canvas.nextId), PlotCount(|RowsOf(df)|, limit))]
      ensures canvas.objects == Placed(RemoveAll(old(canvas.objects), old(MarkersOf(t))), old(canvas.nextId),
                                       RowsOf(df), IconOf(t), PlotCount(|RowsOf(df)|, limit))
      ensures canvas.nextId == old(canvas.nextId) + PlotCount(|RowsOf(df)|, limit)
    {
      ClearMarkers(t);
      if df.None? || df.value == [] {
        assert PlotCount(0, limit) == 0;
        return;
      }
      AddStopMarkers(t, df.value, limit);
    }

    /** One stop's marker: added to the map under the next handle and listed under `t`. */
    method AddStopMarker(t: string, s: Stop, icon: Option<string>) returns (h: nat)
      requires Valid() && t in markersByType
      modifies this`markersByType, canvas
      ensures Valid()
      ensures h == old(canvas.nextId) && canvas.nextId == old(canvas.nextId) + 1
      ensures canvas.objects == old(canvas.objects)[h := StopMarker(s, icon)]
      ensures markersByType == old(markersByType)[t := old(markersByType)[t] + [h]]
    {
      AddMarkerKeeps(markersByType, canvas.objects, canvas.nextId, labelObj, t, StopMarker(s, icon));
      h := canvas.Add(StopMarker(s, icon));
      markersByType := markersByType[t := markersByType[t] + [h]];
    }

    /** The row loop of `plot_points`, after `t`'s list was emptied. */
    method AddStopMarkers(t: string, rows: seq<Stop>, limit: int)
      requires Valid() && t in markersByType && markersByType[t] == []
      modifies this`markersByType, canvas
      ensures Valid()
      ensures markersByType == old(markersByType)[t := Handles(old(canvas.nextId), PlotCount(|rows|, limit))]
      ensures canvas.objects == Placed(old(canvas.objects), old(canvas.nextId), rows, IconOf(t), PlotCount(|rows|, limit))
      ensures canvas.nextId == old(canvas.nextId) + PlotCount(|rows|, limit)
    {
      var icon := IconOf(t);
      var count := 0;
      var i := 0;
      while i < |rows|
        invariant 0 <= i <= |rows| && count == i
        invariant i > 0 ==> i < limit
        invariant Valid() && canvas.nextId == old(canvas.nextId) + i
        invariant canvas.objects == Placed(old(canvas.objects), old(canvas.nextId), rows, icon, i)
        invariant markersByType == old(markersByType)[t := Handles(old(canvas.nextId), i)]
      {
        HandlesSnoc(old(canvas.nextId), i);
        PlacedSnoc(old(canvas.objects), old(canvas.nextId), rows, icon, i);
        var h := AddStopMarker(t, rows[i], icon);
        count := count + 1;
        i := i + 1;
        if count >= limit {
          break;
        }
      }
      assert i == PlotCount(|rows|, limit);
    }
  }
}
