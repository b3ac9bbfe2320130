/**
 * screens/bbox_screen.py: the screen that takes two corner points, stores the box,
 * outlines it, fetches the four transit categories into it, makes hiding zones of one
 * radius around every stop and exports stops and zones as KML placemarks.
 *
 * The screen keeps private copies of the label and marker helpers of MapMarkers and
 * of the dedup of Dedup; they are the same code and are modelled there once.
 */
module BboxScreen {
  import opened Common
  import opened Decimal
  import opened Tables
  import opened OverpassRows
  import opened OverpassFetch
  import opened AppConfig
  import opened OsmFetcher
  import opened OsmRegions
  import opened BoundaryDraw
  import opened MapCanvas
  import opened MapMarkers
  import opened HidingZones
  import opened GameAreaSection

  // ---------------------------------------------------------------------------
  // Setting the box
  // ---------------------------------------------------------------------------

  /** `set_path(corners)` passes no width, so the widget draws with its own default width, written 0 here. */
  const WidgetDefaultWidth: int := 0

  /** The corner entries, the outline of the stored box and the view calls made. */
  class BoxPanel {
    const widget: Widget
    /** `bbox_shape["obj"]`: no shape, or the one outline drawn. */
    var outline: seq<Shape>
    /** The entries and the button are disabled once a box is set. */
    var entriesLocked: bool
    /** The calls made to move the map view, oldest first. */
    var views: seq<ViewCall>

    constructor (w: Widget)
      ensures widget == w && outline == [] && !entriesLocked && views == []
    {
      widget := w;
      outline := [];
      entriesLocked := false;
      views := [];
    }

    /** `set_bounding_box`: both entries must read as "lat, lon"; otherwise nothing
        changes. The stored box spans the two points, the view is fitted to it and the
        old outline is replaced by the new one. */
    method SetBoundingBox(cfg: Config, entry1: string, entry2: string) returns (ok: bool)
      modifies this, cfg`boundBox
      ensures ok <==> ParsePoint(entry1).Some? && ParsePoint(entry2).Some?
      ensures !ok ==> cfg.boundBox == old(cfg.boundBox) && outline == old(outline)
                      && entriesLocked == old(entriesLocked) && views == old(views)
      ensures ok ==> cfg.boundBox == Some(SpanBox(ParsePoint(entry1).value, ParsePoint(entry2).value))
                     && entriesLocked
                     && outline == DrawBBox(widget, cfg.boundBox.value, WidgetDefaultWidth)
                     && views == old(views) + ViewCalls(widget, cfg.boundBox.value)
    {
      var p1 := ParsePoint(entry1);
      var p2 := ParsePoint(entry2);
      if p1.None? || p2.None? {
        return false;
      }
      var b := SpanBox(p1.value, p2.value);
      cfg.boundBox := Some(b);
      ShowBox(b);
      ok := true;
    }

    /** The part of `set_bounding_box` after the box is stored: lock the entries, fit the
        view and replace the outline. */
    method ShowBox(b: BBox)
      modifies this
      ensures entriesLocked && outline == DrawBBox(widget, b, WidgetDefaultWidth)
      ensures views == old(views) + ViewCalls(widget, b)
    {
      entriesLocked := true;
      views := views + ViewCalls(widget, b);
      outline := DrawBBox(widget, b, WidgetDefaultWidth);
    }
  }

  /** The drawn outline is the closed five-corner walk around the stored box, and the two
      entries may be given in either order. */
  lemma OutlineOfSetBox(w: Widget, entry1: string, entry2: string)
    requires ParsePoint(entry1).Some? && ParsePoint(entry2).Some?
    ensures var b := SpanBox(ParsePoint(entry1).value, ParsePoint(entry2).value);
      Ordered(b) && b == SpanBox(ParsePoint(entry2).value, ParsePoint(entry1).value)
      && (w.hasSetPath || w.hasSetPolygon ==>
            var pts := DrawBBox(w, b, WidgetDefaultWidth)[0].points;
            |pts| == 5 && pts[0] == pts[4] == LatLon(b.north, b.west)
            && pts[2] == LatLon(b.south, b.east))
  {
    SavedBoxSymmetric(entry1, entry2);
  }

  // ---------------------------------------------------------------------------
  // Fetching
  // ---------------------------------------------------------------------------

  /** `fetch_and_plot`: `fetch_osm_data` on the two entries with the type's status label;
      the markers are redrawn only when rows came back, and left as they are otherwise. */
  method FetchAndPlot(cfg: Config, store: MarkerStore, osmFilter: string, typeName: string,
                      entry1: string, entry2: string, shuffled: seq<string>, net: Oracle<seq<PoiNode>>)
    returns (df: Option<seq<Stop>>)
    requires store.Valid()
    requires multiset(shuffled) == multiset(cfg.overpassMirrors)
    modifies cfg`boundBox, cfg`allData, cfg`dedupValid, store`markersByType, store.canvas
    ensures store.Valid()
    ensures df == if SavedBox(entry1, entry2).Some?
                  then FetchResult(osmFilter, typeName, SavedBox(entry1, entry2).value, shuffled, net) else None
    ensures cfg.boundBox == (if SavedBox(entry1, entry2).Some? then SavedBox(entry1, entry2) else old(cfg.boundBox))
    ensures df.Some? ==> cfg.allData == old(cfg.allData)[typeName := df] && !cfg.dedupValid
                         && store.markersByType == old(store.markersByType)[typeName :=
                              Handles(old(store.canvas.nextId), PlotCount(|df.value|, PlotLimit))]
                         && store.canvas.objects
                            == Placed(RemoveAll(old(store.canvas.objects), old(store.MarkersOf(typeName))),
                                      old(store.canvas.nextId), df.value, store.IconOf(typeName),
                                      PlotCount(|df.value|, PlotLimit))
                         && store.canvas.nextId == old(store.canvas.nextId) + PlotCount(|df.value|, PlotLimit)
    ensures df.None? ==> cfg.allData == old(cfg.allData) && cfg.dedupValid == old(cfg.dedupValid)
                         && store.markersByType == old(store.markersByType)
                         && store.canvas.objects == old(store.canvas.objects)
                         && store.canvas.nextId == old(store.canvas.nextId)
  {
    var attempts;
    df, attempts := FetchOsmData(cfg, osmFilter, typeName, entry1, entry2, shuffled, net);
    if df.Some? && df.value != [] {
      store.PlotPoints(typeName, df, PlotLimit);
    }
  }

  // ---------------------------------------------------------------------------
  // Hiding zones of one radius
  // ---------------------------------------------------------------------------

  /** Every stop gets the same radius: there are no smaller zones near a city here. */
  function UniformParams(radius: int): ZoneParams {
    ZoneParams(radius, false, 0, 0, [])
  }

  /** The zones `create_hiding_zones` makes for a slider radius. */
  function UniformZones(w: Widget, geo: CircleGeo, allData: map<string, Option<seq<Stop>>>, radius: int,
                        dist: Distance): seq<Zone>
  {
    if radius <= 0 then [] else ZonesUpTo(w, geo, allData, |Categories|, UniformParams(radius), dist)
  }

  /** Each zone of the first `n` categories has the radius chosen for its own position. */
  lemma {:induction false} ZonesUpToRadius(w: Widget, geo: CircleGeo, allData: map<string, Option<seq<Stop>>>,
                                           n: nat, p: ZoneParams, dist: Distance)
    requires n <= |Categories|
    ensures forall k :: 0 <= k < |ZonesUpTo(w, geo, allData, n, p, dist)| ==>
      ZonesUpTo(w, geo, allData, n, p, dist)[k].radius == ZoneRadius(ZonesUpTo(w, geo, allData, n, p, dist)[k].pos, p, dist)
  {
    if n > 0 {
      ZonesUpToRadius(w, geo, allData, n - 1, p, dist);
      var pre := ZonesUpTo(w, geo, allData, n - 1, p, dist);
      var tz := TableZones(w, geo, TableOf(allData, Categories[n - 1]), p, dist);
      TableZonesSound(w, geo, TableOf(allData, Categories[n - 1]), p, dist);
      var zs := ZonesUpTo(w, geo, allData, n, p, dist);
      assert zs == pre + tz;
      forall k | 0 <= k < |zs| ensures zs[k].radius == ZoneRadius(zs[k].pos, p, dist) {
        if k < |pre| {
          assert zs[k] == pre[k];
        } else {
          assert zs[k] == tz[k - |pre|];
        }
      }
    }
  }

  /** With a radius of zero no zone is made; otherwise every zone has that radius and there
      is at most one per stop. The result is what the shared zone builder makes with the
      smaller-zone option off, whatever its city entries say. */
  lemma UniformZonesFacts(w: Widget, geo: CircleGeo, allData: map<string, Option<seq<Stop>>>, radius: int,
                          entries: seq<string>, dist: Distance)
    ensures radius <= 0 ==> UniformZones(w, geo, allData, radius, dist) == []
    ensures forall k :: 0 <= k < |UniformZones(w, geo, allData, radius, dist)| ==>
      UniformZones(w, geo, allData, radius, dist)[k].radius == radius
    ensures |UniformZones(w, geo, allData, radius, dist)| <= StopsCount(allData)
    ensures UniformZones(w, geo, allData, radius, dist)
      == CreatedZones(w, geo, allData, ZoneSettings(radius, false, 0, 0), entries, dist)
  {
    StopsCountIsStopsUpTo(allData);
    if radius > 0 {
      ZonesUpToRadius(w, geo, allData, |Categories|, UniformParams(radius), dist);
      ZonesUpToCount(w, geo, allData, |Categories|, UniformParams(radius), dist);
      CreatedZonesRun(w, geo, allData, ZoneSettings(radius, false, 0, 0), entries, [], dist);
      assert ParamsOf(ZoneSettings(radius, false, 0, 0), []) == UniformParams(radius);
    }
  }

  /** `create_hiding_zones`: always clears the old zones first, then draws one zone per
      stop of the four categories wherever the circle can be drawn. */
  method CreateUniformZones(layer: ZoneLayer, cfg: Config, radius: int, dist: Distance)
    modifies layer
    ensures layer.Valid()
    ensures layer.data == UniformZones(layer.widget, layer.geo, cfg.allData, radius, dist)
  {
    layer.Clear();
    if radius <= 0 {
      return;
    }
    var p := UniformParams(radius);
    var c := 0;
    while c < |Categories|
      invariant 0 <= c <= |Categories|
      invariant layer.Valid()
      invariant layer.data == ZonesUpTo(layer.widget, layer.geo, cfg.allData, c, p, dist)
    {
      var t := Categories[c];
      var df := if t in cfg.allData then cfg.allData[t] else None;
      assert ZonesUpTo(layer.widget, layer.geo, cfg.allData, c + 1, p, dist)
        == layer.data + TableZones(layer.widget, layer.geo, TableOf(cfg.allData, t), p, dist);
      if df.Some? && df.value != [] {
        layer.AddTableZones(df.value, p, dist);
      } else {
        assert TableOf(cfg.allData, t) == [];
      }
      c := c + 1;
    }
  }

  // ---------------------------------------------------------------------------
  // Export
  // ---------------------------------------------------------------------------

  /** A placemark of the single "Game area" folder, with its coordinates as `(lon, lat)`. */
  datatype Placemark =
    | PointMark(name: string, description: string, at: Position)
    | ZoneMark(name: string, ring: seq<Position>)

  /** The `name` of a stop's placemark: the type, a colon and the name, "Unnamed" when the
      name is empty. */
  function StopTitle(t: string, name: string): string {
    t + ": " + (if name == [] then "Unnamed" else name)
  }

  /** A stop title reads back as its type and a non-empty name, the stop's own when it has
      one. */
  lemma StopTitleParts(t: string, name: string)
    ensures var s := StopTitle(t, name);
      |s| > |t| + 2 && s[..|t| + 2] == t + ": "
      && s[|t| + 2..] == (if name == [] then "Unnamed" else name)
  {
    var s := StopTitle(t, name);
    var rest := if name == [] then "Unnamed" else name;
    assert s == (t + ": ") + rest;
  }

  /** The point placemarks of one category's rows, in row order. */
  function StopMarks(t: string, rows: seq<Stop>): (ms: seq<Placemark>)
    ensures |ms| == |rows|
  {
    seq(|rows|, i requires 0 <= i < |rows| =>
      PointMark(StopTitle(t, rows[i].name), "Type: " + t, Position(rows[i].pos.lon, rows[i].pos.lat)))
  }

  /** The stop placemarks of the first `n` categories. */
  function StopMarksUpTo(allData: map<string, Option<seq<Stop>>>, n: nat): seq<Placemark>
    requires n <= |Categories|
  {
    if n == 0 then [] else StopMarksUpTo(allData, n - 1) + StopMarks(Categories[n - 1], TableOf(allData, Categories[n - 1]))
  }

  /** One stop placemark per stop, each at the stop's position with longitude first. */
  lemma {:induction false} StopMarksUpToStops(allData: map<string, Option<seq<Stop>>>, n: nat)
    requires n <= |Categories|
    ensures |StopMarksUpTo(allData, n)| == |StopsUpTo(allData, n)|
    ensures forall k :: 0 <= k < |StopMarksUpTo(allData, n)| ==>
      StopMarksUpTo(allData, n)[k].PointMark?
      && StopMarksUpTo(allData, n)[k].at == Position(StopsUpTo(allData, n)[k].pos.lon, StopsUpTo(allData, n)[k].pos.lat)
  {
    if n > 0 {
      StopMarksUpToStops(allData, n - 1);
      var rows := TableOf(allData, Categories[n - 1]);
      var pm := StopMarksUpTo(allData, n - 1);
      var ps := StopsUpTo(allData, n - 1);
      var ms := StopMarksUpTo(allData, n);
      var ss := StopsUpTo(allData, n);
      assert ms == pm + StopMarks(Categories[n - 1], rows);
      assert ss == ps + rows;
      forall k | 0 <= k < |ms|
        ensures ms[k].PointMark? && ms[k].at == Position(ss[k].pos.lon, ss[k].pos.lat)
      {
        if k >= |pm| {
          assert ms[k] == StopMarks(Categories[n - 1], rows)[k - |pm|];
          assert ss[k] == rows[k - |pm|];
        }
      }
    }
  }

  /** The outer boundary of a zone: the circle's points as `(lon, lat)`, closed by the
      first one when the last one differs. */
  function ZoneRing(pts: seq<LatLon>): seq<Position> {
    CloseRing(RingToLonLat(pts))
  }

  /** Every exported zone ring is closed and starts with the circle's points, longitude
      first. */
  lemma ZoneRingClosed(pts: seq<LatLon>)
    requires pts != []
    ensures var r := ZoneRing(pts);
      r != [] && r[0] == r[|r| - 1] && |pts| <= |r| <= |pts| + 1
      && forall i :: 0 <= i < |pts| ==> r[i] == Position(pts[i].lon, pts[i].lat)
  {
    var r := ZoneRing(pts);
    assert r[..|pts|] == RingToLonLat(pts);
    forall i | 0 <= i < |pts| ensures r[i] == Position(pts[i].lon, pts[i].lat) {
      assert r[i] == r[..|pts|][i];
    }
  }

  /** "Hiding zone i (r m)", numbered from 1 over every zone of the list. */
  function ZoneTitle(i: nat, radius: int): string {
    "Hiding zone " + IntToString(i) + " (" + IntToString(radius) + "m)"
  }

  /** The number of circle segments in the export. */
  const ExportSegments: nat := 36

  /** The placemark of the `i`-th zone, if its circle can be drawn. */
  function ZoneMarkOf(geo: CircleGeo, z: Zone, i: nat): Option<Placemark> {
    var pts := CirclePts(geo, z.pos, z.radius, ExportSegments);
    if pts == [] then None else Some(ZoneMark(ZoneTitle(i, z.radius), ZoneRing(pts)))
  }

  /** The zone placemarks of a list of zones, numbered from 1. */
  function ZoneMarks(geo: CircleGeo, zones: seq<Zone>): (ms: seq<Placemark>)
    ensures |ms| <= |zones|
  {
    if zones == [] then []
    else
      var init := ZoneMarks(geo, zones[..|zones| - 1]);
      match ZoneMarkOf(geo, zones[|zones| - 1], |zones|)
      case None => init
      case Some(m) => init + [m]
  }

  /** Every zone placemark has a closed ring of the 37 circle points (38 once closed). */
  lemma {:induction false} ZoneMarksClosed(geo: CircleGeo, zones: seq<Zone>)
    ensures forall k :: 0 <= k < |ZoneMarks(geo, zones)| ==>
      var m := ZoneMarks(geo, zones)[k];
      m.ZoneMark? && m.ring != [] && m.ring[0] == m.ring[|m.ring| - 1]
      && ExportSegments + 1 <= |m.ring| <= ExportSegments + 2
    decreases |zones|
  {
    if zones != [] {
      var pre := zones[..|zones| - 1];
      ZoneMarksClosed(geo, pre);
      var z := zones[|zones| - 1];
      var pts := CirclePts(geo, z.pos, z.radius, ExportSegments);
      if pts != [] {
        ZoneRingClosed(pts);
      }
    }
  }

  /** With every circle drawable there is one placemark per zone. */
  lemma {:induction false} ZoneMarksAll(geo: CircleGeo, zones: seq<Zone>)
    requires forall k :: 0 <= k < |zones| ==> zones[k].radius > 0 && !geo.lonScaleZero(zones[k].pos.lat)
    ensures |ZoneMarks(geo, zones)| == |zones|
    decreases |zones|
  {
    if zones != [] {
      var pre := zones[..|zones| - 1];
      ZoneMarksAll(geo, pre);
    }
  }

  /** The stop placemarks of one category, row by row. */
  method CategoryMarks(t: string, rows: seq<Stop>) returns (ms: seq<Placemark>)
    ensures ms == StopMarks(t, rows)
  {
    ms := [];
    var i := 0;
    while i < |rows|
      invariant 0 <= i <= |rows|
      invariant ms == StopMarks(t, rows[..i])
    {
      var row := rows[i];
      var name := if row.name == [] then "Unnamed" else row.name;
      ms := ms + [PointMark(t + ": " + name, "Type: " + t, Position(row.pos.lon, row.pos.lat))];
      i := i + 1;
    }
    assert rows[..i] == rows;
  }

  /** The zone placemarks, recomputing each circle with 36 segments and skipping the ones
      that cannot be drawn; the numbering still counts them. */
  method ExportZones(geo: CircleGeo, zones: seq<Zone>) returns (ms: seq<Placemark>)
    ensures ms == ZoneMarks(geo, zones)
  {
    ms := [];
    var i := 0;
    while i < |zones|
      invariant 0 <= i <= |zones|
      invariant ms == ZoneMarks(geo, zones[..i])
    {
      var z := zones[i];
      var pts := CirclePoints(geo, z.pos, z.radius, ExportSegments);
      assert zones[..i + 1][..i] == zones[..i];
      if pts != [] {
        var ring := RingToLonLat(pts);
        if ring[0] != ring[|ring| - 1] {
          ring := ring + [ring[0]];
        }
        ms := ms + [ZoneMark(ZoneTitle(i + 1, z.radius), ring)];
      }
      i := i + 1;
    }
    assert zones[..i] == zones;
  }

  /** `save_to_kml`: nothing without a path; otherwise the stops of the four categories
      in order, then the zones. Writing the file is not modelled. */
  method SaveToKml(cfg: Config, geo: CircleGeo, zones: seq<Zone>, path: string) returns (marks: Option<seq<Placemark>>)
    ensures path == [] ==> marks.None?
    ensures path != [] ==> marks == Some(StopMarksUpTo(cfg.allData, |Categories|) + ZoneMarks(geo, zones))
  {
    if path == [] {
      return None;
    }
    var ms: seq<Placemark> := [];
    var c := 0;
    while c < |Categories|
      invariant 0 <= c <= |Categories|
      invariant ms == StopMarksUpTo(cfg.allData, c)
    {
      var t := Categories[c];
      var df := if t in cfg.allData then cfg.allData[t] else None;
      if df.Some? && df.value != [] {
        var cm := CategoryMarks(t, df.value);
        ms := ms + cm;
      }
      c := c + 1;
    }
    var zm := ExportZones(geo, zones);
    marks := Some(ms + zm);
  }

  /** The export has one point placemark per stop, followed by at most one closed zone
      placemark per zone. */
  lemma ExportShape(allData: map<string, Option<seq<Stop>>>, geo: CircleGeo, zones: seq<Zone>)
    ensures |StopMarksUpTo(allData, |Categories|)| == StopsCount(allData)
    ensures |ZoneMarks(geo, zones)| <= |zones|
  {
    StopMarksUpToStops(allData, |Categories|);
    StopsCountIsStopsUpTo(allData);
  }
}
