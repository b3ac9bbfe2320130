/**
 * screens/shared/hiding_zones.py: the hiding zones drawn around every transit stop. A
 * zone is a circle of the large radius, or of the small one when the stop is within the
 * distance limit of one of the "smaller zones" city points; the screen keeps the drawn
 * shapes and, in step with them, the (position, radius) of each zone.
 */
module HidingZones {
  import opened Common
  import opened Text
  import opened Decimal
  import opened Tables
  import opened BoundaryDraw
  import opened AppConfig

  // ---------------------------------------------------------------------------
  // City points
  // ---------------------------------------------------------------------------

  /** `parse_lat_lon`: commas count as spaces, and there must be exactly two numbers;
      `None` where it raises. */
  function ParseLatLon(text: string): (r: Option<LatLon>)
    ensures r.Some? ==> |SplitWs(ReplaceChar(Strip(text), ',', ' '))| == 2
  {
    var parts := SplitWs(ReplaceChar(Strip(text), ',', ' '));
    if |parts| != 2 then None
    else
      match (ParseNumber(parts[0]), ParseNumber(parts[1]))
      case (Some(lat), Some(lon)) => Some(LatLon(lat, lon))
      case _ => None
  }

  /** The separators the error message suggests: spaces and commas, at least one. */
  predicate Separator(sep: string) {
    sep != [] && forall i :: 0 <= i < |sep| ==> sep[i] == ' ' || sep[i] == ','
  }

  lemma FormatEnds(n: Num)
    ensures Format(n) != [] && NoSpace(Format(n)) && ',' !in Format(n)
  {
    forall i | 0 <= i < |Format(n)| ensures !IsSpace(Format(n)[i]) && Format(n)[i] != ',' {
      FormatAlphabet(n, i);
    }
  }

  /** The text after stripping and replacing commas: the two numbers around blanks. */
  lemma SeparatedText(a: string, sep: string, b: string)
    requires a != [] && b != [] && NoSpace(a) && NoSpace(b) && ',' !in a && ',' !in b
    requires Separator(sep)
    ensures SplitWs(ReplaceChar(Strip(a + sep + b), ',', ' ')) == [a, b]
  {
    var s := a + sep + b;
    assert Stripped(s) by {
      assert s[0] == a[0] && s[|s| - 1] == b[|b| - 1];
    }
    StripOfStripped(s);
    var ws := ReplaceChar(sep, ',', ' ');
    calc {
      ReplaceChar(s, ',', ' ');
      == { ReplaceCharAppend(a + sep, b, ',', ' '); ReplaceCharAbsent(b, ',', ' '); }
      ReplaceChar(a + sep, ',', ' ') + b;
      == { ReplaceCharAppend(a, sep, ',', ' '); ReplaceCharAbsent(a, ',', ' '); }
      a + ws + b;
      == 
      a + (ws + b);
    }
    SplitWsTwo(a, ws, b);
  }

  /** "lat lon", "lat, lon" and the like read back as the point. */
  lemma ParseLatLonRoundTrip(p: LatLon, sep: string)
    requires Separator(sep)
    ensures ParseLatLon(Format(p.lat) + sep + Format(p.lon)) == Some(p)
  {
    FormatEnds(p.lat);
    FormatEnds(p.lon);
    SeparatedText(Format(p.lat), sep, Format(p.lon));
    ParseFormat(p.lat);
    ParseFormat(p.lon);
  }

  /** Text that is not exactly two words once commas are blanks is refused. */
  lemma ParseLatLonWordCount(text: string)
    requires |SplitWs(ReplaceChar(Strip(text), ',', ' '))| != 2
    ensures ParseLatLon(text) == None
  {
  }

  /** The city points read from the entry texts: blank entries are skipped, and one
      entry that does not parse makes the whole list fail. */
  function CityPoints(entries: seq<string>): (r: Option<seq<LatLon>>)
    ensures r.Some? ==> |r.value| <= |entries|
    decreases |entries|
  {
    if entries == [] then Some([])
    else
      var txt := Strip(entries[|entries| - 1]);
      match CityPoints(entries[..|entries| - 1])
      case None => None
      case Some(init) =>
        if txt == "" then Some(init)
        else
          match ParseLatLon(txt)
          case None => None
          case Some(p) => Some(init + [p])
  }

  /** The entry loop of `create_hiding_zones`. */
  method ReadCityPoints(entries: seq<string>) returns (points: Option<seq<LatLon>>)
    ensures points == CityPoints(entries)
  {
    var acc: seq<LatLon> := [];
    var i := 0;
    while i < |entries|
      invariant 0 <= i <= |entries|
      invariant CityPoints(entries[..i]) == Some(acc)
    {
      assert entries[..i + 1][..i] == entries[..i];
      var txt := Strip(entries[i]);
      if txt != "" {
        var p := ParseLatLon(txt);
        if p.None? {
          // The error dialog; nothing later is read.
          CityPointsFailPrefix(entries, i + 1);
          return None;
        }
        acc := acc + [p.value];
      }
      i := i + 1;
    }
    assert entries[..i] == entries;
    return Some(acc);
  }

  /** A failing prefix makes the whole list fail. */
  lemma {:induction false} CityPointsFailPrefix(entries: seq<string>, i: nat)
    requires i <= |entries| && CityPoints(entries[..i]).None?
    ensures CityPoints(entries).None?
    decreases |entries| - i
  {
    if i < |entries| {
      assert entries[..i + 1][..i] == entries[..i];
      CityPointsFailPrefix(entries, i + 1);
    } else {
      assert entries[..i] == entries;
    }
  }

  // ---------------------------------------------------------------------------
  // Circles
  // ---------------------------------------------------------------------------

  /** The float trigonometry of `circle_points`, left abstract: the `i`-th of `segments`
      points around a centre, and whether `111_320 * cos(lat)` is zero at a latitude. */
  datatype CircleGeo = CircleGeo(pointAt: (LatLon, int, nat, nat) -> LatLon, lonScaleZero: Number -> bool)

  /** What `circle_points` returns. */
  function CirclePts(geo: CircleGeo, centre: LatLon, radius: int, segments: nat): (pts: seq<LatLon>)
    ensures pts == [] <==> radius <= 0 || geo.lonScaleZero(centre.lat)
    ensures pts != [] ==> |pts| == segments + 1
  {
    if radius <= 0 || geo.lonScaleZero(centre.lat) then []
    else seq(segments + 1, i requires 0 <= i <= segments => geo.pointAt(centre, radius, segments, i))
  }

  /** `circle_points`. The division by `segments` needs at least one. */
  method CirclePoints(geo: CircleGeo, centre: LatLon, radius: int, segments: nat) returns (pts: seq<LatLon>)
    requires segments >= 1
    ensures pts == CirclePts(geo, centre, radius, segments)
    ensures pts != [] ==> forall i :: 0 <= i <= segments ==> pts[i] == geo.pointAt(centre, radius, segments, i)
  {
    if radius <= 0 {
      return [];
    }
    if geo.lonScaleZero(centre.lat) {
      return [];
    }
    pts := [];
    var i := 0;
    while i < segments + 1
      invariant 0 <= i <= segments + 1
      invariant |pts| == i && forall j :: 0 <= j < i ==> pts[j] == geo.pointAt(centre, radius, segments, j)
    {
      pts := pts + [geo.pointAt(centre, radius, segments, i)];
      i := i + 1;
    }
  }

  /** The segment count of `draw_hiding_zone`. */
  function SegmentsFor(radius: int): (seg: nat)
    ensures seg == 18 || seg == 24 || seg == 32
  {
    if radius <= 200 then 18 else if radius <= 600 then 24 else 32
  }

  /** Larger circles get at least as many segments. */
  lemma SegmentsMonotone(r1: int, r2: int)
    requires r1 <= r2
    ensures SegmentsFor(r1) <= SegmentsFor(r2)
  {
  }

  /** The shape `draw_hiding_zone` puts on the map, if any. */
  function ZoneShape(w: Widget, geo: CircleGeo, centre: LatLon, radius: int): (r: Option<Shape>)
    ensures r.Some? <==> radius > 0 && !geo.lonScaleZero(centre.lat) && (w.hasSetPath || w.hasSetPolygon)
    ensures r.Some? ==> r.value.points == CirclePts(geo, centre, radius, SegmentsFor(radius))
                        && |r.value.points| == SegmentsFor(radius) + 1
                        && (r.value.Path? <==> w.hasSetPath)
  {
    var pts := CirclePts(geo, centre, radius, SegmentsFor(radius));
    if pts == [] then None
    else
      var d := DrawWith(w, pts, 1);
      if d == [] then None else Some(d[0])
  }

  /** `draw_hiding_zone`. */
  method DrawHidingZone(w: Widget, geo: CircleGeo, centre: LatLon, radius: int) returns (obj: Option<Shape>)
    ensures obj == ZoneShape(w, geo, centre, radius)
  {
    var seg: nat;
    if radius <= 200 {
      seg := 18;
    } else if radius <= 600 {
      seg := 24;
    } else {
      seg := 32;
    }
    var pts := CirclePoints(geo, centre, radius, seg);
    if pts == [] {
      return None;
    }
    if w.hasSetPath {
      return Some(Path(pts, 1));
    } else if w.hasSetPolygon {
      return Some(PolygonShape(pts, 1));
    }
    return None;
  }

  // ---------------------------------------------------------------------------
  // Zones
  // ---------------------------------------------------------------------------

  /** The sliders and the checkbox: large radius (m), "use smaller zones", small radius
      (m) and distance from a city point (km). */
  datatype ZoneSettings = ZoneSettings(largeR: int, useSmall: bool, smallR: int, distKm: int)

  /** What one run works with, once the settings and city points are read. */
  datatype ZoneParams = ZoneParams(largeR: int, useSmall: bool, smallR: int, limitM: int, city: seq<LatLon>)

  /** One entry of `hide_zone_data`: `(lat, lon, radius)`. */
  datatype Zone = Zone(pos: LatLon, radius: int)

  /** Some city point is within `limit` metres. */
  predicate NearSomeCity(pos: LatLon, city: seq<LatLon>, limit: int, dist: Distance) {
    exists k :: 0 <= k < |city| && dist(pos, city[k]) <= limit as real
  }

  /** The radius of a stop's zone. */
  function ZoneRadius(pos: LatLon, p: ZoneParams, dist: Distance): int {
    if p.useSmall && p.city != [] && p.smallR > 0 && p.limitM > 0 && NearSomeCity(pos, p.city, p.limitM, dist)
    then p.smallR else p.largeR
  }

  /** A stop gets the small radius exactly when smaller zones are on, there are city
      points, both the small radius and the limit are positive, and a city point is
      within the limit; otherwise the large one. */
  lemma ZoneRadiusChoice(pos: LatLon, p: ZoneParams, dist: Distance)
    requires p.smallR != p.largeR
    ensures ZoneRadius(pos, p, dist) == p.smallR <==>
      p.useSmall && p.city != [] && p.smallR > 0 && p.limitM > 0 && NearSomeCity(pos, p.city, p.limitM, dist)
    ensures ZoneRadius(pos, p, dist) == p.smallR || ZoneRadius(pos, p, dist) == p.largeR
  {
  }

  /** The `for clat, clon in city_points` search with its `break`. */
  method NearCity(pos: LatLon, city: seq<LatLon>, limit: int, dist: Distance) returns (near: bool)
    ensures near <==> NearSomeCity(pos, city, limit, dist)
  {
    var k := 0;
    while k < |city|
      invariant 0 <= k <= |city|
      invariant forall j :: 0 <= j < k ==> !(dist(pos, city[j]) <= limit as real)
    {
      if dist(pos, city[k]) <= limit as real {
        return true;
      }
      k := k + 1;
    }
    return false;
  }

  /** The zone a stop gets, if its shape could be drawn. */
  function ZoneFor(w: Widget, geo: CircleGeo, s: Stop, p: ZoneParams, dist: Distance): Option<Zone> {
    var radius := ZoneRadius(s.pos, p, dist);
    if ZoneShape(w, geo, s.pos, radius).Some? then Some(Zone(s.pos, radius)) else None
  }

  /** The zones of one table's rows, in row order. */
  function TableZones(w: Widget, geo: CircleGeo, rows: seq<Stop>, p: ZoneParams, dist: Distance): (zs: seq<Zone>)
    ensures |zs| <= |rows|
    decreases |rows|
  {
    if rows == [] then []
    else
      var init := TableZones(w, geo, rows[..|rows| - 1], p, dist);
      match ZoneFor(w, geo, rows[|rows| - 1], p, dist)
      case None => init
      case Some(z) => init + [z]
  }

  /** One more row adds its zone, if it has one. */
  lemma TableZonesSnoc(w: Widget, geo: CircleGeo, rows: seq<Stop>, i: nat, p: ZoneParams, dist: Distance)
    requires i < |rows|
    ensures TableZones(w, geo, rows[..i + 1], p, dist) ==
      TableZones(w, geo, rows[..i], p, dist) + (match ZoneFor(w, geo, rows[i], p, dist) case None => [] case Some(z) => [z])
  {
    assert rows[..i + 1][..i] == rows[..i];
  }

  /** `config.all_data.get(t)`, with an empty table read as no rows. */
  function TableOf(allData: map<string, Option<seq<Stop>>>, t: string): seq<Stop> {
    if t in allData && allData[t].Some? then allData[t].value else []
  }

  /** The zones of the first `n` categories. */
  function ZonesUpTo(w: Widget, geo: CircleGeo, allData: map<string, Option<seq<Stop>>>, n: nat, p: ZoneParams,
                     dist: Distance): seq<Zone>
    requires n <= |Categories|
  {
    if n == 0 then []
    else ZonesUpTo(w, geo, allData, n - 1, p, dist) + TableZones(w, geo, TableOf(allData, Categories[n - 1]), p, dist)
  }

  /** The stops of the first `n` categories. */
  function StopsUpTo(allData: map<string, Option<seq<Stop>>>, n: nat): seq<Stop>
    requires n <= |Categories|
  {
    if n == 0 then [] else StopsUpTo(allData, n - 1) + TableOf(allData, Categories[n - 1])
  }

  /** The run's parameters from the settings and the city points. */
  function ParamsOf(s: ZoneSettings, city: seq<LatLon>): ZoneParams {
    ZoneParams(s.largeR, s.useSmall, if s.useSmall then s.smallR else 0,
               if s.useSmall then s.distKm * 1000 else 0, city)
  }

  /** `hide_zone_data` after `create_hiding_zones`. */
  function CreatedZones(w: Widget, geo: CircleGeo, allData: map<string, Option<seq<Stop>>>, s: ZoneSettings,
                        entries: seq<string>, dist: Distance): seq<Zone>
  {
    if s.largeR <= 0 then []
    else if s.useSmall && CityPoints(entries).None? then []
    else
      var city := if s.useSmall then CityPoints(entries).value else [];
      ZonesUpTo(w, geo, allData, |Categories|, ParamsOf(s, city), dist)
  }

  /** With a positive large radius and the city points read, the run makes the zones of
      the four categories in order. */
  lemma CreatedZonesRun(w: Widget, geo: CircleGeo, allData: map<string, Option<seq<Stop>>>, s: ZoneSettings,
                        entries: seq<string>, city: seq<LatLon>, dist: Distance)
    requires s.largeR > 0
    requires s.useSmall ==> CityPoints(entries) == Some(city)
    requires !s.useSmall ==> city == []
    ensures CreatedZones(w, geo, allData, s, entries, dist) == ZonesUpTo(w, geo, allData, |Categories|, ParamsOf(s, city), dist)
  {
  }

  /** Each zone of a table belongs to one of its stops, has the radius chosen for it, and
      was drawn. */
  lemma {:induction false} TableZonesSound(w: Widget, geo: CircleGeo, rows: seq<Stop>, p: ZoneParams, dist: Distance)
    ensures forall k :: 0 <= k < |TableZones(w, geo, rows, p, dist)| ==>
      var z := TableZones(w, geo, rows, p, dist)[k];
      z.radius == ZoneRadius(z.pos, p, dist) && z.radius > 0 && ZoneShape(w, geo, z.pos, z.radius).Some?
      && exists i :: 0 <= i < |rows| && rows[i].pos == z.pos
    decreases |rows|
  {
    if rows != [] {
      var n := |rows|;
      var pre := rows[..n - 1];
      TableZonesSound(w, geo, pre, p, dist);
      var zs := TableZones(w, geo, rows, p, dist);
      var pz := TableZones(w, geo, pre, p, dist);
      assert zs[..|pz|] == pz;
      forall k | 0 <= k < |zs|
        ensures zs[k].radius == ZoneRadius(zs[k].pos, p, dist) && zs[k].radius > 0
          && ZoneShape(w, geo, zs[k].pos, zs[k].radius).Some?
          && exists i :: 0 <= i < n && rows[i].pos == zs[k].pos
      {
        if k < |pz| {
          assert zs[k] == pz[k];
          var i :| 0 <= i < |pre| && pre[i].pos == pz[k].pos;
          assert rows[i] == pre[i];
        } else {
          assert zs[k] == ZoneFor(w, geo, rows[n - 1], p, dist).value;
        }
      }
    } else {
      assert TableZones(w, geo, rows, p, dist) == [];
    }
  }

  /** There is one zone per stop whenever the circle can be drawn at every stop. */
  lemma {:induction false} TableZonesComplete(w: Widget, geo: CircleGeo, rows: seq<Stop>, p: ZoneParams, dist: Distance)
    requires forall i :: 0 <= i < |rows| ==> ZoneFor(w, geo, rows[i], p, dist).Some?
    ensures |TableZones(w, geo, rows, p, dist)| == |rows|
    decreases |rows|
  {
    if rows != [] {
      var pre := rows[..|rows| - 1];
      assert forall i :: 0 <= i < |pre| ==> pre[i] == rows[i];
      TableZonesComplete(w, geo, pre, p, dist);
    }
  }

  /** At most one zone per stop across the four categories. */
  lemma {:induction false} ZonesUpToCount(w: Widget, geo: CircleGeo, allData: map<string, Option<seq<Stop>>>, n: nat,
                                          p: ZoneParams, dist: Distance)
    requires n <= |Categories|
    ensures |ZonesUpTo(w, geo, allData, n, p, dist)| <= |StopsUpTo(allData, n)|
  {
    if n > 0 {
      ZonesUpToCount(w, geo, allData, n - 1, p, dist);
    }
  }

  /** Without a positive large radius, or with a city point that does not parse, no zone
      is made; otherwise there is at most one zone per stop. */
  lemma CreatedZonesBounds(w: Widget, geo: CircleGeo, allData: map<string, Option<seq<Stop>>>, s: ZoneSettings,
                           entries: seq<string>, dist: Distance)
    ensures s.largeR <= 0 ==> CreatedZones(w, geo, allData, s, entries, dist) == []
    ensures s.useSmall && CityPoints(entries).None? ==> CreatedZones(w, geo, allData, s, entries, dist) == []
    ensures |CreatedZones(w, geo, allData, s, entries, dist)| <= |StopsUpTo(allData, |Categories|)|
  {
    if s.largeR > 0 && !(s.useSmall && CityPoints(entries).None?) {
      var city := if s.useSmall then CityPoints(entries).value else [];
      ZonesUpToCount(w, geo, allData, |Categories|, ParamsOf(s, city), dist);
    }
  }

  /** The zones of the screen: the drawn shapes and their data, in step. */
  class ZoneLayer {
    const widget: Widget
    const geo: CircleGeo
    var shapes: seq<Shape>
    var data: seq<Zone>

    /** Each recorded zone is the drawing of its own data. */
    predicate Valid()
      reads this
    {
      |shapes| == |data|
      && forall i :: 0 <= i < |data| ==> ZoneShape(widget, geo, data[i].pos, data[i].radius) == Some(shapes[i])
    }

    constructor (w: Widget, g: CircleGeo)
      ensures widget == w && geo == g && shapes == [] && data == [] && Valid()
    {
      widget := w;
      geo := g;
      shapes := [];
      data := [];
    }

    /** `clear_hiding_zones` (deleting the map objects is not modelled). */
    method Clear()
      modifies this
      ensures shapes == [] && data == [] && Valid()
    {
      shapes := [];
      data := [];
    }

    /** Records a drawn shape with its data. */
    method AppendZone(shape: Shape, z: Zone)
      requires Valid() && ZoneShape(widget, geo, z.pos, z.radius) == Some(shape)
      modifies this
      ensures Valid()
      ensures shapes == old(shapes) + [shape] && data == old(data) + [z]
    {
      shapes := shapes + [shape];
      data := data + [z];
    }

    /** The body of the row loop: the stop's radius, its circle, and the zone recorded
        when the circle could be drawn. */
    method AddRowZone(row: Stop, p: ZoneParams, dist: Distance)
      requires Valid()
      modifies this
      ensures Valid()
      ensures shapes == old(shapes) + (match ZoneFor(widget, geo, row, p, dist) case None => [] case Some(z) => [ZoneShape(widget, geo, z.pos, z.radius).value])
      ensures data == old(data) + (match ZoneFor(widget, geo, row, p, dist) case None => [] case Some(z) => [z])
    {
      var pos := row.pos;
      var radius := p.largeR;
      if p.useSmall && p.city != [] && p.smallR > 0 && p.limitM > 0 {
        var near := NearCity(pos, p.city, p.limitM, dist);
        if near {
          radius := p.smallR;
        }
      }
      assert radius == ZoneRadius(pos, p, dist);
      var obj := DrawHidingZone(widget, geo, pos, radius);
      if obj.Some? {
        AppendZone(obj.value, Zone(pos, radius));
      }
    }

    /** The row loop of one table. */
    method AddTableZones(rows: seq<Stop>, p: ZoneParams, dist: Distance)
      requires Valid()
      modifies this
      ensures Valid()
      ensures data == old(data) + TableZones(widget, geo, rows, p, dist)
    {
      var i := 0;
      while i < |rows|
        invariant 0 <= i <= |rows|
        invariant Valid()
        invariant data == old(data) + TableZones(widget, geo, rows[..i], p, dist)
      {
        TableZonesSnoc(widget, geo, rows, i, p, dist);
        AddRowZone(rows[i], p, dist);
        i := i + 1;
      }
      assert rows[..i] == rows;
    }

    /** The category loop of `create_hiding_zones`: the tables of the four categories,
        in order, with an absent or empty table adding nothing. */
    method AddAllTables(allData: map<string, Option<seq<Stop>>>, p: ZoneParams, dist: Distance)
      requires Valid() && data == []
      modifies this
      ensures Valid()
      ensures data == ZonesUpTo(widget, geo, allData, |Categories|, p, dist)
    {
      var c := 0;
      while c < |Categories|
        invariant 0 <= c <= |Categories|
        invariant Valid()
        invariant data == ZonesUpTo(widget, geo, allData, c, p, dist)
      {
        var t := Categories[c];
        var df := if t in allData then allData[t] else None;
        assert ZonesUpTo(widget, geo, allData, c + 1, p, dist)
          == data + TableZones(widget, geo, TableOf(allData, t), p, dist);
        if df.Some? && df.value != [] {
          AddTableZones(df.value, p, dist);
        } else {
          assert TableOf(allData, t) == [];
        }
        c := c + 1;
      }
    }

    /** `create_hiding_zones`: always clears first. */
    method CreateHidingZones(cfg: Config, s: ZoneSettings, entries: seq<string>, dist: Distance)
      modifies this
      ensures Valid()
      ensures data == CreatedZones(widget, geo, cfg.allData, s, entries, dist)
    {
      Clear();
      CreatedZonesBounds(widget, geo, cfg.allData, s, entries, dist);
      if s.largeR <= 0 {
        return;
      }
      var city: seq<LatLon> := [];
      if s.useSmall {
        var points := ReadCityPoints(entries);
        if points.None? {
          return;
        }
        city := points.value;
      }
      CreatedZonesRun(widget, geo, cfg.allData, s, entries, city, dist);
      AddAllTables(cfg.allData, ParamsOf(s, city), dist);
    }
  }
}
