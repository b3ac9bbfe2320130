/**
 * screens/points_of_interest.py: the screen that draws fetched point-of-interest tables
 * on the map. Coastline tables become clipped lines, tables with a Kind column become
 * lines for running water and markers for the rest, and other tables become one marker
 * per named row. Clicking a marker toggles its name label.
 *
 * Shapely's intersection of a path with the boundary is a parameter; the boundary is
 * kept as the polygon it was built from.
 */
module PointsOfInterest {
  import opened Common
  import opened Text
  import opened Decimal
  import opened Tables
  import opened AppConfig
  import opened OsmRegions
  import opened BoundaryDraw
  import opened MapCanvas
  import opened MapMarkers

  // ---------------------------------------------------------------------------
  // Icons
  // ---------------------------------------------------------------------------

  /** `ICON_FILE_BY_TYPE`. */
  const IconFileByType: map<string, string> := map[
    "Commercial airport" := "Airport.png",
    "Mountain" := "Mountain.png",
    "Park" := "Park.png",
    "Amusement park" := "Theme Park.png",
    "Aquarium" := "Aquarium.png",
    "Golf course" := "icon_042.png",
    "Museum" := "Museum.png",
    "Hospital" := "Hospital.png",
    "Library" := "Library.png",
    "Foreign mission" := "icon_042.png",
    "Cinema" := "Cinema.png",
    "Body of water" := "Body of Water.png",
    "Coastline" := "Coastline.png",
    "Zoo" := "Zoo.png"]

  /** The icon file of a type: the listed one, else the type name with ".png". */
  function IconFile(t: string): string {
    if t in IconFileByType then IconFileByType[t] else t + ".png"
  }

  // ---------------------------------------------------------------------------
  // The boundary
  // ---------------------------------------------------------------------------

  /** A shapely polygon: a closed `(lon, lat)` ring, or `box(minx, miny, maxx, maxy)`. */
  datatype Boundary =
    | RingPolygon(ring: seq<Position>)
    | BoxPolygon(minx: Number, miny: Number, maxx: Number, maxy: Number)

  /** What `_get_boundary_polygon` gives: a polygon, `None`, or an exception. */
  datatype BoundaryRead = Bound(b: Boundary) | NoBoundary | ReadRaises

  /** The box fallback: `bound_box`, else `saved_bound_box`, as `box(west, south, east, north)`. */
  function BoxBoundary(boundBox: Option<BBox>, savedBoundBox: Option<BBox>): (r: BoundaryRead)
    ensures r.NoBoundary? <==> boundBox.None? && savedBoundBox.None?
    ensures r.Bound? ==> r.b.BoxPolygon?
  {
    var bb := if boundBox.Some? then boundBox else savedBoundBox;
    if bb.Some? then Bound(BoxPolygon(bb.value.west, bb.value.south, bb.value.east, bb.value.north))
    else NoBoundary
  }

  /** The tokens of a polygon string that are read: all of them, less a last odd one. */
  function PolyTokens(polyStr: string): (xs: seq<Option<Number>>)
    ensures |xs| % 2 == 0
  {
    var all := Tokens(SplitWs(Strip(polyStr)));
    if |all| % 2 == 0 then all
    else
      EvenBelowOdd(|all|);
      all[..|all| - 1]
  }

  lemma EvenBelowOdd(n: nat)
    requires n % 2 != 0
    ensures n >= 1 && (n - 1) % 2 == 0
  {
  }

  /** A shapely `Polygon` needs a closed ring of at least four positions. */
  const MinRingPositions: nat := 4

  /** `_get_boundary_polygon`: a polygon string with at least three (lat, lon) pairs
      gives that ring as `(lon, lat)`, closed; `float` on a bad token raises. Otherwise
      the box fallback. */
  function BoundaryOf(poly: Option<string>, boundBox: Option<BBox>, savedBoundBox: Option<BBox>): (r: BoundaryRead)
    ensures r.ReadRaises? ==> poly.Some? && poly.value != []
    ensures r.NoBoundary? ==> boundBox.None? && savedBoundBox.None?
    ensures r.Bound? && r.b.BoxPolygon? ==> boundBox.Some? || savedBoundBox.Some?
    ensures r.Bound? && r.b.RingPolygon? ==> poly.Some? && poly.value != [] && ClosedRing(r.b.ring)
  {
    if poly.Some? && poly.value != [] then TokensBoundary(PolyTokens(poly.value), boundBox, savedBoundBox)
    else BoxBoundary(boundBox, savedBoundBox)
  }

  /** The polygon branch of `_get_boundary_polygon`, on the tokens read. */
  function TokensBoundary(xs: seq<Option<Number>>, boundBox: Option<BBox>, savedBoundBox: Option<BBox>): (r: BoundaryRead)
    requires |xs| % 2 == 0
    ensures r.NoBoundary? ==> boundBox.None? && savedBoundBox.None?
    ensures r.Bound? && r.b.BoxPolygon? ==> boundBox.Some? || savedBoundBox.Some?
    ensures r.Bound? && r.b.RingPolygon? ==> ClosedRing(r.b.ring)
  {
    match Pairs(xs)
    case None => ReadRaises
    case Some(pairs) =>
      if |pairs| >= 3 then
        var ring := CloseRing(RingToLonLat(pairs));
        if |ring| < MinRingPositions then ReadRaises else Bound(RingPolygon(ring))
      else BoxBoundary(boundBox, savedBoundBox)
  }

  /** A ring read from tokens comes from three or more pairs and is closed. */
  lemma TokensRing(xs: seq<Option<Number>>, boundBox: Option<BBox>, savedBoundBox: Option<BBox>)
    requires |xs| % 2 == 0
    requires TokensBoundary(xs, boundBox, savedBoundBox).Bound?
    requires TokensBoundary(xs, boundBox, savedBoundBox).b.RingPolygon?
    ensures Pairs(xs).Some? && |Pairs(xs).value| >= 3
    ensures TokensBoundary(xs, boundBox, savedBoundBox).b.ring == CloseRing(RingToLonLat(Pairs(xs).value))
    ensures ClosedRing(TokensBoundary(xs, boundBox, savedBoundBox).b.ring)
  {
  }

  /** A ring shapely accepts: at least four positions, the last repeating the first. */
  predicate ClosedRing(ring: seq<Position>) {
    |ring| >= MinRingPositions && ring[0] == ring[|ring| - 1]
  }

  /** Without a polygon string the box is used, `bound_box` first; without either there
      is no boundary. A polygon string of fewer than three pairs falls back to the box too,
      and one with a token `float` refuses raises. */
  lemma BoundaryFallback(poly: Option<string>, boundBox: Option<BBox>, savedBoundBox: Option<BBox>)
    ensures (poly.None? || poly.value == []) && boundBox.None? && savedBoundBox.None? ==>
      BoundaryOf(poly, boundBox, savedBoundBox) == NoBoundary
    ensures (poly.None? || poly.value == []) && boundBox.Some? ==>
      BoundaryOf(poly, boundBox, savedBoundBox)
        == Bound(BoxPolygon(boundBox.value.west, boundBox.value.south, boundBox.value.east, boundBox.value.north))
    ensures poly.Some? && poly.value != [] && Pairs(PolyTokens(poly.value)).Some?
            && |Pairs(PolyTokens(poly.value)).value| < 3 ==>
      BoundaryOf(poly, boundBox, savedBoundBox) == BoxBoundary(boundBox, savedBoundBox)
    ensures poly.Some? && poly.value != [] ==>
      (BoundaryOf(poly, boundBox, savedBoundBox) == ReadRaises
       <==> (exists i :: 0 <= i < |PolyTokens(poly.value)| && PolyTokens(poly.value)[i].None?)
            || (Pairs(PolyTokens(poly.value)).Some? && |Pairs(PolyTokens(poly.value)).value| >= 3
                && |CloseRing(RingToLonLat(Pairs(PolyTokens(poly.value)).value))| < MinRingPositions))
  {
    if poly.Some? && poly.value != [] {
      PairsNoneIff(PolyTokens(poly.value));
    }
  }

  /** The ring read from token pairs: closed, and position `k` is pair `k` with the
      longitude first. */
  lemma {:induction false} LonLatRingAt(xs: seq<Option<Number>>)
    requires |xs| % 2 == 0 && Pairs(xs).Some?
    ensures var ring := CloseRing(RingToLonLat(Pairs(xs).value));
      (xs != [] ==> ring[0] == ring[|ring| - 1])
      && forall k :: 0 <= k < |xs| / 2 ==>
           xs[2 * k].Some? && xs[2 * k + 1].Some? && ring[k] == Position(xs[2 * k + 1].value, xs[2 * k].value)
  {
    var pairs := Pairs(xs).value;
    PairsAt(xs);
    var open := RingToLonLat(pairs);
    var ring := CloseRing(open);
    forall k | 0 <= k < |xs| / 2
      ensures ring[k] == Position(xs[2 * k + 1].value, xs[2 * k].value)
    {
      assert ring[k] == ring[..|open|][k] == open[k];
    }
  }

  /** A polygon boundary is the closed ring of three or more pairs read from the string,
      longitude first (position by position, see `LonLatRingAt`), of at least four
      positions. */
  lemma BoundaryRing(poly: Option<string>, boundBox: Option<BBox>, savedBoundBox: Option<BBox>)
    requires poly.Some? && poly.value != []
    requires BoundaryOf(poly, boundBox, savedBoundBox).Bound?
    requires BoundaryOf(poly, boundBox, savedBoundBox).b.RingPolygon?
    ensures Pairs(PolyTokens(poly.value)).Some?
    ensures |Pairs(PolyTokens(poly.value)).value| >= 3
    ensures BoundaryOf(poly, boundBox, savedBoundBox).b.ring == CloseRing(RingToLonLat(Pairs(PolyTokens(poly.value)).value))
    ensures ClosedRing(BoundaryOf(poly, boundBox, savedBoundBox).b.ring)
  {
    var xs := PolyTokens(poly.value);
    assert BoundaryOf(poly, boundBox, savedBoundBox) == TokensBoundary(xs, boundBox, savedBoundBox);
    TokensRing(xs, boundBox, savedBoundBox);
  }

  /** Shapely's `line.intersection(boundary)`: the pieces, each as (lat, lon) points. */
  type Intersect = (seq<LatLon>, Boundary) -> seq<seq<LatLon>>

  /** The pieces `add_linestring` keeps: those of at least two points. */
  function LongPieces(pieces: seq<seq<LatLon>>): (r: seq<seq<LatLon>>)
    ensures |r| <= |pieces|
    ensures forall k :: 0 <= k < |r| ==> |r[k]| >= 2
  {
    if pieces == [] then []
    else if |pieces[0]| >= 2 then [pieces[0]] + LongPieces(pieces[1..])
    else LongPieces(pieces[1..])
  }

  /** The pieces kept are exactly those of two or more points, in their order. */
  lemma {:induction false} LongPiecesKept(pieces: seq<seq<LatLon>>)
    ensures forall p :: p in LongPieces(pieces) <==> p in pieces && |p| >= 2
  {
    if pieces != [] {
      LongPiecesKept(pieces[1..]);
      assert forall p :: p in pieces <==> p == pieces[0] || p in pieces[1..];
    }
  }

  /** `_clip_latlon_path_to_boundary`: the whole path without a boundary; nothing for a
      path of fewer than two points; otherwise the intersection's pieces of two or more
      points. */
  function ClipPath(path: seq<LatLon>, bnd: Option<Boundary>, cut: Intersect): (segs: seq<seq<LatLon>>)
    ensures bnd.None? ==> segs == [path]
    ensures bnd.Some? && |path| < 2 ==> segs == []
    ensures bnd.Some? ==> forall k :: 0 <= k < |segs| ==> |segs[k]| >= 2
  {
    if bnd.None? then [path]
    else if |path| < 2 then []
    else LongPieces(cut(path, bnd.value))
  }

  // ---------------------------------------------------------------------------
  // Routing the rows of a table
  // ---------------------------------------------------------------------------

  const CoastlineName: string := "coastline"

  /** The kinds drawn as lines. */
  const RiverKinds: seq<string> := ["river", "stream", "canal"]

  /** Names that count as no name, compared lower-cased. */
  const UnnamedNames: set<string> := {"unnamed", "water (unnamed)", "river/canal (unnamed)"}

  /** The width and colour of a drawn water line. */
  const LineWidth: nat := 3
  const LineColor: string := "#66ccff"

  /** A column is present when some row has a value in it. */
  predicate HasGeometryColumn(rows: seq<Row>) {
    exists i :: 0 <= i < |rows| && rows[i].geometry.Some?
  }

  predicate HasKindColumn(rows: seq<Row>) {
    exists i :: 0 <= i < |rows| && rows[i].kind.Some?
  }

  predicate HasLatLonColumns(rows: seq<Row>) {
    exists i :: 0 <= i < |rows| && rows[i].pos.Some?
  }

  /** Which of the three ways `plot_df` draws a table. */
  datatype Route = CoastlineLines | KindRows | NamedRows

  function RouteOf(t: string, rows: seq<Row>): (r: Route)
    ensures r == CoastlineLines ==> Lower(Strip(t)) == CoastlineName && HasGeometryColumn(rows)
    ensures r == KindRows ==> HasKindColumn(rows)
    ensures r == NamedRows ==> !HasKindColumn(rows)
    ensures Lower(Strip(t)) != CoastlineName && HasKindColumn(rows) ==> r == KindRows
  {
    if Lower(Strip(t)) == CoastlineName && HasGeometryColumn(rows) then CoastlineLines
    else if HasKindColumn(rows) then KindRows
    else NamedRows
  }

  /** A row's kind, trimmed and lower-cased (a missing kind reads as no kind). */
  function KindOf(row: Row): string {
    Lower(Strip(row.kind.GetOr("")))
  }

  /** The name filter of ordinary tables: not blank and not one of the unnamed forms. */
  predicate Named(name: string) {
    Strip(name) != [] && Lower(Strip(name)) !in UnnamedNames
  }

  /** The boundary a table's drawing uses: none for ordinary tables, otherwise the one
      read (`None` when reading it raises). */
  function RouteBoundary(route: Route, b: BoundaryRead): Option<Option<Boundary>> {
    if route == NamedRows then Some(None)
    else match b
      case ReadRaises => None
      case Bound(bnd) => Some(Some(bnd))
      case NoBoundary => Some(None)
  }

  /** An object to put on the map, with the label text stored for a marker. */
  datatype Drawing = Drawing(obj: MapObject, caption: Option<string>)

  /** What one drawing of a table depends on besides the row. */
  datatype PlotCtx = PlotCtx(route: Route, hasGeom: bool, hasLatLon: bool, bnd: Option<Boundary>,
                             icon: Option<string>, w: Widget, hasSetMarker: bool, cut: Intersect)

  /** One water line per clipped segment. */
  function LineDrawings(segs: seq<seq<LatLon>>): (ds: seq<Drawing>)
    ensures |ds| == |segs|
    ensures forall k :: 0 <= k < |ds| ==> ds[k] == Drawing(Line(segs[k], LineWidth, LineColor), None)
  {
    seq(|segs|, k requires 0 <= k < |segs| => Drawing(Line(segs[k], LineWidth, LineColor), None))
  }

  /** A hidden-text marker at a row's position that toggles its label when clicked. */
  function MarkerDrawing(pos: LatLon, icon: Option<string>, name: string): Drawing {
    Drawing(Marker(pos, "", icon, ToggleLabel), Some(name))
  }

  /** The clipped lines of a row's geometry, when it has two or more points and the widget
      draws paths. */
  function GeometryLines(ctx: PlotCtx, row: Row): seq<Drawing> {
    if row.geometry.Some? && |row.geometry.value| >= 2 && ctx.w.hasSetPath
    then LineDrawings(ClipPath(row.geometry.value, ctx.bnd, ctx.cut))
    else []
  }

  /** What `plot_df` draws for one row. */
  function RowDrawings(ctx: PlotCtx, row: Row): (ds: seq<Drawing>)
    ensures MarkerAllowed(ctx.route, row) && ctx.hasSetMarker && (ctx.route == KindRows ==> ctx.hasLatLon) ==>
      ds == [MarkerDrawing(row.pos.value, ctx.icon, Strip(row.name))]
    ensures !ctx.hasSetMarker ==> forall k :: 0 <= k < |ds| ==> ds[k].obj.Line?
  {
    match ctx.route
    case CoastlineLines => GeometryLines(ctx, row)
    case KindRows =>
      if ctx.hasGeom && KindOf(row) in RiverKinds then GeometryLines(ctx, row)
      else if ctx.hasLatLon && row.pos.Some? && KindOf(row) !in RiverKinds && ctx.hasSetMarker
      then [MarkerDrawing(row.pos.value, ctx.icon, Strip(row.name))]
      else []
    case NamedRows =>
      if Named(row.name) && row.pos.Some? && ctx.hasSetMarker
      then [MarkerDrawing(row.pos.value, ctx.icon, Strip(row.name))]
      else []
  }

  /** What a marker may be drawn for: a row with a position that the route lets through —
      never in a coastline table, never for running water in a Kind table, and only for a
      named row otherwise. */
  predicate MarkerAllowed(route: Route, row: Row)
    ensures route == CoastlineLines || row.pos.None? ==> !MarkerAllowed(route, row)
    ensures route == KindRows && KindOf(row) in RiverKinds ==> !MarkerAllowed(route, row)
    ensures route == NamedRows && !Named(row.name) ==> !MarkerAllowed(route, row)
  {
    route != CoastlineLines && row.pos.Some?
    && (route == KindRows ==> KindOf(row) !in RiverKinds)
    && (route == NamedRows ==> Named(row.name))
  }

  /** Each marker of a row is allowed for it, sits at its position and is labelled with its
      trimmed name; each line is a water line. */
  lemma RowDrawingsAllowed(ctx: PlotCtx, row: Row)
    ensures forall k :: 0 <= k < |RowDrawings(ctx, row)| ==>
      var d := RowDrawings(ctx, row)[k];
      (d.obj.Marker? ==> MarkerAllowed(ctx.route, row) && d.obj.pos == row.pos.value
                         && d.obj.command == ToggleLabel && d.caption == Some(Strip(row.name)))
      && (d.obj.Line? ==> d.obj.width == LineWidth && d.obj.color == LineColor && d.caption.None?)
  {
  }

  /** The drawings of the rows, one row after the other. */
  function DrawingsOf(draw: Row -> seq<Drawing>, rows: seq<Row>): seq<Drawing>
    decreases |rows|
  {
    if rows == [] then [] else DrawingsOf(draw, rows[..|rows| - 1]) + draw(rows[|rows| - 1])
  }

  /** Drawing one more row appends its drawings. */
  lemma DrawingsSnoc(draw: Row -> seq<Drawing>, rows: seq<Row>, i: nat)
    requires i < |rows|
    ensures DrawingsOf(draw, rows[..i + 1]) == DrawingsOf(draw, rows[..i]) + draw(rows[i])
  {
    assert rows[..i + 1][..i] == rows[..i];
  }

  /** The drawings of a table. */
  function TableDrawings(ctx: PlotCtx, rows: seq<Row>): seq<Drawing> {
    DrawingsOf(row => RowDrawings(ctx, row), rows)
  }

  /** Every marker drawn for a table comes from a row that the route allows a marker for,
      at that row's position and labelled with its name. */
  lemma {:induction false} TableMarkersAllowed(ctx: PlotCtx, rows: seq<Row>)
    ensures forall k :: 0 <= k < |TableDrawings(ctx, rows)| && TableDrawings(ctx, rows)[k].obj.Marker? ==>
      exists i :: 0 <= i < |rows| && MarkerAllowed(ctx.route, rows[i])
        && TableDrawings(ctx, rows)[k].obj.pos == rows[i].pos.value
        && TableDrawings(ctx, rows)[k].caption == Some(Strip(rows[i].name))
    decreases |rows|
  {
    if rows != [] {
      var n := |rows|;
      var pre := rows[..n - 1];
      TableMarkersAllowed(ctx, pre);
      RowDrawingsAllowed(ctx, rows[n - 1]);
      var pd := TableDrawings(ctx, pre);
      var rd := RowDrawings(ctx, rows[n - 1]);
      var ds := TableDrawings(ctx, rows);
      assert ds == pd + rd;
      forall k | 0 <= k < |ds| && ds[k].obj.Marker?
        ensures exists i :: 0 <= i < n && MarkerAllowed(ctx.route, rows[i]) && ds[k].obj.pos == rows[i].pos.value
                            && ds[k].caption == Some(Strip(rows[i].name))
      {
        if k < |pd| {
          assert ds[k] == pd[k];
          var i :| 0 <= i < |pre| && MarkerAllowed(ctx.route, pre[i])
            && pd[k].obj.pos == pre[i].pos.value && pd[k].caption == Some(Strip(pre[i].name));
          assert rows[i] == pre[i];
        } else {
          assert ds[k] == rd[k - |pd|];
        }
      }
    }
  }

  /** A coastline table draws no marker at all. */
  lemma {:induction false} CoastlineOnlyLines(ctx: PlotCtx, rows: seq<Row>)
    requires ctx.route == CoastlineLines
    ensures forall k :: 0 <= k < |TableDrawings(ctx, rows)| ==> TableDrawings(ctx, rows)[k].obj.Line?
    decreases |rows|
  {
    if rows != [] {
      var n := |rows|;
      CoastlineOnlyLines(ctx, rows[..n - 1]);
      var pd := TableDrawings(ctx, rows[..n - 1]);
      var rd := RowDrawings(ctx, rows[n - 1]);
      assert TableDrawings(ctx, rows) == pd + rd;
      forall k | 0 <= k < |rd| ensures rd[k].obj.Line? {
        assert rd == GeometryLines(ctx, rows[n - 1]);
      }
    }
  }

  // ---------------------------------------------------------------------------
  // Drawings on the canvas
  // ---------------------------------------------------------------------------

  /** `objs` with the drawings put at the handles from `start` on. */
  function PlaceAll(objs: map<nat, MapObject>, start: nat, ds: seq<Drawing>): map<nat, MapObject>
    decreases |ds|
  {
    if ds == [] then objs
    else PlaceAll(objs, start, ds[..|ds| - 1])[start + |ds| - 1 := ds[|ds| - 1].obj]
  }

  /** Drawing `k` sits at handle `start + k`; every other object stays as it was. */
  lemma {:induction false} PlaceAllAt(objs: map<nat, MapObject>, start: nat, ds: seq<Drawing>)
    ensures forall h :: h in PlaceAll(objs, start, ds) <==> h in objs || start <= h < start + |ds|
    ensures forall k :: 0 <= k < |ds| ==> PlaceAll(objs, start, ds)[start + k] == ds[k].obj
    ensures forall h :: h in objs && !(start <= h < start + |ds|) ==> PlaceAll(objs, start, ds)[h] == objs[h]
    decreases |ds|
  {
    if ds != [] {
      var n := |ds|;
      PlaceAllAt(objs, start, ds[..n - 1]);
      assert forall k :: 0 <= k < n - 1 ==> ds[..n - 1][k] == ds[k];
    }
  }

  /** Placing two lists one after the other is placing their concatenation. */
  lemma {:induction false} PlaceAllAppend(objs: map<nat, MapObject>, start: nat, a: seq<Drawing>, b: seq<Drawing>)
    ensures PlaceAll(PlaceAll(objs, start, a), start + |a|, b) == PlaceAll(objs, start, a + b)
    decreases |b|
  {
    if b != [] {
      var n := |b|;
      PlaceAllAppend(objs, start, a, b[..n - 1]);
      assert (a + b)[..|a + b| - 1] == a + b[..n - 1];
    } else {
      assert a + b == a;
    }
  }

  /** The stored label texts with those of the drawings' markers added at their handles. */
  function LabelsAll(labels: map<nat, string>, start: nat, ds: seq<Drawing>): map<nat, string>
    decreases |ds|
  {
    if ds == [] then labels
    else
      var init := LabelsAll(labels, start, ds[..|ds| - 1]);
      match ds[|ds| - 1].caption
      case None => init
      case Some(name) => init[start + |ds| - 1 := name]
  }

  lemma {:induction false} LabelsAllAppend(labels: map<nat, string>, start: nat, a: seq<Drawing>, b: seq<Drawing>)
    ensures LabelsAll(LabelsAll(labels, start, a), start + |a|, b) == LabelsAll(labels, start, a + b)
    decreases |b|
  {
    if b != [] {
      var n := |b|;
      LabelsAllAppend(labels, start, a, b[..n - 1]);
      assert (a + b)[..|a + b| - 1] == a + b[..n - 1];
    } else {
      assert a + b == a;
    }
  }

  /** The handles of a list, as a set. */
  function HandleSet(hs: seq<nat>): set<nat> {
    set k | 0 <= k < |hs| :: hs[k]
  }

  /** Every handle listed under any type. */
  function AllHandles(byType: map<string, seq<nat>>): set<nat> {
    set t, k | t in byType && 0 <= k < |byType[t]| :: byType[t][k]
  }

  /** A set with `h` added when absent and removed when present. */
  function Flipped(s: set<nat>, h: nat): (r: set<nat>)
    ensures h in r <==> h !in s
    ensures forall x :: x != h ==> (x in r <==> x in s)
  {
    if h in s then s - {h} else s + {h}
  }

  class PoiScreen {
    const canvas: Canvas
    const widget: Widget
    const hasSetMarker: bool
    const cut: Intersect
    /** `POI_ICON_DIR` and `os.path.exists`. */
    const iconDir: string
    const fileExists: string -> bool
    /** `poi_icons`: the icon of each type asked for, `None` for a missing file. */
    var poiIcons: map<string, Option<string>>
    var markersByType: map<string, seq<nat>>
    /** `marker_label_text` and `marker_label_on`. */
    var labelText: map<nat, string>
    var labelOn: set<nat>

    /** Every listed handle was handed out by the canvas. */
    predicate Valid()
      reads this`markersByType, canvas
    {
      canvas.Valid()
      && forall t, k :: t in markersByType && 0 <= k < |markersByType[t]| ==> markersByType[t][k] < canvas.nextId
    }

    constructor (c: Canvas, w: Widget, setMarker: bool, intersect: Intersect, dir: string, exists_: string -> bool)
      requires c.Valid()
      ensures canvas == c && widget == w && hasSetMarker == setMarker && cut == intersect
      ensures iconDir == dir && fileExists == exists_
      ensures poiIcons == map[] && markersByType == map[] && labelText == map[] && labelOn == {}
      ensures Valid()
    {
      canvas := c;
      widget := w;
      hasSetMarker := setMarker;
      cut := intersect;
      iconDir := dir;
      fileExists := exists_;
      poiIcons := map[];
      markersByType := map[];
      labelText := map[];
      labelOn := {};
    }

    /** The path of a type's icon file. */
    function IconPath(t: string): string {
      iconDir + "/" + IconFile(t)
    }

    /** What `get_poi_icon` returns with this cache: the cached value, else the loaded
        icon (named by its file) when the file exists, else `None`. */
    function IconValue(cache: map<string, Option<string>>, t: string): Option<string> {
      if t in cache then cache[t]
      else if fileExists(IconPath(t)) then Some(IconPath(t)) else None
    }

    /** `get_poi_icon`: the answer is cached, a missing file included, so asking again
        gives the same answer without looking at the file system. */
    method GetPoiIcon(t: string) returns (icon: Option<string>)
      modifies this`poiIcons
      ensures icon == IconValue(old(poiIcons), t)
      ensures poiIcons == old(poiIcons)[t := icon]
      ensures t in poiIcons && IconValue(poiIcons, t) == icon
    {
      if t in poiIcons {
        return poiIcons[t];
      }
      var path := IconPath(t);
      if !fileExists(path) {
        poiIcons := poiIcons[t := None];
        return None;
      }
      icon := Some(path);
      poiIcons := poiIcons[t := icon];
    }

    /** `toggle_marker_label`: a marker showing its label is blanked and leaves the set;
        any other gets its stored name ("" if none) and joins it. */
    method ToggleMarkerLabel(h: nat)
      requires Valid()
      modifies this`labelOn, canvas
      ensures Valid() && canvas.nextId == old(canvas.nextId)
      ensures labelOn == Flipped(old(labelOn), h)
      ensures var text := if h in old(labelOn) then "" else (if h in labelText then labelText[h] else "");
        h in old(canvas.objects) && old(canvas.objects)[h].Marker? ==>
          canvas.objects == old(canvas.objects)[h := old(canvas.objects)[h].(text := text)]
      ensures !(h in old(canvas.objects) && old(canvas.objects)[h].Marker?) ==> canvas.objects == old(canvas.objects)
    {
      if h in labelOn {
        canvas.SetText(h, "");
        labelOn := labelOn - {h};
      } else {
        var text := if h in labelText then labelText[h] else "";
        canvas.SetText(h, text);
        labelOn := labelOn + {h};
      }
    }

    /** `markers_by_type.get(t, [])`. */
    function MarkersOf(t: string): seq<nat>
      reads this
    {
      if t in markersByType then markersByType[t] else []
    }

    /** `clear_markers(t)`: every marker of `t` loses its label entries and is deleted,
        and `t` is left with no markers. */
    method ClearType(t: string)
      requires Valid()
      modifies this`markersByType, this`labelText, this`labelOn, canvas
      ensures Valid() && canvas.nextId == old(canvas.nextId)
      ensures markersByType == old(markersByType)[t := []]
      ensures canvas.objects == old(canvas.objects) - HandleSet(old(MarkersOf(t)))
      ensures labelText == old(labelText) - HandleSet(old(MarkersOf(t)))
      ensures labelOn == old(labelOn) - HandleSet(old(MarkersOf(t)))
    {
      var ms := MarkersOf(t);
      var i := 0;
      while i < |ms|
        invariant 0 <= i <= |ms|
        invariant Valid() && canvas.nextId == old(canvas.nextId) && markersByType == old(markersByType)
        invariant canvas.objects == old(canvas.objects) - HandleSet(ms[..i])
        invariant labelText == old(labelText) - HandleSet(ms[..i])
        invariant labelOn == old(labelOn) - HandleSet(ms[..i])
      {
        assert HandleSet(ms[..i + 1]) == HandleSet(ms[..i]) + {ms[i]} by {
          assert forall k :: 0 <= k < i ==> ms[..i + 1][k] == ms[..i][k];
        }
        labelText := labelText - {ms[i]};
        labelOn := labelOn - {ms[i]};
        canvas.Delete(ms[i]);
        i := i + 1;
      }
      assert ms[..i] == ms;
      markersByType := markersByType[t := []];
    }

    /** `clear_markers(None)`: every type present is cleared. */
    method ClearAll()
      requires Valid()
      modifies this`markersByType, this`labelText, this`labelOn, canvas
      ensures Valid() && canvas.nextId == old(canvas.nextId)
      ensures markersByType.Keys == old(markersByType).Keys
      ensures forall t :: t in markersByType ==> markersByType[t] == []
      ensures canvas.objects == old(canvas.objects) - AllHandles(old(markersByType))
      ensures labelText == old(labelText) - AllHandles(old(markersByType))
      ensures labelOn == old(labelOn) - AllHandles(old(markersByType))
    {
      ghost var byType0, o0, l0, on0 := markersByType, canvas.objects, labelText, labelOn;
      var todo := markersByType.Keys;
      while todo != {}
        invariant todo <= byType0.Keys
        invariant Valid() && canvas.nextId == old(canvas.nextId)
        invariant markersByType == ClearedTypes(byType0, byType0.Keys - todo)
        invariant canvas.objects == o0 - AllHandles(byType0 - todo)
        invariant labelText == l0 - AllHandles(byType0 - todo)
        invariant labelOn == on0 - AllHandles(byType0 - todo)
        decreases todo
      {
        var t :| t in todo;
        ClearNext(t, byType0, todo, o0, l0, on0);
        todo := todo - {t};
      }
      assert byType0 - todo == byType0;
    }

    /** One turn of `clear_markers(None)`: clearing one more of the types left. */
    method ClearNext(t: string, ghost byType0: map<string, seq<nat>>, ghost todo: set<string>,
                     ghost o0: map<nat, MapObject>, ghost l0: map<nat, string>, ghost on0: set<nat>)
      requires t in todo && todo <= byType0.Keys
      requires Valid() && markersByType == ClearedTypes(byType0, byType0.Keys - todo)
      requires canvas.objects == o0 - AllHandles(byType0 - todo)
      requires labelText == l0 - AllHandles(byType0 - todo)
      requires labelOn == on0 - AllHandles(byType0 - todo)
      modifies this`markersByType, this`labelText, this`labelOn, canvas
      ensures Valid() && canvas.nextId == old(canvas.nextId)
      ensures markersByType == ClearedTypes(byType0, byType0.Keys - (todo - {t}))
      ensures canvas.objects == o0 - AllHandles(byType0 - (todo - {t}))
      ensures labelText == l0 - AllHandles(byType0 - (todo - {t}))
      ensures labelOn == on0 - AllHandles(byType0 - (todo - {t}))
    {
      ghost var gone := AllHandles(byType0 - todo);
      ghost var mine := HandleSet(byType0[t]);
      AllHandlesAdd(byType0, todo, t);
      MinusMinus(o0, gone, mine);
      MinusMinus(l0, gone, mine);
      ClearedOneMore(byType0, byType0.Keys - todo, t);
      assert byType0.Keys - todo + {t} == byType0.Keys - (todo - {t});
      assert MarkersOf(t) == byType0[t];
      ClearType(t);
    }

    /** `_get_boundary_polygon`, reading the polygon string pair by pair. */
    method GetBoundaryPolygon(cfg: Config) returns (r: BoundaryRead)
      ensures r == BoundaryOf(cfg.overpassPoly, cfg.boundBox, cfg.savedBoundBox)
    {
      if cfg.overpassPoly.Some? && cfg.overpassPoly.value != [] {
        var pairs := ReadPairs(PolyTokens(cfg.overpassPoly.value));
        if pairs.None? {
          return ReadRaises;
        }
        if |pairs.value| >= 3 {
          var ring := CloseRing(RingToLonLat(pairs.value));
          if |ring| < MinRingPositions {
            return ReadRaises;
          }
          return Bound(RingPolygon(ring));
        }
      }
      r := BoxBoundary(cfg.boundBox, cfg.savedBoundBox);
    }

    /** Puts the drawings on the canvas in order, storing the label of each marker. */
    method AddDrawings(ds: seq<Drawing>) returns (hs: seq<nat>)
      requires Valid()
      modifies canvas, this`labelText
      ensures Valid()
      ensures hs == Handles(old(canvas.nextId), |ds|) && canvas.nextId == old(canvas.nextId) + |ds|
      ensures canvas.objects == PlaceAll(old(canvas.objects), old(canvas.nextId), ds)
      ensures labelText == LabelsAll(old(labelText), old(canvas.nextId), ds)
    {
      hs := [];
      var j := 0;
      while j < |ds|
        invariant 0 <= j <= |ds|
        invariant Valid() && canvas.nextId == old(canvas.nextId) + j
        invariant hs == Handles(old(canvas.nextId), j)
        invariant canvas.objects == PlaceAll(old(canvas.objects), old(canvas.nextId), ds[..j])
        invariant labelText == LabelsAll(old(labelText), old(canvas.nextId), ds[..j])
      {
        assert ds[..j + 1][..j] == ds[..j];
        var h := canvas.Add(ds[j].obj);
        if ds[j].caption.Some? {
          labelText := labelText[h := ds[j].caption.value];
        }
        hs := hs + [h];
        j := j + 1;
      }
      assert ds[..j] == ds;
    }

    /** The row loop of `plot_df`: each row's drawings, in row order. */
    method DrawRows(draw: Row -> seq<Drawing>, rows: seq<Row>) returns (hs: seq<nat>)
      requires Valid()
      modifies canvas, this`labelText
      ensures Valid() && canvas.nextId == old(canvas.nextId) + |DrawingsOf(draw, rows)|
      ensures hs == Handles(old(canvas.nextId), |DrawingsOf(draw, rows)|)
      ensures canvas.objects == PlaceAll(old(canvas.objects), old(canvas.nextId), DrawingsOf(draw, rows))
      ensures labelText == LabelsAll(old(labelText), old(canvas.nextId), DrawingsOf(draw, rows))
    {
      ghost var o0, l0, s0 := canvas.objects, labelText, canvas.nextId;
      ghost var drawn: seq<Drawing> := [];
      hs := [];
      var i := 0;
      while i < |rows|
        invariant 0 <= i <= |rows| && drawn == DrawingsOf(draw, rows[..i])
        invariant Valid() && canvas.nextId == s0 + |drawn|
        invariant hs == Handles(s0, |drawn|)
        invariant canvas.objects == PlaceAll(o0, s0, drawn)
        invariant labelText == LabelsAll(l0, s0, drawn)
      {
        var ds := draw(rows[i]);
        DrawingsSnoc(draw, rows, i);
        PlaceAllAppend(o0, s0, drawn, ds);
        LabelsAllAppend(l0, s0, drawn, ds);
        HandlesAppend(s0, |drawn|, |ds|);
        var more := AddDrawings(ds);
        hs := hs + more;
        drawn := drawn + ds;
        i := i + 1;
      }
      assert rows[..i] == rows;
    }

    /** Draws a table's rows in a context; their handles become the type's markers. */
    method DrawTable(ctx: PlotCtx, t: string, rows: seq<Row>)
      requires Valid()
      modifies this`markersByType, this`labelText, canvas
      ensures Valid()
      ensures var ds := TableDrawings(ctx, rows);
        markersByType == old(markersByType)[t := Handles(old(canvas.nextId), |ds|)]
        && canvas.objects == PlaceAll(old(canvas.objects), old(canvas.nextId), ds)
        && labelText == LabelsAll(old(labelText), old(canvas.nextId), ds)
    {
      var hs := DrawRows(row => RowDrawings(ctx, row), rows);
      markersByType := markersByType[t := hs];
    }

    /** The boundary step of the set-up: skipped for ordinary tables. */
    method SetupBoundary(cfg: Config, route: Route) returns (read: Option<Option<Boundary>>)
      ensures read == RouteBoundary(route, BoundaryOf(cfg.overpassPoly, cfg.boundBox, cfg.savedBoundBox))
    {
      if route == NamedRows {
        return Some(None);
      }
      var b := GetBoundaryPolygon(cfg);
      if b.ReadRaises? {
        return None;
      }
      read := Some(if b.Bound? then Some(b.b) else None);
    }

    /** The rest of the set-up of `plot_df` for a non-empty table, once the boundary is
        read: nothing more when reading it raised (`None`), else the icon for Kind and
        ordinary tables. */
    method PlotSetup(t: string, rows: seq<Row>, read: Option<Option<Boundary>>) returns (ctx: Option<PlotCtx>)
      modifies this`poiIcons
      ensures ctx == PlanRead(t, rows, read, old(poiIcons))
      ensures poiIcons == IconsAfter(t, rows, ctx, old(poiIcons))
    {
      if read.None? {
        return None;
      }
      var route := RouteOf(t, rows);
      var icon: Option<string> := None;
      if route != CoastlineLines {
        icon := GetPoiIcon(t);
      }
      ctx := Some(PlotCtx(route, HasGeometryColumn(rows), HasLatLonColumns(rows), read.value, icon, widget, hasSetMarker, cut));
    }

    /** `plot_df` after clearing the type: nothing for an empty table or when the set-up
        raises; otherwise the rows are drawn and their handles are the type's markers. */
    method PlotRows(cfg: Config, t: string, rows: seq<Row>) returns (raised: bool)
      requires Valid()
      modifies this`markersByType, this`labelText, this`poiIcons, canvas
      ensures Valid()
      ensures var plan := Plan(BoundaryOf(cfg.overpassPoly, cfg.boundBox, cfg.savedBoundBox), t, rows, old(poiIcons));
        (raised <==> rows != [] && plan.None?)
        && poiIcons == (if rows == [] then old(poiIcons) else IconsAfter(t, rows, plan, old(poiIcons)))
      ensures rows == [] || raised ==>
        markersByType == old(markersByType) && canvas.objects == old(canvas.objects) && labelText == old(labelText)
      ensures rows != [] && !raised ==>
        var ds := TableDrawings(Plan(BoundaryOf(cfg.overpassPoly, cfg.boundBox, cfg.savedBoundBox), t, rows, old(poiIcons)).value, rows);
        markersByType == old(markersByType)[t := Handles(old(canvas.nextId), |ds|)]
        && canvas.objects == PlaceAll(old(canvas.objects), old(canvas.nextId), ds)
        && labelText == LabelsAll(old(labelText), old(canvas.nextId), ds)
    {
      if rows == [] {
        return false;
      }
      var read := SetupBoundary(cfg, RouteOf(t, rows));
      raised := PlotTable(t, rows, read);
    }

    /** The same once the boundary step is done: the set-up, then the rows when it did
        not raise. */
    method PlotTable(t: string, rows: seq<Row>, read: Option<Option<Boundary>>) returns (raised: bool)
      requires Valid()
      modifies this`markersByType, this`labelText, this`poiIcons, canvas
      ensures Valid()
      ensures var plan := PlanRead(t, rows, read, old(poiIcons));
        (raised <==> plan.None?) && poiIcons == IconsAfter(t, rows, plan, old(poiIcons))
      ensures raised ==>
        markersByType == old(markersByType) && canvas.objects == old(canvas.objects) && labelText == old(labelText)
      ensures !raised ==>
        var ds := TableDrawings(PlanRead(t, rows, read, old(poiIcons)).value, rows);
        markersByType == old(markersByType)[t := Handles(old(canvas.nextId), |ds|)]
        && canvas.objects == PlaceAll(old(canvas.objects), old(canvas.nextId), ds)
        && labelText == LabelsAll(old(labelText), old(canvas.nextId), ds)
    {
      var ctx := PlotSetup(t, rows, read);
      if ctx.None? {
        return true;
      }
      DrawTable(ctx.value, t, rows);
      raised := false;
    }

    /** `plot_df`: clears the type's markers and labels, then draws the table. */
    method PlotDf(cfg: Config, t: string, rows: seq<Row>) returns (raised: bool)
      requires Valid()
      modifies this`markersByType, this`labelText, this`labelOn, this`poiIcons, canvas
      ensures Valid()
      ensures var plan := Plan(BoundaryOf(cfg.overpassPoly, cfg.boundBox, cfg.savedBoundBox), t, rows, old(poiIcons));
        (raised <==> rows != [] && plan.None?)
        && poiIcons == (if rows == [] then old(poiIcons) else IconsAfter(t, rows, plan, old(poiIcons)))
      ensures labelOn == old(labelOn) - HandleSet(old(MarkersOf(t)))
      ensures rows == [] || raised ==>
        markersByType == old(markersByType)[t := []]
        && canvas.objects == old(canvas.objects) - HandleSet(old(MarkersOf(t)))
        && labelText == old(labelText) - HandleSet(old(MarkersOf(t)))
      ensures rows != [] && !raised ==>
        var ds := TableDrawings(Plan(BoundaryOf(cfg.overpassPoly, cfg.boundBox, cfg.savedBoundBox), t, rows, old(poiIcons)).value, rows);
        markersByType == old(markersByType)[t := Handles(old(canvas.nextId), |ds|)]
        && canvas.objects == PlaceAll(old(canvas.objects) - HandleSet(old(MarkersOf(t))), old(canvas.nextId), ds)
        && labelText == LabelsAll(old(labelText) - HandleSet(old(MarkersOf(t))), old(canvas.nextId), ds)
    {
      ghost var byType0 := markersByType;
      ClearType(t);
      raised := PlotRows(cfg, t, rows);
      if rows != [] && !raised {
        UpdateTwice(byType0, t, [], markersByType[t]);
      }
    }

    /** How `plot_df` draws a non-empty table with this icon cache: `None` when reading
        the boundary raises; else the route, the columns present, the boundary (only for
        coastline and Kind tables) and the icon (not for coastlines). */
    function Plan(b: BoundaryRead, t: string, rows: seq<Row>, cache: map<string, Option<string>>): Option<PlotCtx> {
      PlanRead(t, rows, RouteBoundary(RouteOf(t, rows), b), cache)
    }

    /** The same, from the boundary step's outcome. */
    function PlanRead(t: string, rows: seq<Row>, read: Option<Option<Boundary>>, cache: map<string, Option<string>>)
      : Option<PlotCtx>
    {
      var route := RouteOf(t, rows);
      match read
      case None => None
      case Some(bnd) =>
        Some(PlotCtx(route, HasGeometryColumn(rows), HasLatLonColumns(rows), bnd,
                     if route != CoastlineLines then IconValue(cache, t) else None,
                     widget, hasSetMarker, cut))
    }

    /** The icon cache after the set-up: the type's icon is cached unless the set-up
        raised or the table is a coastline. */
    function IconsAfter(t: string, rows: seq<Row>, plan: Option<PlotCtx>, cache: map<string, Option<string>>)
      : map<string, Option<string>>
    {
      if plan.Some? && RouteOf(t, rows) != CoastlineLines then cache[t := IconValue(cache, t)] else cache
    }
  }

  /** The markers by type with the types in `done` emptied. */
  function ClearedTypes(byType: map<string, seq<nat>>, done: set<string>): (r: map<string, seq<nat>>)
    ensures r.Keys == byType.Keys
    ensures forall t :: t in r ==> r[t] == if t in done then [] else byType[t]
  {
    map t | t in byType :: if t in done then [] else byType[t]
  }

  lemma ClearedOneMore(byType: map<string, seq<nat>>, done: set<string>, t: string)
    requires t in byType
    ensures ClearedTypes(byType, done)[t := []] == ClearedTypes(byType, done + {t})
  {
  }

  /** Clearing one more type removes its handles as well. */
  lemma AllHandlesAdd(byType: map<string, seq<nat>>, todo: set<string>, t: string)
    requires t in todo && todo <= byType.Keys
    ensures AllHandles(byType - (todo - {t})) == AllHandles(byType - todo) + HandleSet(byType[t])
  {
    var a := byType - (todo - {t});
    var b := byType - todo;
    forall h | h in AllHandles(a) ensures h in AllHandles(b) + HandleSet(byType[t]) {
      var u, k :| u in a && 0 <= k < |a[u]| && a[u][k] == h;
      if u != t {
        assert u in b && b[u] == a[u];
      }
    }
    forall h | h in HandleSet(byType[t]) ensures h in AllHandles(a) {
      var k :| 0 <= k < |byType[t]| && byType[t][k] == h;
      assert t in a && a[t] == byType[t];
    }
    forall h | h in AllHandles(b) ensures h in AllHandles(a) {
      var u, k :| u in b && 0 <= k < |b[u]| && b[u][k] == h;
      assert u in a && a[u] == b[u];
    }
  }

  /** Handles handed out in two runs are the handles of one run. */
  lemma HandlesAppend(start: nat, a: nat, b: nat)
    ensures Handles(start, a) + Handles(start + a, b) == Handles(start, a + b)
  {
    var hs := Handles(start, a) + Handles(start + a, b);
    forall i | 0 <= i < a + b ensures hs[i] == start + i {
      if i >= a {
        assert hs[i] == Handles(start + a, b)[i - a];
      }
    }
  }

  /** Removing two sets of keys one after the other is removing their union. */
  lemma MinusMinus<V>(m: map<nat, V>, a: set<nat>, b: set<nat>)
    ensures (m - a) - b == m - (a + b)
  {
  }

  /** Setting a key twice keeps the second value. */
  lemma UpdateTwice<K, V>(m: map<K, V>, k: K, a: V, b: V)
    ensures m[k := a][k := b] == m[k := b]
  {
  }
}
