/**
 * poi/boundary_draw.py: the outline of the game area on the map, and fitting the map
 * view to it. The map widget is described by which drawing calls it offers; a drawn
 * shape is recorded as the call made and its points.
 */
module BoundaryDraw {
  import opened Common
  import opened Text
  import opened Decimal
  import opened Tables

  /** Which of the optional map-widget methods exist (`hasattr`). */
  datatype Widget = Widget(hasSetPath: bool, hasSetPolygon: bool, hasFitBoundingBox: bool)

  /** A shape put on the map: `set_path(points, width=)` or `set_polygon(points, border_width=)`. */
  datatype Shape = Path(points: seq<LatLon>, width: int) | PolygonShape(points: seq<LatLon>, borderWidth: int)

  /** `DEFAULT_MAP_ZOOM` of config.py. */
  const DefaultMapZoom: int := 10

  /** The five outline corners of a box, clockwise from the north-west corner and back. */
  function BBoxCorners(b: BBox): (c: seq<LatLon>)
    ensures |c| == 5 && c[0] == c[4] == LatLon(b.north, b.west)
    ensures forall i :: 0 <= i < 5 ==>
              ((c[i].lat == b.north || c[i].lat == b.south) && (c[i].lon == b.west || c[i].lon == b.east))
    ensures forall i :: 0 <= i < 4 ==> c[i].lat == c[i + 1].lat || c[i].lon == c[i + 1].lon
  {
    [LatLon(b.north, b.west), LatLon(b.north, b.east), LatLon(b.south, b.east),
     LatLon(b.south, b.west), LatLon(b.north, b.west)]
  }

  /** The outline of an ordered box has that box as its bounds: fitting the view to the
      drawn outline (`fit_to_area` on a polygon) fits it to the box itself. */
  lemma OutlineBoundsAreBox(b: BBox)
    requires Ordered(b)
    ensures RingBounds(BBoxCorners(b)) == b
  {
    var c := BBoxCorners(b);
    var r := RingBounds(c);
    RingBoundsHold(c);
    assert c[2] == LatLon(b.south, b.east) && c[0] == LatLon(b.north, b.west);
    SameEnd(r.south, b.south, b.north);
    SameTop(r.north, b.south, b.north);
    SameEnd(r.west, b.west, b.east);
    SameTop(r.east, b.west, b.east);
  }

  /** Either end of an ordered pair that is at most the lower end is the lower end. */
  lemma SameEnd(x: Number, lo: Number, hi: Number)
    requires LessEq(x, lo) && LessEq(lo, hi) && (x == lo || x == hi)
    ensures x == lo
  {
    if x == hi && x != lo {
      ValueInjective(lo, hi);
    }
  }

  /** Either end of an ordered pair that is at least the upper end is the upper end. */
  lemma SameTop(x: Number, lo: Number, hi: Number)
    requires LessEq(hi, x) && LessEq(lo, hi) && (x == lo || x == hi)
    ensures x == hi
  {
    if x == lo && x != hi {
      ValueInjective(lo, hi);
    }
  }

  /** Draws `points` with the first drawing call the widget has; none gives no shape. */
  function DrawWith(w: Widget, points: seq<LatLon>, width: int): (r: seq<Shape>)
    ensures |r| <= 1
    ensures r == [] <==> !w.hasSetPath && !w.hasSetPolygon
    ensures r != [] ==> r[0].points == points
    ensures r != [] ==> (r[0].Path? <==> w.hasSetPath)
  {
    if w.hasSetPath then [Path(points, width)]
    else if w.hasSetPolygon then [PolygonShape(points, width)]
    else []
  }

  /** `draw_bbox`. */
  function DrawBBox(w: Widget, b: BBox, width: int): (r: seq<Shape>)
    ensures r == [] <==> !w.hasSetPath && !w.hasSetPolygon
    ensures r != [] ==> r[0].points == BBoxCorners(b)
  {
    DrawWith(w, BBoxCorners(b), width)
  }

  // ---------------------------------------------------------------------------
  // Polygon strings
  // ---------------------------------------------------------------------------

  /** Each token read by `float`; `None` where it raises. */
  function Tokens(parts: seq<string>): (xs: seq<Option<Number>>)
    ensures |xs| == |parts| && forall i :: 0 <= i < |parts| ==> xs[i] == ParseNumber(parts[i])
  {
    seq(|parts|, i requires 0 <= i < |parts| => ParseNumber(parts[i]))
  }

  /** The (lat, lon) pairs of an even-length list of read tokens, in order; `None` when
      some token did not read. */
  function Pairs(xs: seq<Option<Number>>): (r: Option<seq<LatLon>>)
    requires |xs| % 2 == 0
    ensures r.Some? ==> |r.value| == |xs| / 2
    decreases |xs|
  {
    if xs == [] then Some([])
    else
      var n := |xs|;
      match (Pairs(xs[..n - 2]), xs[n - 2], xs[n - 1])
      case (Some(init), Some(lat), Some(lon)) => Some(init + [LatLon(lat, lon)])
      case _ => None
  }

  /** Pair `k` is read from tokens `2k` and `2k + 1`. */
  lemma {:induction false} PairsAt(xs: seq<Option<Number>>)
    requires |xs| % 2 == 0 && Pairs(xs).Some?
    ensures forall k :: 0 <= k < |xs| / 2 ==>
      xs[2 * k].Some? && xs[2 * k + 1].Some? && Pairs(xs).value[k] == LatLon(xs[2 * k].value, xs[2 * k + 1].value)
    decreases |xs|
  {
    if xs != [] {
      var n := |xs|;
      var pre := xs[..n - 2];
      PairsAt(pre);
      forall k | 0 <= k < n / 2 - 1 ensures xs[2 * k] == pre[2 * k] && xs[2 * k + 1] == pre[2 * k + 1] {
      }
    }
  }

  /** The pairs fail exactly when some token fails. */
  lemma {:induction false} PairsNoneIff(xs: seq<Option<Number>>)
    requires |xs| % 2 == 0
    ensures Pairs(xs).None? <==> exists i :: 0 <= i < |xs| && xs[i].None?
    decreases |xs|
  {
    if xs != [] {
      var n := |xs|;
      var pre := xs[..n - 2];
      PairsNoneIff(pre);
      if Pairs(pre).None? {
        var i :| 0 <= i < |pre| && pre[i].None?;
        assert xs[i] == pre[i];
      }
      if exists i :: 0 <= i < |xs| && xs[i].None? {
        var i :| 0 <= i < |xs| && xs[i].None?;
        if i < n - 2 {
          assert pre[i] == xs[i];
        }
      }
    }
  }

  /** A prefix that fails makes the whole list fail. */
  lemma {:induction false} PairsPrefixNone(xs: seq<Option<Number>>, i: nat)
    requires i <= |xs| && i % 2 == 0 && |xs| % 2 == 0
    requires Pairs(xs[..i]).None?
    ensures Pairs(xs).None?
    decreases |xs| - i
  {
    if i < |xs| {
      assert xs[..i + 2][..i] == xs[..i];
      PairsPrefixNone(xs, i + 2);
    } else {
      assert xs[..i] == xs;
    }
  }

  /** What `poly_string_to_ring` returns: `[]` for fewer than six tokens or an odd number
      of them, otherwise the closed ring of (lat, lon) pairs; `None` where it raises. */
  function PolyRing(polyStr: string): Option<seq<LatLon>> {
    RingOfParts(SplitWs(Strip(polyStr)))
  }

  /** The ring read from the whitespace-separated tokens of a polygon string. */
  function RingOfParts(parts: seq<string>): Option<seq<LatLon>> {
    if |parts| < 6 || |parts| % 2 != 0 then Some([])
    else
      match Pairs(Tokens(parts))
      case None => None
      case Some(ring) => Some(CloseRing(ring))
  }

  /** How a read ring relates to the tokens: `None` only for six or more tokens, an even
      number of them; `[]` exactly for fewer or an odd number; otherwise closed, the token
      pairs in order first, plus the closing point when they were open. */
  predicate RingShaped(parts: seq<string>, r: Option<seq<LatLon>>) {
    match r
    case None => |parts| >= 6 && |parts| % 2 == 0
    case Some(ring) =>
      (ring == [] <==> |parts| < 6 || |parts| % 2 != 0)
      && (ring != [] ==>
            ring[0] == ring[|ring| - 1]
            && (|ring| == |parts| / 2 || |ring| == |parts| / 2 + 1)
            && Pairs(Tokens(parts)).Some? && ring[..|parts| / 2] == Pairs(Tokens(parts)).value)
  }

  /** The closed ring of the token pairs has the shape `RingShaped` describes. */
  lemma ClosedPairsShape(parts: seq<string>, p: seq<LatLon>)
    requires |parts| >= 6 && |parts| % 2 == 0 && Pairs(Tokens(parts)) == Some(p)
    ensures RingShaped(parts, Some(CloseRing(p)))
  {
    var ring := CloseRing(p);
    assert |p| == |parts| / 2 >= 3;
    assert ring != [] && ring[0] == ring[|ring| - 1];
    assert ring[..|parts| / 2] == p;
  }

  lemma RingOfPartsShape(parts: seq<string>)
    ensures RingShaped(parts, RingOfParts(parts))
  {
    if |parts| >= 6 && |parts| % 2 == 0 {
      match Pairs(Tokens(parts))
      case None =>
      case Some(p) => ClosedPairsShape(parts, p);
    }
  }

  /** A ring read from a polygon string is closed and starts with the token pairs in order
      (see `PairsAt`), plus the closing point when the input was open; a string of fewer
      than six or an odd number of tokens gives no ring. */
  lemma PolyRingShape(polyStr: string)
    ensures RingShaped(SplitWs(Strip(polyStr)), PolyRing(polyStr))
  {
    RingOfPartsShape(SplitWs(Strip(polyStr)));
  }

  /** The pair-reading loop of `poly_string_to_ring`. */
  method ReadPairs(xs: seq<Option<Number>>) returns (ring: Option<seq<LatLon>>)
    requires |xs| % 2 == 0
    ensures ring == Pairs(xs)
  {
    var half := |xs| / 2;
    var acc: seq<LatLon> := [];
    var j := 0;
    while j < half
      invariant 0 <= j <= half && 2 * half == |xs|
      invariant Pairs(xs[..2 * j]) == Some(acc)
    {
      var lat := xs[2 * j];
      var lon := xs[2 * j + 1];
      assert xs[..2 * j + 2][..2 * j] == xs[..2 * j];
      if lat.None? || lon.None? {
        // float() raises out of the loop; no later pair is read.
        PairsPrefixNone(xs, 2 * j + 2);
        return None;
      }
      acc := acc + [LatLon(lat.value, lon.value)];
      j := j + 1;
    }
    assert xs[..2 * j] == xs;
    return Some(acc);
  }

  /** `poly_string_to_ring`. */
  method PolyStringToRing(polyStr: string) returns (ring: Option<seq<LatLon>>)
    ensures ring == PolyRing(polyStr)
  {
    var parts := SplitWs(Strip(polyStr));
    if |parts| < 6 || |parts| % 2 != 0 {
      return Some([]);
    }
    var pairs := ReadPairs(Tokens(parts));
    if pairs.None? {
      return None;
    }
    var acc := pairs.value;
    if acc != [] && acc[0] != acc[|acc| - 1] {
      acc := acc + [acc[0]];
    }
    return Some(acc);
  }

  /** `draw_poly`: nothing for an empty ring; `None` where reading the ring raises. */
  function DrawPoly(w: Widget, polyStr: string, width: int): (r: Option<seq<Shape>>)
    ensures r.None? <==> PolyRing(polyStr).None?
    ensures r.Some? && r.value != [] ==> PolyRing(polyStr).value != [] && r.value[0].points == PolyRing(polyStr).value
    ensures r.Some? && PolyRing(polyStr).value == [] ==> r.value == []
  {
    match PolyRing(polyStr)
    case None => None
    case Some(ring) => if ring == [] then Some([]) else Some(DrawWith(w, ring, width))
  }

  // ---------------------------------------------------------------------------
  // Fitting the view
  // ---------------------------------------------------------------------------

  /** Python's `min` over a non-empty list: the earliest of the smallest values. */
  function SeqMin(xs: seq<Number>): (r: Number)
    requires xs != []
    ensures r in xs
  {
    if |xs| == 1 then xs[0] else MinNum(SeqMin(xs[..|xs| - 1]), xs[|xs| - 1])
  }

  /** The minimum is at most every element. */
  lemma {:induction false} SeqMinLeast(xs: seq<Number>)
    requires xs != []
    ensures forall i :: 0 <= i < |xs| ==> LessEq(SeqMin(xs), xs[i])
  {
    if |xs| > 1 {
      var pre := xs[..|xs| - 1];
      SeqMinLeast(pre);
      MinMaxBounds(SeqMin(pre), xs[|xs| - 1]);
      forall i | 0 <= i < |xs| ensures LessEq(SeqMin(xs), xs[i]) {
        if i < |xs| - 1 {
          assert xs[i] == pre[i];
        }
      }
    }
  }

  /** Python's `max` over a non-empty list. */
  function SeqMax(xs: seq<Number>): (r: Number)
    requires xs != []
    ensures r in xs
  {
    if |xs| == 1 then xs[0] else MaxNum(SeqMax(xs[..|xs| - 1]), xs[|xs| - 1])
  }

  /** The maximum is at least every element. */
  lemma {:induction false} SeqMaxGreatest(xs: seq<Number>)
    requires xs != []
    ensures forall i :: 0 <= i < |xs| ==> LessEq(xs[i], SeqMax(xs))
  {
    if |xs| > 1 {
      var pre := xs[..|xs| - 1];
      SeqMaxGreatest(pre);
      MinMaxBounds(SeqMax(pre), xs[|xs| - 1]);
      forall i | 0 <= i < |xs| ensures LessEq(xs[i], SeqMax(xs)) {
        if i < |xs| - 1 {
          assert xs[i] == pre[i];
        }
      }
    }
  }

  function Lats(ring: seq<LatLon>): (r: seq<Number>)
    ensures |r| == |ring| && forall i :: 0 <= i < |ring| ==> r[i] == ring[i].lat
  {
    seq(|ring|, i requires 0 <= i < |ring| => ring[i].lat)
  }

  function Lons(ring: seq<LatLon>): (r: seq<Number>)
    ensures |r| == |ring| && forall i :: 0 <= i < |ring| ==> r[i] == ring[i].lon
  {
    seq(|ring|, i requires 0 <= i < |ring| => ring[i].lon)
  }

  /** The bounds of a ring: the least box holding every point. */
  function RingBounds(ring: seq<LatLon>): (b: BBox)
    requires ring != []
    ensures (exists i :: 0 <= i < |ring| && ring[i].lat == b.south) && (exists i :: 0 <= i < |ring| && ring[i].lat == b.north)
    ensures (exists i :: 0 <= i < |ring| && ring[i].lon == b.west) && (exists i :: 0 <= i < |ring| && ring[i].lon == b.east)
  {
    var lats := Lats(ring);
    var lons := Lons(ring);
    BBox(SeqMin(lats), SeqMin(lons), SeqMax(lats), SeqMax(lons))
  }

  /** The bounds are ordered and hold every point of the ring. */
  lemma RingBoundsHold(ring: seq<LatLon>)
    requires ring != []
    ensures Ordered(RingBounds(ring))
    ensures var b := RingBounds(ring);
      forall i :: 0 <= i < |ring| ==>
        LessEq(b.south, ring[i].lat) && LessEq(ring[i].lat, b.north)
        && LessEq(b.west, ring[i].lon) && LessEq(ring[i].lon, b.east)
  {
    var lats := Lats(ring);
    var lons := Lons(ring);
    SeqMinLeast(lats);
    SeqMaxGreatest(lats);
    SeqMinLeast(lons);
    SeqMaxGreatest(lons);
  }

  /** The area `fit_to_area` fits the view to. */
  datatype FitArea = FitTo(b: BBox) | NoArea | RingRaises

  /** A set polygon wins when it yields a ring; otherwise `bound_box`, then `saved_bound_box`. */
  function AreaToFit(poly: Option<string>, boundBox: Option<BBox>, savedBoundBox: Option<BBox>): (r: FitArea)
    ensures poly.Some? && poly.value != "" && PolyRing(poly.value).None? ==> r.RingRaises?
    ensures poly.Some? && poly.value != "" && PolyRing(poly.value).Some? && PolyRing(poly.value).value != [] ==>
      r == FitTo(RingBounds(PolyRing(poly.value).value))
    ensures poly.None? || poly.value == "" || PolyRing(poly.value) == Some([]) ==>
      match boundBox
      case Some(b) => r == FitTo(b)
      case None => match savedBoundBox
        case Some(b) => r == FitTo(b)
        case None => r == NoArea
  {
    var bb := if boundBox.Some? then boundBox else savedBoundBox;
    if poly.Some? && poly.value != "" && PolyRing(poly.value) != Some([]) then
      match PolyRing(poly.value)
      case None => RingRaises
      case Some(ring) => FitTo(RingBounds(ring))
    else if bb.Some? then FitTo(bb.value)
    else NoArea
  }

  /** A map call `fit_to_area` makes. */
  datatype ViewCall = FitBoundingBox(northWest: LatLon, southEast: LatLon) | SetPosition(lat: real, lon: real) | SetZoom(z: int)

  /** The calls that fit the view to a box: `fit_bounding_box` when the widget has it,
      else centring on the middle of the box at the default zoom. */
  function ViewCalls(w: Widget, b: BBox): (r: seq<ViewCall>)
    ensures w.hasFitBoundingBox ==> r == [FitBoundingBox(LatLon(b.north, b.west), LatLon(b.south, b.east))]
    ensures !w.hasFitBoundingBox ==>
      |r| == 2 && r[1] == SetZoom(DefaultMapZoom)
      && r[0].SetPosition? && r[0].lat * 2.0 == Value(b.south) + Value(b.north)
      && r[0].lon * 2.0 == Value(b.west) + Value(b.east)
  {
    if w.hasFitBoundingBox then [FitBoundingBox(LatLon(b.north, b.west), LatLon(b.south, b.east))]
    else [SetPosition((Value(b.south) + Value(b.north)) / 2.0, (Value(b.west) + Value(b.east)) / 2.0),
          SetZoom(DefaultMapZoom)]
  }

  /** `fit_to_area`: the calls it makes, or `None` where reading the polygon raises. */
  function FitToArea(w: Widget, poly: Option<string>, boundBox: Option<BBox>, savedBoundBox: Option<BBox>)
    : (r: Option<seq<ViewCall>>)
    ensures r.None? <==> AreaToFit(poly, boundBox, savedBoundBox).RingRaises?
    ensures r == Some([]) <==> AreaToFit(poly, boundBox, savedBoundBox).NoArea?
    ensures AreaToFit(poly, boundBox, savedBoundBox).FitTo? ==>
      r == Some(ViewCalls(w, AreaToFit(poly, boundBox, savedBoundBox).b))
  {
    match AreaToFit(poly, boundBox, savedBoundBox)
    case RingRaises => None
    case NoArea => Some([])
    case FitTo(b) => Some(ViewCalls(w, b))
  }
}
