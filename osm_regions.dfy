/**
 * GeoJSON boundaries as Nominatim returns them (screens/shared/osm_regions.py),
 * read per RFC 7946: a position is [longitude, latitude] (section 3.1.1), a Polygon
 * is a list of linear rings whose first is the exterior (section 3.1.6), and a
 * MultiPolygon is a list of Polygon coordinate arrays (section 3.1.7).
 */
module OsmRegions {
  import opened Common
  import opened Decimal
  import opened Tables

  /** A GeoJSON position, in its own order. */
  datatype Position = Position(lon: Number, lat: Number)

  /** A GeoJSON geometry object, by its "type" member; a Polygon or MultiPolygon
      without "coordinates" has an empty list. */
  datatype GeoJson =
    | Polygon(rings: seq<seq<Position>>)
    | MultiPolygon(polygons: seq<seq<seq<Position>>>)
    | OtherGeometry(typ: string)

  /** `ring_lonlat_to_latlon`: every [lon, lat] becomes (lat, lon), in order. */
  function RingToLatLon(r: seq<Position>): (out: seq<LatLon>)
    ensures |out| == |r|
    ensures forall i :: 0 <= i < |r| ==> out[i] == LatLon(r[i].lat, r[i].lon)
  {
    seq(|r|, i requires 0 <= i < |r| => LatLon(r[i].lat, r[i].lon))
  }

  /** Back to GeoJSON order; converting there and back is the identity. */
  function RingToLonLat(r: seq<LatLon>): (out: seq<Position>)
    ensures |out| == |r|
  {
    seq(|r|, i requires 0 <= i < |r| => Position(r[i].lon, r[i].lat))
  }

  lemma RingRoundTrip(r: seq<Position>)
    ensures RingToLonLat(RingToLatLon(r)) == r
  {
  }

  /** The exterior rings of the member polygons whose exterior ring is non-empty. */
  function OuterRings(polys: seq<seq<seq<Position>>>): (rings: seq<seq<LatLon>>)
    ensures |rings| <= |polys|
  {
    if polys == [] then []
    else
      var init := OuterRings(polys[..|polys| - 1]);
      var p := polys[|polys| - 1];
      if p != [] && p[0] != [] then init + [RingToLatLon(p[0])] else init
  }

  /** Each ring is the exterior of some member polygon, none of them empty. */
  lemma {:induction false} OuterRingsFrom(polys: seq<seq<seq<Position>>>)
    ensures forall k :: 0 <= k < |OuterRings(polys)| ==>
      OuterRings(polys)[k] != [] &&
      exists i :: 0 <= i < |polys| && polys[i] != [] && OuterRings(polys)[k] == RingToLatLon(polys[i][0])
  {
    if polys != [] {
      var pre := polys[..|polys| - 1];
      OuterRingsFrom(pre);
      forall k | 0 <= k < |OuterRings(polys)|
        ensures OuterRings(polys)[k] != [] &&
          exists i :: 0 <= i < |polys| && polys[i] != [] && OuterRings(polys)[k] == RingToLatLon(polys[i][0])
      {
        if k < |OuterRings(pre)| {
          var i :| 0 <= i < |pre| && pre[i] != [] && OuterRings(pre)[k] == RingToLatLon(pre[i][0]);
          assert polys[i] == pre[i];
        } else {
          assert OuterRings(polys)[k] == RingToLatLon(polys[|polys| - 1][0]);
        }
      }
    }
  }

  /** When every member polygon has a non-empty exterior, there is one ring per member, in order. */
  lemma {:induction false} OuterRingsAll(polys: seq<seq<seq<Position>>>)
    requires forall i :: 0 <= i < |polys| ==> polys[i] != [] && polys[i][0] != []
    ensures |OuterRings(polys)| == |polys|
    ensures forall i :: 0 <= i < |polys| ==> OuterRings(polys)[i] == RingToLatLon(polys[i][0])
  {
    if polys != [] {
      var pre := polys[..|polys| - 1];
      OuterRingsAll(pre);
    }
  }

  /** What `geojson_to_latlon_rings` returns. */
  function LatLonRings(g: Option<GeoJson>): seq<seq<LatLon>> {
    match g
    case None => []
    case Some(Polygon(rings)) => if rings != [] then [RingToLatLon(rings[0])] else []
    case Some(MultiPolygon(polys)) => OuterRings(polys)
    case Some(OtherGeometry(_)) => []
  }

  /** `geojson_to_latlon_rings`. */
  method GeojsonToLatLonRings(g: Option<GeoJson>) returns (rings: seq<seq<LatLon>>)
    ensures rings == LatLonRings(g)
    ensures g.None? || g.value.OtherGeometry? ==> rings == []
    ensures g.Some? && g.value.Polygon? ==>
      if g.value.rings == [] then rings == [] else rings == [RingToLatLon(g.value.rings[0])]
  {
    rings := [];
    if g.None? {
      return;
    }
    match g.value {
      case Polygon(rs) =>
        if rs != [] {
          rings := rings + [RingToLatLon(rs[0])];
        }
      case MultiPolygon(polys) =>
        var i := 0;
        while i < |polys|
          invariant 0 <= i <= |polys|
          invariant rings == OuterRings(polys[..i])
        {
          assert polys[..i + 1][..i] == polys[..i];
          var poly := polys[i];
          if poly != [] && poly[0] != [] {
            rings := rings + [RingToLatLon(poly[0])];
          }
          i := i + 1;
        }
        assert polys[..i] == polys;
      case OtherGeometry(_) =>
    }
  }
}
