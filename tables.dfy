/**
 * The records the program passes around: coordinates, rows of the point-of-interest
 * tables, transit stops and the bounding box. A pandas table is a sequence of rows;
 * a column that is missing from a row is `None`.
 */
module Tables {
  import opened Common
  import opened Decimal

  datatype LatLon = LatLon(lat: Number, lon: Number)

  /** The great-circle distance in metres (`haversine_m`), left abstract. */
  type Distance = (LatLon, LatLon) -> real

  /** One row of a point-of-interest table: Name, Type, and the optional
      Kind, Latitude/Longitude, Beds and Geometry columns. */
  datatype Row = Row(
    name: string,
    typ: string,
    kind: Option<string>,
    pos: Option<LatLon>,
    beds: Option<int>,
    geometry: Option<seq<LatLon>>)

  /** A point row: the shape `maybe_add` and `add_point` append. */
  function PointRow(name: string, typ: string, kind: Option<string>, pos: LatLon, beds: Option<int>): Row {
    Row(name, typ, kind, Some(pos), beds, None)
  }

  /** A line row: the shape the water-line and coastline fetches append. */
  function LineRow(name: string, typ: string, kind: string, geometry: seq<LatLon>): Row {
    Row(name, typ, Some(kind), None, None, Some(geometry))
  }

  /** One transit stop of `all_data` (Name, Type, Latitude, Longitude). */
  datatype Stop = Stop(name: string, typ: string, pos: LatLon)

  /** `[south, west, north, east]`. */
  datatype BBox = BBox(south: Number, west: Number, north: Number, east: Number)

  /** The stored box is ordered: south <= north and west <= east. */
  predicate Ordered(b: BBox) {
    LessEq(b.south, b.north) && LessEq(b.west, b.east)
  }

  /** The four transit categories, in dedup priority order. */
  const Categories: seq<string> := ["Train", "Subway", "Tram", "Bus"]

  /** Pairs of points closer than `radius` metres; a missing coordinate is NaN
      in pandas, and every comparison with NaN is false. */
  predicate Near(a: Option<LatLon>, b: Option<LatLon>, radius: real, dist: Distance) {
    a.Some? && b.Some? && dist(a.value, b.value) <= radius
  }
}
