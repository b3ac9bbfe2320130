/**
 * The shared runtime state of config.py, as one object whose fields the screens
 * and fetchers update.
 */
module AppConfig {
  import opened Common
  import opened Tables
  import opened OsmRegions

  /** One selected region of `config.game_areas` (a Nominatim result, trimmed). */
  datatype GameArea = GameArea(
    displayName: Option<string>,
    osmType: Option<string>,
    osmId: Option<string>,
    cls: Option<string>,
    typ: Option<string>,
    boundingbox: Option<seq<string>>,
    geojson: Option<GeoJson>)

  /** The mirror list config.py starts with. */
  const DefaultMirrors: seq<string> := [
    "https://overpass-api.de/api/interpreter",
    "https://lz4.overpass-api.de/api/interpreter",
    "https://overpass.kumi.systems/api/interpreter",
    "https://overpass.private.coffee/api/interpreter",
    "https://overpass.nchc.org.tw/api/interpreter"]

  /** `all_data` as config.py starts it: the four transit categories, none fetched. */
  const EmptyAllData: map<string, Option<seq<Stop>>> :=
    map["Train" := None, "Subway" := None, "Tram" := None, "Bus" := None]

  class Config {
    var boundBox: Option<BBox>
    var savedBoundBox: Option<BBox>
    /** `overpass_poly`, an attribute that is absent until a region is locked. */
    var overpassPoly: Option<string>
    var overpassMirrors: seq<string>
    var allData: map<string, Option<seq<Stop>>>
    var dedupValid: bool
    var lastExportPath: Option<string>
    /** `game_areas`, absent until `init_geo_state` creates it. */
    var gameAreas: Option<seq<GameArea>>
    /** `poi_data`: the fetched point-of-interest tables, by type name. */
    var poiData: map<string, seq<Row>>

    /** The module-level values of config.py. */
    constructor ()
      ensures boundBox.None? && savedBoundBox.None? && overpassPoly.None?
      ensures overpassMirrors == DefaultMirrors
      ensures allData == EmptyAllData && !dedupValid
      ensures lastExportPath.None? && gameAreas.None? && poiData == map[]
    {
      boundBox := None;
      savedBoundBox := None;
      overpassPoly := None;
      overpassMirrors := DefaultMirrors;
      allData := EmptyAllData;
      dedupValid := false;
      lastExportPath := None;
      gameAreas := None;
      poiData := map[];
    }
  }
}
