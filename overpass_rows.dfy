/**
 * What poi/overpass_fetch.py does with one Overpass answer: the error-text
 * classifiers, the area clause, the request routing, the per-feature row
 * builders (`maybe_add`, `add_point`) and the reconstruction of way geometry
 * from the returned nodes.
 */
module OverpassRows {
  import opened Common
  import opened Text
  import opened Decimal
  import opened Tables
  import opened PoiUtils
  import opened PoiFilters

  // ---------------------------------------------------------------------------
  // Error classification
  // ---------------------------------------------------------------------------

  /** The exception classes the fetch loops tell apart. */
  datatype ErrorType = TimeoutError | SocketTimeout | OtherError

  /** A raised exception: its class and `str(e)`. */
  datatype Failure = Failure(typ: ErrorType, message: string)

  const TimeoutMarkers: seq<string> := ["timed out", "10060"]
  const OverloadMarkers: seq<string> := ["server load too high", "too busy", "rate limit", "429"]
  const BlockedMarkers: seq<string> :=
    ["status code: 403", "status code: 405", " 403", " 405", "forbidden", "method not allowed"]

  /** `_is_timeout_error`: a timeout exception, or a message saying so. */
  function IsTimeoutError(e: Failure): (r: bool)
    ensures r <==> e.typ != OtherError || exists k :: k in TimeoutMarkers && Contains(Lower(e.message), k)
  {
    var s := Lower(e.message);
    assert "timed out" in TimeoutMarkers && "10060" in TimeoutMarkers;
    e.typ == TimeoutError || e.typ == SocketTimeout || Contains(s, "timed out") || Contains(s, "10060")
  }

  /** `_is_overload_error`. */
  function IsOverloadError(e: Failure): (r: bool)
    ensures r <==> exists k :: k in OverloadMarkers && Contains(Lower(e.message), k)
  {
    var s := Lower(e.message);
    assert "server load too high" in OverloadMarkers && "too busy" in OverloadMarkers;
    assert "rate limit" in OverloadMarkers && "429" in OverloadMarkers;
    Contains(s, "server load too high") || Contains(s, "too busy") || Contains(s, "rate limit") || Contains(s, "429")
  }

  /** `_is_blocked_or_bad_endpoint`. */
  function IsBlockedOrBadEndpoint(e: Failure): (r: bool)
    ensures r <==> exists k :: k in BlockedMarkers && Contains(Lower(e.message), k)
  {
    var s := Lower(e.message);
    assert "status code: 403" in BlockedMarkers && "status code: 405" in BlockedMarkers;
    assert " 403" in BlockedMarkers && " 405" in BlockedMarkers;
    assert "forbidden" in BlockedMarkers && "method not allowed" in BlockedMarkers;
    Contains(s, "status code: 403") || Contains(s, "status code: 405") || Contains(s, " 403")
      || Contains(s, " 405") || Contains(s, "forbidden") || Contains(s, "method not allowed")
  }

  /** The branch the two-round line fetch takes on a failure; the checks run in this order. */
  datatype FailureClass = Blocked | Overloaded | TimedOut | HtmlReply | OtherFailure

  function Classify(e: Failure): (c: FailureClass)
    ensures c == Overloaded <==> !IsBlockedOrBadEndpoint(e) && IsOverloadError(e)
    ensures c == Blocked <==> IsBlockedOrBadEndpoint(e)
  {
    var s := Lower(e.message);
    if IsBlockedOrBadEndpoint(e) then Blocked
    else if IsOverloadError(e) then Overloaded
    else if IsTimeoutError(e) then TimedOut
    else if Contains(s, "unknown content type") && Contains(s, "text/html") then HtmlReply
    else OtherFailure
  }

  // ---------------------------------------------------------------------------
  // Area clause and routing
  // ---------------------------------------------------------------------------

  /** `(south,west,north,east)` with each number as `str(float)` writes it. */
  function BoxClause(b: BBox): string {
    "(" + BoxInner(b) + ")"
  }

  function BoxInner(b: BBox): string {
    Format(b.south) + [','] + (Format(b.west) + [','] + (Format(b.north) + [','] + Format(b.east)))
  }

  /** `area_clause_from_config`: a non-empty polygon wins, then bound_box, then saved_bound_box. */
  function AreaClause(poly: Option<string>, boundBox: Option<BBox>, savedBoundBox: Option<BBox>): (r: Option<string>)
    ensures poly.Some? && poly.value != "" ==> r == Some("(poly:\"" + poly.value + "\")")
    ensures (poly.None? || poly.value == "") && boundBox.Some? ==> r == Some(BoxClause(boundBox.value))
    ensures (poly.None? || poly.value == "") && boundBox.None? && savedBoundBox.Some?
            ==> r == Some(BoxClause(savedBoundBox.value))
    ensures r.None? <==> (poly.None? || poly.value == "") && boundBox.None? && savedBoundBox.None?
  {
    if poly.Some? && poly.value != "" then Some("(poly:\"" + poly.value + "\")")
    else
      var bb := if boundBox.Some? then boundBox else savedBoundBox;
      match bb
      case Some(b) => Some(BoxClause(b))
      case None => None
  }

  lemma NoCommaInFormat(n: Num)
    ensures ',' !in Format(n)
  {
    forall i | 0 <= i < |Format(n)| ensures Format(n)[i] != ',' {
      FormatAlphabet(n, i);
    }
  }

  lemma SplitTwo(c: string, d: string)
    requires ',' !in c && ',' !in d
    ensures SplitOn(c + [','] + d, ',') == [c, d]
  {
    SplitOnAbsent(d, ',');
    SplitOnFirst(c, ',', d);
  }

  lemma SplitThree(b: string, c: string, d: string)
    requires ',' !in b && ',' !in c && ',' !in d
    ensures SplitOn(b + [','] + (c + [','] + d), ',') == [b, c, d]
  {
    SplitTwo(c, d);
    SplitOnFirst(b, ',', c + [','] + d);
  }

  lemma SplitFour(a: string, b: string, c: string, d: string)
    requires ',' !in a && ',' !in b && ',' !in c && ',' !in d
    ensures SplitOn(a + [','] + (b + [','] + (c + [','] + d)), ',') == [a, b, c, d]
  {
    SplitThree(b, c, d);
    SplitOnFirst(a, ',', b + [','] + (c + [','] + d));
  }

  /** The box clause reads back: its four comma-separated fields parse to the box's numbers. */
  lemma BoxClauseReadsBack(b: BBox)
    ensures SplitOn(BoxInner(b), ',') == [Format(b.south), Format(b.west), Format(b.north), Format(b.east)]
    ensures ParseNumber(Format(b.south)) == Some(b.south) && ParseNumber(Format(b.west)) == Some(b.west)
    ensures ParseNumber(Format(b.north)) == Some(b.north) && ParseNumber(Format(b.east)) == Some(b.east)
  {
    NoCommaInFormat(b.south);
    NoCommaInFormat(b.west);
    NoCommaInFormat(b.north);
    NoCommaInFormat(b.east);
    SplitFour(Format(b.south), Format(b.west), Format(b.north), Format(b.east));
    ParseFormat(b.south);
    ParseFormat(b.west);
    ParseFormat(b.north);
    ParseFormat(b.east);
  }

  /** `" ".join(str(type_name).split()).lower()`. */
  function TypeKey(typeName: string): string {
    Lower(Join(SplitWs(typeName), " "))
  }

  datatype Route = WaterRoute | CoastlineRoute | GenericRoute

  const WaterFilterMarkers: seq<string> := ["waterway=", "natural=water", "water="]

  /** The `fetch_pois` dispatch: water (by type or by filter text) before coastline. */
  function RouteFor(typeKey: string, filters: seq<string>): (r: Route)
    ensures typeKey == "body of water" ==> r == WaterRoute
    ensures r == CoastlineRoute ==> typeKey == "coastline"
    ensures r == WaterRoute <==> typeKey == "body of water" || ContainsAny(Lower(Join(filters, " ")), WaterFilterMarkers)
  {
    if typeKey == "body of water" || ContainsAny(Lower(Join(filters, " ")), WaterFilterMarkers) then WaterRoute
    else if typeKey == "coastline" then CoastlineRoute
    else GenericRoute
  }

  // ---------------------------------------------------------------------------
  // maybe_add
  // ---------------------------------------------------------------------------

  /** Python's `tags.get(k1) or tags.get(k2) or ...` followed by `clean_name`:
      the first non-empty value. */
  function FirstNonEmpty(tags: Tags, keys: seq<string>): (r: Option<string>)
    ensures r.Some? ==> r.value != "" && exists k :: k in keys && k in tags && tags[k] == r.value
    ensures r.None? ==> forall k :: k in keys && k in tags ==> tags[k] == ""
    ensures keys != [] && keys[0] in tags && tags[keys[0]] != "" ==> r == Some(tags[keys[0]])
  {
    if keys == [] then None
    else if keys[0] in tags && tags[keys[0]] != "" then Some(tags[keys[0]])
    else
      var r := FirstNonEmpty(tags, keys[1..]);
      assert forall k :: k in keys[1..] ==> k in keys;
      assert forall k :: k in keys ==> k == keys[0] || k in keys[1..];
      r
  }

  const CinemaNameKeys: seq<string> := ["brand", "operator", "short_name", "name:en", "ref"]

  /** The cinema fallback name: the first of brand, operator, short_name, name:en, ref,
      cleaned, or "Cinema (unnamed)". */
  function CinemaName(tags: Tags): (r: string)
    ensures r != "" && Stripped(r)
    ensures r == "Cinema (unnamed)" || r == CleanName(FirstNonEmpty(tags, CinemaNameKeys))
    ensures CleanName(FirstNonEmpty(tags, CinemaNameKeys)) != "" ==> r == CleanName(FirstNonEmpty(tags, CinemaNameKeys))
  {
    var c := CleanName(FirstNonEmpty(tags, CinemaNameKeys));
    if c != "" then c else "Cinema (unnamed)"
  }

  const ResidenceMarkers: seq<string> := ["residence of", "ambassador's residence"]
  const BadMissionKeywords: seq<string> :=
    ["consular section", "consular department", "consulate general", "consulate of",
     "visa office", "passport", "trade", "commercial", "defence", "defense", "military",
     "attache", "education section", "cultural", "medical office", "student department",
     "science & technology", "naval", "delegation of"]
  const AllowedMissionKeywords: seq<string> :=
    ["embassy of", "high commission of", "royal embassy", "delegation of the european union"]

  /** The foreign-mission gate on the normalised name. */
  predicate MissionKept(nameL: string) {
    !ContainsAny(nameL, ResidenceMarkers) && !ContainsAny(nameL, BadMissionKeywords)
    && ContainsAny(nameL, AllowedMissionKeywords)
  }

  /** "delegation of" is a bad keyword, so the EU-delegation allowance never applies:
      a kept mission always names an embassy or a high commission. */
  lemma {:induction false} EuDelegationNeverKept(nameL: string)
    ensures Contains(nameL, "delegation of the european union") ==> !MissionKept(nameL)
    ensures MissionKept(nameL) ==>
      Contains(nameL, "embassy of") || Contains(nameL, "high commission of") || Contains(nameL, "royal embassy")
  {
    assert Contains("delegation of the european union", "delegation of") by {
      assert OccursAt("delegation of the european union", "delegation of", 0);
    }
    if Contains(nameL, "delegation of the european union") {
      ContainsTrans(nameL, "delegation of the european union", "delegation of");
      assert BadMissionKeywords[18] == "delegation of";
      ContainsAnyAt(nameL, BadMissionKeywords, 18);
    }
    ContainsAnyCons(nameL, "delegation of the european union", []);
    ContainsAnyCons(nameL, "royal embassy", ["delegation of the european union"]);
    ContainsAnyCons(nameL, "high commission of", ["royal embassy", "delegation of the european union"]);
    ContainsAnyCons(nameL, "embassy of", ["high commission of", "royal embassy", "delegation of the european union"]);
  }

  /** The gameplay blacklist applied to every type. */
  predicate Blacklisted(nameL: string) {
    (Contains(nameL, "house of ") && nameL !in ["house of commons", "house of lords"])
    || Contains(nameL, "official residence of")
  }

  /** The name `maybe_add` works with: the cleaned name, or for a cinema without one the
      cinema fallback; "" means the feature is dropped. */
  function RowName(typeKey: string, tags: Tags, name: Option<string>): (n: string)
    ensures CleanName(name) == "" && typeKey != "cinema" ==> n == ""
    ensures n != "" ==> n == (if CleanName(name) == "" then CinemaName(tags) else CleanName(name))
    ensures n != "" ==> Strip(n) != "" && Lower(n) != "unnamed"
  {
    var cleaned := CleanName(name);
    var n := if cleaned == "" && typeKey == "cinema" then CinemaName(tags) else cleaned;
    assert n != "" ==> Strip(n) == n && Lower(n) != "unnamed" by {
      if n != "" {
        StripOfStripped(n);
        if n == "Cinema (unnamed)" {
          assert Lower(n)[0] == 'c';
        }
      }
    }
    n
  }

  /** The gates `maybe_add` applies to a named feature of the given type. */
  predicate Admitted(typeKey: string, tags: Tags, n: string)
    ensures Admitted(typeKey, tags, n) ==> !Blacklisted(NormStr(Some(n)))
    ensures Admitted(typeKey, tags, n) && typeKey == "foreign mission" ==> MissionKept(NormStr(Some(n)))
    ensures Admitted(typeKey, tags, n) && typeKey == "park" ==> !IsExcludedPark(tags, n)
    ensures Admitted(typeKey, tags, n) && typeKey == "golf course" ==> !IsExcludedGolfCourse(tags, n)
    ensures Admitted(typeKey, tags, n) && typeKey == "museum" ==>
      (NormTag(tags, "building") != "" || NormTag(tags, "building:part") != "") && !IsNonBuildingMuseum(tags, n)
    ensures Admitted(typeKey, tags, n) && typeKey == "hospital" ==>
      !IsPrivateHospital(tags) && !IsExcludedHospital(tags, n)
    ensures !Blacklisted(NormStr(Some(n)))
            && (typeKey == "foreign mission" ==> MissionKept(NormStr(Some(n))))
            && (typeKey == "park" ==> !IsExcludedPark(tags, n))
            && (typeKey == "golf course" ==> !IsExcludedGolfCourse(tags, n))
            && (typeKey == "museum" ==>
                  (NormTag(tags, "building") != "" || NormTag(tags, "building:part") != "") && !IsNonBuildingMuseum(tags, n))
            && (typeKey == "hospital" ==> !IsPrivateHospital(tags) && !IsExcludedHospital(tags, n))
            ==> Admitted(typeKey, tags, n)
  {
    var nameL := NormStr(Some(n));
    if typeKey == "foreign mission" && !MissionKept(nameL) then false
    else if Blacklisted(nameL) then false
    else if typeKey == "park" && IsExcludedPark(tags, n) then false
    else if typeKey == "golf course" && IsExcludedGolfCourse(tags, n) then false
    else if typeKey == "museum" && NormTag(tags, "building") == "" && NormTag(tags, "building:part") == "" then false
    else if typeKey == "museum" && IsNonBuildingMuseum(tags, n) then false
    else if typeKey == "hospital" && (IsPrivateHospital(tags) || IsExcludedHospital(tags, n)) then false
    else true
  }

  /** The row `maybe_add` appends for one feature, if any. */
  function MaybeAdd(typeKey: string, typeName: string, tags: Tags, name: Option<string>, pos: LatLon): (r: Option<Row>)
    ensures CleanName(name) == "" && typeKey != "cinema" ==> r.None?
    ensures r.Some? ==> r.value.typ == typeName && r.value.pos == Some(pos) && r.value.geometry.None?
                        && r.value.kind.None?
    ensures r.Some? ==> r.value.name == (if CleanName(name) == "" then CinemaName(tags) else CleanName(name))
    ensures r.Some? ==> Strip(r.value.name) != "" && Lower(r.value.name) != "unnamed"
    ensures r.Some? ==> !Blacklisted(NormStr(Some(r.value.name)))
    ensures r.Some? && typeKey == "foreign mission" ==> MissionKept(NormStr(Some(r.value.name)))
    ensures r.Some? && typeKey == "park" ==> !IsExcludedPark(tags, r.value.name)
    ensures r.Some? && typeKey == "golf course" ==> !IsExcludedGolfCourse(tags, r.value.name)
    ensures r.Some? && typeKey == "museum" ==>
      (NormTag(tags, "building") != "" || NormTag(tags, "building:part") != "") && !IsNonBuildingMuseum(tags, r.value.name)
    ensures r.Some? && typeKey == "hospital" ==>
      !IsPrivateHospital(tags) && !IsExcludedHospital(tags, r.value.name)
      && r.value.beds == Some(OrInt(ParseIntTag(tags, "beds"), ParseIntTag(tags, "capacity")))
    ensures r.Some? && typeKey != "hospital" ==> r.value.beds.None?
    ensures r.Some? <==> RowName(typeKey, tags, name) != "" && Admitted(typeKey, tags, RowName(typeKey, tags, name))
  {
    var n := RowName(typeKey, tags, name);
    if n == "" || !Admitted(typeKey, tags, n) then None
    else if typeKey == "hospital" then
      Some(PointRow(n, typeName, None, pos, Some(OrInt(ParseIntTag(tags, "beds"), ParseIntTag(tags, "capacity")))))
    else Some(PointRow(n, typeName, None, pos, None))
  }

  /** The name filter `fetch_pois` applies to the finished table. */
  predicate NamedRow(r: Row) {
    Strip(r.name) != "" && Lower(r.name) != "unnamed"
  }

  function KeepNamed(t: seq<Row>): (r: seq<Row>)
    ensures |r| <= |t|
  {
    if t == [] then []
    else if NamedRow(t[0]) then [t[0]] + KeepNamed(t[1..])
    else KeepNamed(t[1..])
  }

  lemma {:induction false} KeepNamedSound(t: seq<Row>)
    ensures forall k :: 0 <= k < |KeepNamed(t)| ==> NamedRow(KeepNamed(t)[k])
  {
    if t != [] {
      KeepNamedSound(t[1..]);
    }
  }

  /** On a table whose rows are all named the filter changes nothing. */
  lemma {:induction false} KeepNamedIdentity(t: seq<Row>)
    requires forall k :: 0 <= k < |t| ==> NamedRow(t[k])
    ensures KeepNamed(t) == t
  {
    if t != [] {
      KeepNamedIdentity(t[1..]);
      assert t == [t[0]] + t[1..];
    }
  }

  // ---------------------------------------------------------------------------
  // Water points
  // ---------------------------------------------------------------------------

  /** The Kind of a still-water point. */
  function WaterKind(tags: Tags): (r: string)
    ensures r != ""
    ensures r == "reservoir" <==> NormTag(tags, "landuse") == "reservoir" || NormTag(tags, "water") == "reservoir"
    ensures r == "reservoir" || r == "water" || r == NormTag(tags, "water")
    ensures NormTag(tags, "water") in ["lake", "pond"] && NormTag(tags, "landuse") != "reservoir"
            ==> r == NormTag(tags, "water")
    ensures NormTag(tags, "landuse") != "reservoir" && NormTag(tags, "water") != "reservoir"
            && NormTag(tags, "water") !in ["lake", "pond"] && NormTag(tags, "natural") == "water"
            ==> r == (if NormTag(tags, "water") != "" then NormTag(tags, "water") else "water")
    ensures NormTag(tags, "landuse") != "reservoir" && NormTag(tags, "water") != "reservoir"
            && NormTag(tags, "water") !in ["lake", "pond"] && NormTag(tags, "natural") != "water"
            ==> r == "water"
  {
    var natural := NormTag(tags, "natural");
    var water := NormTag(tags, "water");
    var landuse := NormTag(tags, "landuse");
    assert "reservoir" != "water" && "reservoir"[0] != 'w';
    if landuse == "reservoir" || water == "reservoir" then "reservoir"
    else if water in ["lake", "pond"] then water
    else if natural == "water" then (if water != "" then water else "water")
    else "water"
  }

  /** The row `add_point` appends for one still-water feature, if named. */
  function AddPoint(tags: Tags, pos: LatLon): (r: Option<Row>)
    ensures r.None? <==> CleanName(FirstNonEmpty(tags, ["name", "name:en"])) == ""
    ensures r.Some? ==> r.value == PointRow(CleanName(FirstNonEmpty(tags, ["name", "name:en"])), "Body of water",
                                            Some(WaterKind(tags)), pos, None)
  {
    var name := CleanName(FirstNonEmpty(tags, ["name", "name:en"]));
    if name == "" then None
    else Some(PointRow(name, "Body of water", Some(WaterKind(tags)), pos, None))
  }

  // ---------------------------------------------------------------------------
  // Overpass answers
  // ---------------------------------------------------------------------------

  /** A feature the loops visit: its tags and the point they use, which is None for
      a way or relation Overpass returned without a `center`. */
  datatype Feature = Feature(tags: Tags, center: Option<LatLon>)

  /** A node of an `out center` answer. */
  datatype PoiNode = PoiNode(tags: Tags, pos: LatLon)

  /** An `out center` answer. */
  datatype PoiAnswer = PoiAnswer(nodes: seq<PoiNode>, ways: seq<Feature>, relations: seq<Feature>)

  datatype OsmNode = OsmNode(id: int, pos: LatLon)
  datatype OsmWay = OsmWay(tags: Tags, nodeIds: seq<int>)

  /** An `out body` answer with the ways' nodes recursed in. */
  datatype LineAnswer = LineAnswer(nodes: seq<OsmNode>, ways: seq<OsmWay>)

  /** The features in the order `fetch_pois` visits them: nodes, ways, relations. */
  function Features(a: PoiAnswer): seq<Feature> {
    NodeFeatures(a.nodes) + a.ways + a.relations
  }

  function NodeFeatures(nodes: seq<PoiNode>): (fs: seq<Feature>)
    ensures |fs| == |nodes|
    ensures forall i :: 0 <= i < |nodes| ==> fs[i] == Feature(nodes[i].tags, Some(nodes[i].pos))
  {
    seq(|nodes|, i requires 0 <= i < |nodes| => Feature(nodes[i].tags, Some(nodes[i].pos)))
  }

  /** What one visiting pass appends for a list of features; those with no center are skipped. */
  function CollectRows(features: seq<Feature>, add: (Tags, LatLon) -> Option<Row>): (rows: seq<Row>)
    ensures |rows| <= |features|
  {
    if features == [] then []
    else
      var f := features[|features| - 1];
      var more := if f.center.Some? && add(f.tags, f.center.value).Some? then [add(f.tags, f.center.value).value] else [];
      CollectRows(features[..|features| - 1], add) + more
  }

  lemma CollectRowsAppend(a: seq<Feature>, b: seq<Feature>, add: (Tags, LatLon) -> Option<Row>)
    ensures CollectRows(a + b, add) == CollectRows(a, add) + CollectRows(b, add)
    decreases |b|
  {
    if b == [] {
      assert a + b == a;
    } else {
      assert (a + b)[..|a + b| - 1] == a + b[..|b| - 1];
      CollectRowsAppend(a, b[..|b| - 1], add);
    }
  }

  /** Every collected row came from some feature with a center. */
  lemma CollectRowsFrom(features: seq<Feature>, add: (Tags, LatLon) -> Option<Row>, k: nat)
    requires k < |CollectRows(features, add)|
    ensures exists i :: (0 <= i < |features| && features[i].center.Some?
      && add(features[i].tags, features[i].center.value) == Some(CollectRows(features, add)[k]))
  {
    var n := |features|;
    var f := features[n - 1];
    var prefix := CollectRows(features[..n - 1], add);
    if k < |prefix| {
      CollectRowsFrom(features[..n - 1], add, k);
      var i :| 0 <= i < n - 1 && features[..n - 1][i].center.Some?
        && add(features[..n - 1][i].tags, features[..n - 1][i].center.value) == Some(prefix[k]);
      assert features[i] == features[..n - 1][i];
    } else {
      assert features[n - 1] == f;
    }
  }

  /** The visiting loop of `fetch_pois` / `fetch_water_points` over one list of features. */
  method VisitFeatures(features: seq<Feature>, add: (Tags, LatLon) -> Option<Row>) returns (rows: seq<Row>)
    ensures rows == CollectRows(features, add)
  {
    rows := [];
    var i := 0;
    while i < |features|
      invariant 0 <= i <= |features|
      invariant rows == CollectRows(features[..i], add)
    {
      var f := features[i];
      assert features[..i + 1][..i] == features[..i];
      if f.center.Some? {
        var r := add(f.tags, f.center.value);
        if r.Some? {
          rows := rows + [r.value];
        }
      }
      i := i + 1;
    }
    assert features[..i] == features;
  }

  // ---------------------------------------------------------------------------
  // Way geometry
  // ---------------------------------------------------------------------------

  /** `node_ll` after the loop over the nodes: a later node with the same id overwrites. */
  function NodeMap(nodes: seq<OsmNode>): (m: map<int, LatLon>)
    ensures forall id :: id in m <==> exists k :: 0 <= k < |nodes| && nodes[k].id == id
  {
    if nodes == [] then map[]
    else
      var init := nodes[..|nodes| - 1];
      var m := NodeMap(init)[nodes[|nodes| - 1].id := nodes[|nodes| - 1].pos];
      assert forall k :: 0 <= k < |init| ==> init[k] == nodes[k];
      m
  }

  /** The position kept for an id is that of its last node. */
  lemma NodeMapLastWins(nodes: seq<OsmNode>, k: nat)
    requires k < |nodes|
    requires forall k' :: k < k' < |nodes| ==> nodes[k'].id != nodes[k].id
    ensures NodeMap(nodes)[nodes[k].id] == nodes[k].pos
  {
    var n := |nodes|;
    if k < n - 1 {
      var init := nodes[..n - 1];
      NodeMapLastWins(init, k);
    }
  }

  method BuildNodeMap(nodes: seq<OsmNode>) returns (m: map<int, LatLon>)
    ensures m == NodeMap(nodes)
  {
    m := map[];
    var i := 0;
    while i < |nodes|
      invariant 0 <= i <= |nodes|
      invariant m == NodeMap(nodes[..i])
    {
      assert nodes[..i + 1][..i] == nodes[..i];
      m := m[nodes[i].id := nodes[i].pos];
      i := i + 1;
    }
    assert nodes[..i] == nodes;
  }

  /** The positions of the ids found in the map, in way order. */
  function Resolve(m: map<int, LatLon>, ids: seq<int>): (pts: seq<LatLon>)
    ensures |pts| <= |ids|
    ensures (forall k :: 0 <= k < |ids| ==> ids[k] in m) ==>
      |pts| == |ids| && forall k :: 0 <= k < |ids| ==> pts[k] == m[ids[k]]
  {
    if ids == [] then []
    else
      var pre := ids[..|ids| - 1];
      var init := Resolve(m, pre);
      var last := ids[|ids| - 1];
      assert forall k :: 0 <= k < |ids| - 1 ==> pre[k] == ids[k];
      if last in m then init + [m[last]] else init
  }

  /** Every resolved point is the position of some id of the way. */
  lemma {:induction false} ResolveFrom(m: map<int, LatLon>, ids: seq<int>)
    ensures forall p :: p in Resolve(m, ids) ==> exists id :: id in ids && id in m && p == m[id]
  {
    if ids != [] {
      var pre := ids[..|ids| - 1];
      ResolveFrom(m, pre);
      forall p | p in Resolve(m, ids) ensures exists id :: id in ids && id in m && p == m[id] {
        if p in Resolve(m, pre) {
          var id :| id in pre && id in m && p == m[id];
          assert id in ids;
        } else {
          assert p == m[ids[|ids| - 1]];
        }
      }
    }
  }

  /** Ids missing from the map are dropped without disturbing the rest. */
  lemma ResolveSkipsMissing(m: map<int, LatLon>, a: seq<int>, id: int, b: seq<int>)
    requires id !in m
    ensures Resolve(m, a + [id] + b) == Resolve(m, a + b)
    decreases |b|
  {
    if b == [] {
      assert (a + [id] + b)[..|a + [id] + b| - 1] == a;
      assert a + b == a;
    } else {
      var b' := b[..|b| - 1];
      assert (a + [id] + b)[..|a + [id] + b| - 1] == a + [id] + b';
      assert (a + b)[..|a + b| - 1] == a + b';
      ResolveSkipsMissing(m, a, id, b');
    }
  }

  /** `way_to_geom`: the resolved points, or None when fewer than two resolve. */
  method WayToGeom(m: map<int, LatLon>, ids: seq<int>) returns (geom: Option<seq<LatLon>>)
    ensures geom.Some? <==> |Resolve(m, ids)| >= 2
    ensures geom.Some? ==> geom.value == Resolve(m, ids)
  {
    var pts: seq<LatLon> := [];
    var i := 0;
    while i < |ids|
      invariant 0 <= i <= |ids|
      invariant pts == Resolve(m, ids[..i])
    {
      assert ids[..i + 1][..i] == ids[..i];
      if ids[i] in m {
        pts := pts + [m[ids[i]]];
      }
      i := i + 1;
    }
    assert ids[..i] == ids;
    geom := if |pts| >= 2 then Some(pts) else None;
  }

  function GeomOf(m: map<int, LatLon>, ids: seq<int>): Option<seq<LatLon>> {
    var pts := Resolve(m, ids);
    if |pts| >= 2 then Some(pts) else None
  }

  /** The row the water-line loop appends for one way, if its waterway kind is asked for. */
  function WaterLineRow(m: map<int, LatLon>, kinds: seq<string>, w: OsmWay): (r: Option<Row>)
    ensures r.Some? ==> r.value.kind == Some(NormTag(w.tags, "waterway")) && NormTag(w.tags, "waterway") in kinds
    ensures r.Some? ==> r.value.typ == "Body of water" && r.value.geometry.Some? && |r.value.geometry.value| >= 2
    ensures r.Some? <==> NormTag(w.tags, "waterway") in kinds && |Resolve(m, w.nodeIds)| >= 2
    ensures r.Some? ==> r.value.geometry == Some(Resolve(m, w.nodeIds)) && r.value.pos.None?
                        && r.value.name == CleanName(FirstNonEmpty(w.tags, ["name", "name:en"]))
  {
    var ww := NormTag(w.tags, "waterway");
    if ww !in kinds then None
    else match GeomOf(m, w.nodeIds)
      case None => None
      case Some(g) => Some(LineRow(CleanName(FirstNonEmpty(w.tags, ["name", "name:en"])), "Body of water", ww, g))
  }

  /** The row the coastline loop appends for one way, if it is a coastline. */
  function CoastlineRow(m: map<int, LatLon>, w: OsmWay): (r: Option<Row>)
    ensures r.Some? ==> r.value.name == "" && r.value.typ == "Coastline" && r.value.kind == Some("coastline")
    ensures r.Some? ==> r.value.geometry.Some? && |r.value.geometry.value| >= 2
    ensures r.Some? <==> NormTag(w.tags, "natural") == "coastline" && |Resolve(m, w.nodeIds)| >= 2
    ensures r.Some? ==> r.value.geometry == Some(Resolve(m, w.nodeIds)) && r.value.pos.None?
  {
    if NormTag(w.tags, "natural") != "coastline" then None
    else match GeomOf(m, w.nodeIds)
      case None => None
      case Some(g) => Some(LineRow("", "Coastline", "coastline", g))
  }

  function CollectWays(ways: seq<OsmWay>, row: OsmWay -> Option<Row>): (rows: seq<Row>)
    ensures |rows| <= |ways|
    ensures forall k :: 0 <= k < |rows| ==> exists i :: 0 <= i < |ways| && row(ways[i]) == Some(rows[k])
  {
    if ways == [] then []
    else
      var init := CollectWays(ways[..|ways| - 1], row);
      var w := ways[|ways| - 1];
      assert forall i :: 0 <= i < |ways| - 1 ==> ways[..|ways| - 1][i] == ways[i];
      if row(w).Some? then init + [row(w).value] else init
  }

  /** The loop over the ways of one line answer. */
  method VisitWays(ways: seq<OsmWay>, row: OsmWay -> Option<Row>) returns (rows: seq<Row>)
    ensures rows == CollectWays(ways, row)
  {
    rows := [];
    var i := 0;
    while i < |ways|
      invariant 0 <= i <= |ways|
      invariant rows == CollectWays(ways[..i], row)
    {
      assert ways[..i + 1][..i] == ways[..i];
      var r := row(ways[i]);
      if r.Some? {
        rows := rows + [r.value];
      }
      i := i + 1;
    }
    assert ways[..i] == ways;
  }
}
