/**
 * The mirror loops of poi/overpass_fetch.py. The Overpass API is an oracle: asked a
 * query text at a mirror URL on the k-th attempt of a loop, it either answers or
 * raises. Which mirror order `random.shuffle` produced is an input.
 */
module OverpassFetch {
  import opened Common
  import opened Text
  import opened Tables
  import opened PoiUtils
  import opened PoiFilters
  import opened OverpassRows

  datatype Outcome<T> = Answer(value: T) | Raised(error: Failure)

  /** `api.query(q)` at mirror `url` on attempt `k` of one loop. */
  type Oracle<T> = (string, string, nat) -> Outcome<T>

  // ---------------------------------------------------------------------------
  // Query texts (layout whitespace dropped)
  // ---------------------------------------------------------------------------

  function FilterBlocks(filters: seq<string>, area: string): string
    decreases |filters|
  {
    if filters == [] then ""
    else
      var f := filters[0];
      "node[" + f + "]" + area + ";" + "way[" + f + "]" + area + ";" + "relation[" + f + "]" + area + ";"
      + FilterBlocks(filters[1..], area)
  }

  function PoiQuery(filters: seq<string>, area: string): string {
    "[out:json][timeout:50];(" + FilterBlocks(filters, area) + ");out center;"
  }

  /** The eight element selectors of the still-water query. */
  const WaterPointSelectors: seq<string> :=
    ["node[natural=water][name]", "way[natural=water][name]", "relation[natural=water][name]",
     "node[water~\"^(lake|pond|reservoir)$\"][name]", "way[water~\"^(lake|pond|reservoir)$\"][name]",
     "relation[water~\"^(lake|pond|reservoir)$\"][name]",
     "way[landuse=reservoir][name]", "relation[landuse=reservoir][name]"]

  /** Each selector restricted to the area, as one statement. */
  function SelectorBlocks(selectors: seq<string>, area: string): string
    decreases |selectors|
  {
    if selectors == [] then ""
    else selectors[0] + area + ";" + SelectorBlocks(selectors[1..], area)
  }

  function WaterPointsQuery(area: string): string {
    "[out:json][timeout:80][maxsize:1073741824];(" + SelectorBlocks(WaterPointSelectors, area) + ");out body center;"
  }

  function LinesQuery(kinds: seq<string>, area: string): string {
    "[out:json][timeout:80][maxsize:1073741824];(way[waterway~\"^(" + Join(kinds, "|") + ")$\"][name]"
    + area + ";);(._;>;);out body;"
  }

  function CoastlineQuery(area: string): string {
    "[out:json][timeout:80][maxsize:1073741824];(way[natural=coastline]" + area
    + ";relation[natural=coastline]" + area + ";);(._;>;);out body;"
  }

  // ---------------------------------------------------------------------------
  // Trying mirrors in order
  // ---------------------------------------------------------------------------

  /** The first attempt at or after `from` that answers. */
  function FirstAnswer<T>(net: Oracle<T>, q: string, sched: seq<string>, from: nat): (k: Option<nat>)
    requires from <= |sched|
    ensures k.Some? ==> from <= k.value < |sched| && net(q, sched[k.value], k.value).Answer?
    ensures k.Some? ==> forall j :: from <= j < k.value ==> net(q, sched[j], j).Raised?
    ensures k.None? <==> forall j :: from <= j < |sched| ==> net(q, sched[j], j).Raised?
    decreases |sched| - from
  {
    if from == |sched| then None
    else if net(q, sched[from], from).Answer? then Some(from)
    else FirstAnswer(net, q, sched, from + 1)
  }

  /** The single-pass loop of `fetch_pois`, `fetch_water_points` and
      `fetch_coastline_lines`: every exception moves on to the next mirror. */
  method FirstSuccess<T>(net: Oracle<T>, q: string, sched: seq<string>) returns (ans: Option<T>, attempts: nat)
    ensures attempts <= |sched|
    ensures match FirstAnswer(net, q, sched, 0)
      case Some(k) => attempts == k + 1 && ans == Some(net(q, sched[k], k).value)
      case None => attempts == |sched| && ans.None?
  {
    var i := 0;
    while i < |sched|
      invariant 0 <= i <= |sched|
      invariant FirstAnswer(net, q, sched, 0) == FirstAnswer(net, q, sched, i)
    {
      var o := net(q, sched[i], i);
      if o.Answer? {
        return Some(o.value), i + 1;
      }
      i := i + 1;
    }
    return None, i;
  }

  /** `overload_backoffs`, in tenths of a second. */
  const OverloadBackoffTenths: seq<nat> := [15, 30, 50]

  predicate OverloadedAt<T>(net: Oracle<T>, q: string, sched: seq<string>, j: nat)
    requires j < |sched|
  {
    net(q, sched[j], j).Raised? && Classify(net(q, sched[j], j).error) == Overloaded
  }

  /** The sleeps of the first `n` attempts: one per overload, the backoff index
      advancing after each and staying on the last entry. */
  function Sleeps<T>(net: Oracle<T>, q: string, sched: seq<string>, n: nat): (s: seq<nat>)
    requires n <= |sched|
    ensures |s| <= n
  {
    if n == 0 then []
    else
      var s := Sleeps(net, q, sched, n - 1);
      if OverloadedAt(net, q, sched, n - 1) then s + [OverloadBackoffTenths[Min(|s|, 2)]] else s
  }

  /** The i-th sleep is 1.5 s, 3.0 s, then 5.0 s for every later one. */
  lemma {:induction false} SleepsLadder<T>(net: Oracle<T>, q: string, sched: seq<string>, n: nat)
    requires n <= |sched|
    ensures var s := Sleeps(net, q, sched, n);
      forall i :: 0 <= i < |s| ==> s[i] == OverloadBackoffTenths[Min(i, 2)]
  {
    if n > 0 {
      SleepsLadder(net, q, sched, n - 1);
    }
  }

  /** No sleep without an overload, and every overload sleeps. */
  lemma {:induction false} SleepsOnOverloadOnly<T>(net: Oracle<T>, q: string, sched: seq<string>, n: nat)
    requires n <= |sched|
    ensures (forall j :: 0 <= j < n ==> !OverloadedAt(net, q, sched, j)) <==> Sleeps(net, q, sched, n) == []
  {
    if n > 0 {
      SleepsOnOverloadOnly(net, q, sched, n - 1);
    }
  }

  /** The two-round loop of `_fetch_lines_for_kinds` over `sched` (the mirrors twice). */
  method FirstSuccessWithBackoff<T>(net: Oracle<T>, q: string, sched: seq<string>)
    returns (ans: Option<T>, attempts: nat, sleeps: seq<nat>)
    ensures attempts <= |sched|
    ensures match FirstAnswer(net, q, sched, 0)
      case Some(k) => attempts == k + 1 && ans == Some(net(q, sched[k], k).value)
      case None => attempts == |sched| && ans.None?
    ensures sleeps == Sleeps(net, q, sched, attempts)
  {
    var backoff := 0;
    sleeps := [];
    var i := 0;
    while i < |sched|
      invariant 0 <= i <= |sched|
      invariant FirstAnswer(net, q, sched, 0) == FirstAnswer(net, q, sched, i)
      invariant sleeps == Sleeps(net, q, sched, i) && backoff == |sleeps|
    {
      var o := net(q, sched[i], i);
      if o.Answer? {
        return Some(o.value), i + 1, sleeps;
      }
      var c := Classify(o.error);
      if c == Overloaded {
        sleeps := sleeps + [OverloadBackoffTenths[Min(backoff, |OverloadBackoffTenths| - 1)]];
        backoff := backoff + 1;
      }
      i := i + 1;
    }
    return None, i, sleeps;
  }

  /** In `mirrors + mirrors` attempt k goes to mirror k mod the mirror count. */
  lemma TwoRounds(mirrors: seq<string>, k: nat)
    requires k < 2 * |mirrors|
    ensures (mirrors + mirrors)[k] == mirrors[k % |mirrors|]
  {
    if k >= |mirrors| {
      assert k % |mirrors| == k - |mirrors|;
    }
  }

  // ---------------------------------------------------------------------------
  // What each fetch returns
  // ---------------------------------------------------------------------------

  function NonEmpty(rows: seq<Row>): (r: Option<seq<Row>>)
    ensures r.Some? <==> rows != []
  {
    if rows == [] then None else Some(rows)
  }

  function PoiAdder(typeKey: string, typeName: string): (Tags, LatLon) -> Option<Row> {
    (tags, pos) => MaybeAdd(typeKey, typeName, tags, Get(tags, "name"), pos)
  }

  function PoiRows(typeKey: string, typeName: string, a: PoiAnswer): seq<Row> {
    CollectRows(Features(a), PoiAdder(typeKey, typeName))
  }

  function WaterPointRows(a: PoiAnswer): seq<Row> {
    CollectRows(Features(a), AddPoint)
  }

  function LineRows(kinds: seq<string>, a: LineAnswer): seq<Row> {
    CollectWays(a.ways, (w: OsmWay) => WaterLineRow(NodeMap(a.nodes), kinds, w))
  }

  function CoastRows(a: LineAnswer): seq<Row> {
    CollectWays(a.ways, (w: OsmWay) => CoastlineRow(NodeMap(a.nodes), w))
  }

  /** The generic POI fetch before the hospital merge: the first answer's rows, None
      when every mirror failed or nothing named was kept. */
  function GenericResult(typeKey: string, typeName: string, filters: seq<string>, area: string,
                         mirrors: seq<string>, net: Oracle<PoiAnswer>): Option<seq<Row>> {
    var q := PoiQuery(filters, area);
    match FirstAnswer(net, q, mirrors, 0)
    case None => None
    case Some(k) => NonEmpty(PoiRows(typeKey, typeName, net(q, mirrors[k], k).value))
  }

  function WaterPointsResult(area: string, mirrors: seq<string>, net: Oracle<PoiAnswer>): Option<seq<Row>> {
    var q := WaterPointsQuery(area);
    match FirstAnswer(net, q, mirrors, 0)
    case None => None
    case Some(k) => NonEmpty(WaterPointRows(net(q, mirrors[k], k).value))
  }

  /** `_fetch_lines_for_kinds`: an answer counts as success even with no rows. */
  function LinesResult(kinds: seq<string>, area: string, mirrors: seq<string>, net: Oracle<LineAnswer>): Option<seq<Row>> {
    var q := LinesQuery(kinds, area);
    var sched := mirrors + mirrors;
    match FirstAnswer(net, q, sched, 0)
    case None => None
    case Some(k) => Some(LineRows(kinds, net(q, sched[k], k).value))
  }

  function CoastlineResult(area: string, mirrors: seq<string>, net: Oracle<LineAnswer>): Option<seq<Row>> {
    var q := CoastlineQuery(area);
    match FirstAnswer(net, q, mirrors, 0)
    case None => None
    case Some(k) => NonEmpty(CoastRows(net(q, mirrors[k], k).value))
  }

  function StripNames(t: seq<Row>): (r: seq<Row>)
    ensures |r| == |t|
    ensures forall k :: 0 <= k < |t| ==> r[k] == t[k].(name := Strip(t[k].name))
  {
    seq(|t|, k requires 0 <= k < |t| => t[k].(name := Strip(t[k].name)))
  }

  /** Stripping names that are already stripped changes nothing. */
  lemma StripNamesIdentity(t: seq<Row>)
    requires forall k :: 0 <= k < |t| ==> Stripped(t[k].name)
    ensures StripNames(t) == t
  {
    forall k | 0 <= k < |t| ensures StripNames(t)[k] == t[k] {
      StripOfStripped(t[k].name);
    }
  }

  /** The stage rules of `fetch_water_lines`. */
  function CombineWaterLines(stage1: Option<seq<Row>>, stage2: Option<seq<Row>>): (r: Option<seq<Row>>)
    ensures stage1.None? || stage1.value == [] ==> r.None?
    ensures stage1.Some? && stage1.value != [] && stage2.None? ==> r == stage1
    ensures stage1.Some? && stage1.value != [] && stage2.Some? ==> r == Some(StripNames(stage1.value + stage2.value))
    ensures r.Some? ==> r.value != []
  {
    if stage1.None? || stage1.value == [] then None
    else if stage2.None? then stage1
    else Some(StripNames(stage1.value + stage2.value))
  }

  /** The kinds of stage 1 and stage 2 of `fetch_water_lines`. */
  const RiverCanal: seq<string> := ["river", "canal"]
  const Streams: seq<string> := ["stream"]

  function WaterLinesResult(area: string, mirrors: seq<string>, net: Oracle<LineAnswer>): Option<seq<Row>> {
    CombineWaterLines(LinesResult(RiverCanal, area, mirrors, net), LinesResult(Streams, area, mirrors, net))
  }

  /** `fetch_body_of_water`: points first, then lines; either part may be missing. */
  function CombineBodyOfWater(points: Option<seq<Row>>, lines: Option<seq<Row>>): (r: Option<seq<Row>>)
    ensures r.None? <==> points.GetOr([]) == [] && lines.None?
    ensures r.Some? ==> r.value == points.GetOr([]) + lines.GetOr([])
  {
    var pts := points.GetOr([]);
    if lines.None? then (if pts != [] then Some(pts) else None)
    else if pts == [] then lines
    else Some(pts + lines.value)
  }

  // ---------------------------------------------------------------------------
  // Properties of the results
  // ---------------------------------------------------------------------------

  lemma {:induction false} LineRowsStripped(kinds: seq<string>, a: LineAnswer)
    ensures forall k :: 0 <= k < |LineRows(kinds, a)| ==>
      Stripped(LineRows(kinds, a)[k].name) && LineRows(kinds, a)[k].kind.Some? && LineRows(kinds, a)[k].kind.value in kinds
  {
    var row := (w: OsmWay) => WaterLineRow(NodeMap(a.nodes), kinds, w);
    forall k | 0 <= k < |LineRows(kinds, a)|
      ensures Stripped(LineRows(kinds, a)[k].name)
      ensures LineRows(kinds, a)[k].kind.Some? && LineRows(kinds, a)[k].kind.value in kinds
    {
      var i :| 0 <= i < |a.ways| && row(a.ways[i]) == Some(LineRows(kinds, a)[k]);
    }
  }

  predicate KindsAmong(t: seq<Row>, kinds: seq<string>) {
    forall k :: 0 <= k < |t| ==> t[k].kind.Some? && t[k].kind.value in kinds
  }

  predicate NamesStripped(t: seq<Row>) {
    forall k :: 0 <= k < |t| ==> Stripped(t[k].name)
  }

  /** A line stage yields rows of the asked kinds with cleaned names. */
  lemma LinesResultRows(kinds: seq<string>, area: string, mirrors: seq<string>, net: Oracle<LineAnswer>)
    ensures var r := LinesResult(kinds, area, mirrors, net);
      r.Some? ==> NamesStripped(r.value) && KindsAmong(r.value, kinds)
  {
    var q := LinesQuery(kinds, area);
    var sched := mirrors + mirrors;
    match FirstAnswer(net, q, sched, 0) {
      case None =>
      case Some(k) => LineRowsStripped(kinds, net(q, sched[k], k).value);
    }
  }

  /** On stages whose names are already clean, combining is concatenation. */
  lemma CombineConcatenates(s1: Option<seq<Row>>, s2: Option<seq<Row>>, k1: seq<string>, k2: seq<string>)
    requires s1.Some? ==> NamesStripped(s1.value) && KindsAmong(s1.value, k1)
    requires s2.Some? ==> NamesStripped(s2.value) && KindsAmong(s2.value, k2)
    ensures var r := CombineWaterLines(s1, s2);
      (r.None? <==> s1.None? || s1.value == [])
      && (r.Some? ==> r.value == s1.value + s2.GetOr([]))
      && (r.Some? ==> KindsAmong(r.value[..|s1.value|], k1) && KindsAmong(r.value[|s1.value|..], k2))
  {
    if s1.Some? && s1.value != [] {
      var t := s1.value + s2.GetOr([]);
      assert NamesStripped(t) by {
        forall k | 0 <= k < |t| ensures Stripped(t[k].name) {
          if k < |s1.value| { assert t[k] == s1.value[k]; } else { assert t[k] == s2.value[k - |s1.value|]; }
        }
      }
      if s2.Some? {
        StripNamesIdentity(t);
      }
      assert t[..|s1.value|] == s1.value;
      assert t[|s1.value|..] == s2.GetOr([]);
    }
  }

  /** The final name strip of `fetch_water_lines` is the identity, since the rows' names
      came out of `clean_name`: the result is stage 1 (rivers and canals) followed by
      stage 2 (streams) when that stage answered. */
  lemma WaterLinesConcatenate(area: string, mirrors: seq<string>, net: Oracle<LineAnswer>)
    ensures var s1 := LinesResult(RiverCanal, area, mirrors, net);
      var s2 := LinesResult(Streams, area, mirrors, net);
      var r := WaterLinesResult(area, mirrors, net);
      (r.None? <==> s1.None? || s1.value == [])
      && (r.Some? ==> r.value == s1.value + s2.GetOr([]))
      && (r.Some? ==> KindsAmong(r.value[..|s1.value|], RiverCanal) && KindsAmong(r.value[|s1.value|..], Streams))
  {
    LinesResultRows(RiverCanal, area, mirrors, net);
    LinesResultRows(Streams, area, mirrors, net);
    CombineConcatenates(LinesResult(RiverCanal, area, mirrors, net), LinesResult(Streams, area, mirrors, net),
                        RiverCanal, Streams);
  }

  /** Every row a named-POI fetch keeps passes the name filter. */
  lemma {:induction false} PoiRowsNamed(typeKey: string, typeName: string, a: PoiAnswer)
    ensures forall k :: 0 <= k < |PoiRows(typeKey, typeName, a)| ==> NamedRow(PoiRows(typeKey, typeName, a)[k])
  {
    forall k | 0 <= k < |PoiRows(typeKey, typeName, a)| ensures NamedRow(PoiRows(typeKey, typeName, a)[k]) {
      CollectRowsFrom(Features(a), PoiAdder(typeKey, typeName), k);
    }
  }

  /** The merge's working copy keeps every row's name. */
  lemma RankedWorkNames(df: seq<Row>)
    requires forall k :: 0 <= k < |df| ==> NamedRow(df[k])
    ensures forall k :: 0 <= k < |RankedWork(df)| ==> NamedRow(RankedWork(df)[k])
  {
    var filled := BedsFilled(df);
    var w := RankedWork(df);
    forall k | 0 <= k < |w| ensures NamedRow(w[k]) {
      assert w[k] in multiset(w);
      assert w[k] in multiset(filled);
      assert w[k] in filled;
      var i :| 0 <= i < |filled| && filled[i] == w[k];
      assert w[k].name == df[i].name;
    }
  }

  // ---------------------------------------------------------------------------
  // The fetch methods
  // ---------------------------------------------------------------------------

  method VisitAnswer(a: PoiAnswer, add: (Tags, LatLon) -> Option<Row>) returns (rows: seq<Row>)
    ensures rows == CollectRows(Features(a), add)
  {
    var nodeFeatures := NodeFeatures(a.nodes);
    var r1 := VisitFeatures(nodeFeatures, add);
    var r2 := VisitFeatures(a.ways, add);
    var r3 := VisitFeatures(a.relations, add);
    rows := r1 + r2 + r3;
    CollectRowsAppend(nodeFeatures, a.ways, add);
    CollectRowsAppend(nodeFeatures + a.ways, a.relations, add);
  }

  method FetchGeneric(typeKey: string, typeName: string, filters: seq<string>, area: string,
                      mirrors: seq<string>, net: Oracle<PoiAnswer>)
    returns (rows: Option<seq<Row>>, attempts: nat)
    ensures rows == GenericResult(typeKey, typeName, filters, area, mirrors, net)
    ensures attempts <= |mirrors|
  {
    var ans;
    ans, attempts := FirstSuccess(net, PoiQuery(filters, area), mirrors);
    if ans.None? {
      return None, attempts;
    }
    var collected := VisitAnswer(ans.value, PoiAdder(typeKey, typeName));
    rows := if collected == [] then None else Some(collected);
  }

  method FetchWaterPoints(area: string, mirrors: seq<string>, net: Oracle<PoiAnswer>)
    returns (rows: Option<seq<Row>>, attempts: nat)
    ensures rows == WaterPointsResult(area, mirrors, net)
    ensures attempts <= |mirrors|
  {
    var ans;
    ans, attempts := FirstSuccess(net, WaterPointsQuery(area), mirrors);
    if ans.None? {
      return None, attempts;
    }
    var collected := VisitAnswer(ans.value, AddPoint);
    rows := if collected == [] then None else Some(collected);
  }

  method FetchLinesForKinds(kinds: seq<string>, area: string, mirrors: seq<string>, net: Oracle<LineAnswer>)
    returns (rows: Option<seq<Row>>, attempts: nat, sleeps: seq<nat>)
    ensures rows == LinesResult(kinds, area, mirrors, net)
    ensures attempts <= 2 * |mirrors|
    ensures sleeps == Sleeps(net, LinesQuery(kinds, area), mirrors + mirrors, attempts)
  {
    var ans;
    ans, attempts, sleeps := FirstSuccessWithBackoff(net, LinesQuery(kinds, area), mirrors + mirrors);
    if ans.None? {
      return None, attempts, sleeps;
    }
    var a := ans.value;
    var m := BuildNodeMap(a.nodes);
    var collected := VisitWays(a.ways, (w: OsmWay) => WaterLineRow(m, kinds, w));
    rows := Some(collected);
  }

  method FetchWaterLines(area: string, mirrors: seq<string>, net: Oracle<LineAnswer>)
    returns (rows: Option<seq<Row>>, streamAttempts: nat)
    ensures rows == WaterLinesResult(area, mirrors, net)
    ensures var s1 := LinesResult(RiverCanal, area, mirrors, net);
      s1.None? || s1.value == [] ==> streamAttempts == 0
  {
    var stage1, a1, z1 := FetchLinesForKinds(RiverCanal, area, mirrors, net);
    if stage1.None? || stage1.value == [] {
      return None, 0;
    }
    var stage2, a2, z2 := FetchLinesForKinds(Streams, area, mirrors, net);
    streamAttempts := a2;
    if stage2.None? {
      return stage1, streamAttempts;
    }
    rows := Some(StripNames(stage1.value + stage2.value));
  }

  method FetchBodyOfWater(area: string, mirrors: seq<string>, netPoints: Oracle<PoiAnswer>, netLines: Oracle<LineAnswer>)
    returns (rows: Option<seq<Row>>)
    ensures rows == CombineBodyOfWater(WaterPointsResult(area, mirrors, netPoints), WaterLinesResult(area, mirrors, netLines))
  {
    var points, a1 := FetchWaterPoints(area, mirrors, netPoints);
    var lines, a2 := FetchWaterLines(area, mirrors, netLines);
    var pts := if points.None? then [] else points.value;
    if lines.None? {
      return if pts != [] then Some(pts) else None;
    }
    if pts == [] {
      return lines;
    }
    return Some(pts + lines.value);
  }

  method FetchCoastline(area: string, mirrors: seq<string>, net: Oracle<LineAnswer>)
    returns (rows: Option<seq<Row>>, attempts: nat)
    ensures rows == CoastlineResult(area, mirrors, net)
    ensures attempts <= |mirrors|
  {
    var ans;
    ans, attempts := FirstSuccess(net, CoastlineQuery(area), mirrors);
    if ans.None? {
      return None, attempts;
    }
    var a := ans.value;
    var m := BuildNodeMap(a.nodes);
    var collected := VisitWays(a.ways, (w: OsmWay) => CoastlineRow(m, w));
    rows := if collected == [] then None else Some(collected);
  }

  /** The hospital merge radius `fetch_pois` uses, in metres. */
  const HospitalMergeRadius: real := 500.0

  /** `fetch_pois`. The area comes from the polygon or the stored boxes; `shuffled`
      is the mirror list after `random.shuffle`. */
  method FetchPois(filters: seq<string>, typeName: string,
                   poly: Option<string>, boundBox: Option<BBox>, savedBoundBox: Option<BBox>,
                   mirrors: seq<string>, shuffled: seq<string>,
                   netPoi: Oracle<PoiAnswer>, netLines: Oracle<LineAnswer>, dist: Distance)
    returns (out: Option<seq<Row>>)
    requires multiset(shuffled) == multiset(mirrors)
    ensures AreaClause(poly, boundBox, savedBoundBox).None? || mirrors == [] ==> out.None?
    ensures AreaClause(poly, boundBox, savedBoundBox).Some? && mirrors != [] ==>
      var area := AreaClause(poly, boundBox, savedBoundBox).value;
      var key := TypeKey(typeName);
      match RouteFor(key, filters)
      case WaterRoute =>
        out == CombineBodyOfWater(WaterPointsResult(area, shuffled, netPoi), WaterLinesResult(area, shuffled, netLines))
      case CoastlineRoute =>
        out == CoastlineResult(area, shuffled, netLines)
      case GenericRoute =>
        GenericOutcome(key, GenericResult(key, typeName, filters, area, shuffled, netPoi), out, dist)
  {
    var clause := AreaClause(poly, boundBox, savedBoundBox);
    if clause.None? || mirrors == [] {
      return None;
    }
    var key := TypeKey(typeName);
    out := FetchArea(RouteFor(key, filters), clause.value, key, typeName, filters, shuffled, netPoi, netLines, dist);
  }

  /** `fetch_pois` once the area clause, the type key and its route are known. */
  method FetchArea(route: Route, area: string, key: string, typeName: string, filters: seq<string>, shuffled: seq<string>,
                   netPoi: Oracle<PoiAnswer>, netLines: Oracle<LineAnswer>, dist: Distance)
    returns (out: Option<seq<Row>>)
    ensures match route
      case WaterRoute =>
        out == CombineBodyOfWater(WaterPointsResult(area, shuffled, netPoi), WaterLinesResult(area, shuffled, netLines))
      case CoastlineRoute =>
        out == CoastlineResult(area, shuffled, netLines)
      case GenericRoute =>
        GenericOutcome(key, GenericResult(key, typeName, filters, area, shuffled, netPoi), out, dist)
  {
    if route == WaterRoute {
      out := FetchBodyOfWater(area, shuffled, netPoi, netLines);
    } else if route == CoastlineRoute {
      var attempts;
      out, attempts := FetchCoastline(area, shuffled, netLines);
    } else {
      out := FetchGenericRoute(key, typeName, filters, area, shuffled, netPoi, dist);
    }
  }

  /** Every row of a generic answer is named. */
  lemma GenericResultNamed(typeKey: string, typeName: string, filters: seq<string>, area: string,
                           mirrors: seq<string>, net: Oracle<PoiAnswer>)
    ensures var g := GenericResult(typeKey, typeName, filters, area, mirrors, net);
      g.Some? ==> forall k :: 0 <= k < |g.value| ==> NamedRow(g.value[k])
  {
    var q := PoiQuery(filters, area);
    var first := FirstAnswer(net, q, mirrors, 0);
    if first.Some? {
      PoiRowsNamed(typeKey, typeName, net(q, mirrors[first.value], first.value).value);
    }
  }

  /** The generic branch of `fetch_pois`: the rows of the first answer, merged when the
      type is hospital, then the name filter. */
  method FetchGenericRoute(key: string, typeName: string, filters: seq<string>, area: string,
                           shuffled: seq<string>, netPoi: Oracle<PoiAnswer>, dist: Distance)
    returns (out: Option<seq<Row>>)
    ensures GenericOutcome(key, GenericResult(key, typeName, filters, area, shuffled, netPoi), out, dist)
  {
    var rows, attempts := FetchGeneric(key, typeName, filters, area, shuffled, netPoi);
    GenericResultNamed(key, typeName, filters, area, shuffled, netPoi);
    if rows.Some? && key == "hospital" {
      var merged := MergeHospitals(rows.value, dist);
      out := Some(merged);
    } else if rows.Some? {
      KeepNamedIdentity(rows.value);
      out := Some(KeepNamed(rows.value));
    } else {
      out := None;
    }
  }

  /** What the generic branch gives for the rows `g` of the first answer: a result exactly
      when there are rows; the rows themselves for any type but hospital; for hospitals,
      the rows merged as `HospitalsMerged` states. */
  ghost predicate GenericOutcome(key: string, g: Option<seq<Row>>, out: Option<seq<Row>>, dist: Distance) {
    (out.Some? <==> g.Some?)
    && (key != "hospital" ==> out == g)
    && (key == "hospital" && g.Some? ==> HospitalsMerged(RankedWork(g.value), out.value, HospitalMergeRadius, dist))
  }

  /** The hospital merge followed by the name filter, on a table of named rows. */
  method MergeHospitals(rows: seq<Row>, dist: Distance) returns (out: seq<Row>)
    requires rows != []
    requires forall k :: 0 <= k < |rows| ==> NamedRow(rows[k])
    ensures HospitalsMerged(RankedWork(rows), out, HospitalMergeRadius, dist)
  {
    var merged, kept := MergeNearbyHospitals(Some(rows), HospitalMergeRadius, dist);
    RankedWorkNames(rows);
    MergedIsHospitalsMerged(RankedWork(rows), merged.value, kept, HospitalMergeRadius, dist);
    KeepNamedIdentity(merged.value);
    out := KeepNamed(merged.value);
  }

  /** The merge as an index selection: `out` is the ranked table `work` at the strictly
      increasing indices `kept`, in order; the first row is kept; no two kept rows are
      within the radius; and every dropped row lies within the radius of an earlier kept one. */
  ghost predicate MergeSelection(work: seq<Row>, out: seq<Row>, kept: seq<nat>, radius: real, dist: Distance) {
    StrictlyIncreasing(kept, |work|) && |out| == |kept|
    && (forall m :: 0 <= m < |kept| ==> out[m] == work[kept[m]])
    && kept != [] && kept[0] == 0
    && (forall m, m' :: 0 <= m < m' < |kept| ==> !Near(work[kept[m]].pos, work[kept[m']].pos, radius, dist))
    && (forall j :: 0 <= j < |work| && j !in kept ==>
          exists m :: 0 <= m < |kept| && kept[m] < j && Near(work[kept[m]].pos, work[j].pos, radius, dist))
  }

  /** What the hospital merge guarantees about its output: it is an index selection of the
      ranked table as above, and, stated on the rows alone, every kept row comes from the
      table, no two kept rows are within the radius, every row of the table is kept or lies
      within the radius of a kept one, and every kept row is named. */
  ghost predicate HospitalsMerged(work: seq<Row>, out: seq<Row>, radius: real, dist: Distance) {
    (exists kept :: MergeSelection(work, out, kept, radius, dist))
    && (forall m :: 0 <= m < |out| ==> out[m] in work)
    && (forall m, m' :: 0 <= m < m' < |out| ==> !Near(out[m].pos, out[m'].pos, radius, dist))
    && (forall j :: 0 <= j < |work| ==>
          work[j] in out || exists m :: 0 <= m < |out| && Near(out[m].pos, work[j].pos, radius, dist))
    && (forall m :: 0 <= m < |out| ==> NamedRow(out[m]))
  }

  lemma MergedIsHospitalsMerged(work: seq<Row>, out: seq<Row>, kept: seq<nat>, radius: real, dist: Distance)
    requires MergeSelection(work, out, kept, radius, dist)
    requires forall k :: 0 <= k < |work| ==> NamedRow(work[k])
    ensures HospitalsMerged(work, out, radius, dist)
  {
    forall j | 0 <= j < |work|
      ensures work[j] in out || exists m :: 0 <= m < |out| && Near(out[m].pos, work[j].pos, radius, dist)
    {
      if j in kept {
        var m :| 0 <= m < |kept| && kept[m] == j;
        assert out[m] == work[j];
      } else {
        var m :| 0 <= m < |kept| && kept[m] < j && Near(work[kept[m]].pos, work[j].pos, radius, dist);
        assert out[m] == work[kept[m]];
      }
    }
  }
}
