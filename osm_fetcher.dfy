/**
 * osm_fetcher.py: the transit-stop fetch of the bounding-box screen. The two entry
 * texts become `config.bound_box`; one node query is tried on the shuffled mirrors and
 * the first answer is stored in `config.all_data`.
 */
module OsmFetcher {
  import opened Common
  import opened Text
  import opened Decimal
  import opened Tables
  import opened PoiUtils
  import opened OverpassRows
  import opened OverpassFetch
  import opened AppConfig

  /** `lat, lon = map(float, text.split(","))`: exactly two comma-separated numbers. */
  function ParsePoint(s: string): (r: Option<(Number, Number)>)
    ensures r.Some? <==> |SplitOn(s, ',')| == 2
                         && ParseNumber(SplitOn(s, ',')[0]).Some? && ParseNumber(SplitOn(s, ',')[1]).Some?
    ensures r.Some? ==> r.value == (ParseNumber(SplitOn(s, ',')[0]).value, ParseNumber(SplitOn(s, ',')[1]).value)
  {
    var parts := SplitOn(s, ',');
    if |parts| != 2 then None
    else
      match (ParseNumber(parts[0]), ParseNumber(parts[1]))
      case (Some(a), Some(b)) => Some((a, b))
      case _ => None
  }

  /** The box spanned by two corners: the smaller and larger latitude and longitude. */
  function SpanBox(p1: (Number, Number), p2: (Number, Number)): BBox
  {
    BBox(MinNum(p1.0, p2.0), MinNum(p1.1, p2.1), MaxNum(p1.0, p2.0), MaxNum(p1.1, p2.1))
  }

  /** The span is ordered and holds both corners, and each of its edges is one of the corners' coordinates. */
  lemma SpanBoxBounds(p1: (Number, Number), p2: (Number, Number))
    ensures Ordered(SpanBox(p1, p2))
    ensures var b := SpanBox(p1, p2);
      && LessEq(b.south, p1.0) && LessEq(b.south, p2.0) && LessEq(p1.0, b.north) && LessEq(p2.0, b.north)
      && LessEq(b.west, p1.1) && LessEq(b.west, p2.1) && LessEq(p1.1, b.east) && LessEq(p2.1, b.east)
    ensures var b := SpanBox(p1, p2);
      && (b.south == p1.0 || b.south == p2.0) && (b.north == p1.0 || b.north == p2.0)
      && (b.west == p1.1 || b.west == p2.1) && (b.east == p1.1 || b.east == p2.1)
  {
    MinMaxBounds(p1.0, p2.0);
    MinMaxBounds(p1.1, p2.1);
  }

  /** The box `_save_bounding_box` stores, or `None` where it returns False. */
  function SavedBox(entry1: string, entry2: string): (r: Option<BBox>)
    ensures r.Some? <==> ParsePoint(entry1).Some? && ParsePoint(entry2).Some?
  {
    match (ParsePoint(entry1), ParsePoint(entry2))
    case (Some(p1), Some(p2)) => Some(SpanBox(p1, p2))
    case _ => None
  }

  /** A stored box is always ordered. */
  lemma SavedBoxOrdered(entry1: string, entry2: string)
    ensures SavedBox(entry1, entry2).Some? ==> Ordered(SavedBox(entry1, entry2).value)
  {
    if SavedBox(entry1, entry2).Some? {
      SpanBoxBounds(ParsePoint(entry1).value, ParsePoint(entry2).value);
    }
  }

  /** Spanning is symmetric in the two corners, so the order of the entries does not matter. */
  lemma SavedBoxSymmetric(entry1: string, entry2: string)
    ensures SavedBox(entry1, entry2) == SavedBox(entry2, entry1)
  {
    match (ParsePoint(entry1), ParsePoint(entry2))
    case (Some(p1), Some(p2)) =>
      MinMaxSwap(p1.0, p2.0);
      MinMaxSwap(p1.1, p2.1);
    case _ =>
  }

  /** An ordered box is the span of its own south-west and north-east corners. */
  lemma SpanOfOrdered(b: BBox)
    requires Ordered(b)
    ensures SpanBox((b.south, b.west), (b.north, b.east)) == b
  {
    MinMaxOrdered(b.south, b.north);
    MinMaxOrdered(b.west, b.east);
  }

  /** `_save_bounding_box`. */
  method SaveBoundingBox(cfg: Config, entry1: string, entry2: string) returns (ok: bool)
    modifies cfg`boundBox
    ensures ok == SavedBox(entry1, entry2).Some?
    ensures ok ==> cfg.boundBox == SavedBox(entry1, entry2)
    ensures !ok ==> cfg.boundBox == old(cfg.boundBox)
  {
    var p1 := ParsePoint(entry1);
    var p2 := ParsePoint(entry2);
    if p1.None? || p2.None? {
      return false;
    }
    cfg.boundBox := Some(SpanBox(p1.value, p2.value));
    return true;
  }

  /** The node query over the stored box (layout whitespace dropped). */
  function NodeQuery(osmFilter: string, b: BBox): string {
    "node[" + osmFilter + "]" + BoxClause(b) + ";out;"
  }

  /** One stop per returned node: the `name` tag or "Unnamed", the type name, the position. */
  function StopRows(nodes: seq<PoiNode>, typeName: string): (rows: seq<Stop>)
    ensures |rows| == |nodes|
    ensures forall i :: 0 <= i < |nodes| ==>
      rows[i].typ == typeName && rows[i].pos == nodes[i].pos
      && rows[i].name == (if "name" in nodes[i].tags then nodes[i].tags["name"] else "Unnamed")
  {
    seq(|nodes|, i requires 0 <= i < |nodes| => Stop(Get(nodes[i].tags, "name").GetOr("Unnamed"), typeName, nodes[i].pos))
  }

  /** The attempts a single pass over `sched` makes: up to the first answer, or all of them. */
  function Attempts<T>(net: Oracle<T>, q: string, sched: seq<string>): (n: nat)
    ensures n <= |sched|
  {
    match FirstAnswer(net, q, sched, 0)
    case None => |sched|
    case Some(k) => k + 1
  }

  /** What `fetch_osm_data` returns, for a valid box: the rows of the first answer when
      there are any; `None` when every mirror raised or the first answer was empty. */
  function FetchResult(osmFilter: string, typeName: string, b: BBox, sched: seq<string>,
                       net: Oracle<seq<PoiNode>>): Option<seq<Stop>>
  {
    var q := NodeQuery(osmFilter, b);
    match FirstAnswer(net, q, sched, 0)
    case None => None
    case Some(k) =>
      var rows := StopRows(net(q, sched[k], k).value, typeName);
      if rows == [] then None else Some(rows)
  }

  /** Rows come back exactly when some mirror answered and the first answer held nodes,
      and they are that answer's nodes as stops, in order. */
  lemma FetchResultFacts(osmFilter: string, typeName: string, b: BBox, sched: seq<string>, net: Oracle<seq<PoiNode>>)
    ensures var r := FetchResult(osmFilter, typeName, b, sched, net);
      r.Some? <==> match FirstAnswer(net, NodeQuery(osmFilter, b), sched, 0)
        case None => false
        case Some(k) => net(NodeQuery(osmFilter, b), sched[k], k).value != []
    ensures var r := FetchResult(osmFilter, typeName, b, sched, net);
      r.Some? ==> var k := FirstAnswer(net, NodeQuery(osmFilter, b), sched, 0).value;
        r.value != [] && r.value == StopRows(net(NodeQuery(osmFilter, b), sched[k], k).value, typeName)
  {
  }

  /** The mirror loop of `fetch_osm_data` over a valid box, with the store update. */
  method FetchNodes(cfg: Config, osmFilter: string, typeName: string, b: BBox,
                    shuffled: seq<string>, net: Oracle<seq<PoiNode>>)
    returns (df: Option<seq<Stop>>, attempts: nat)
    modifies cfg`allData, cfg`dedupValid
    ensures df == FetchResult(osmFilter, typeName, b, shuffled, net)
    ensures attempts == Attempts(net, NodeQuery(osmFilter, b), shuffled)
    ensures df.Some? ==> cfg.allData == old(cfg.allData)[typeName := df] && !cfg.dedupValid
    ensures df.None? ==> cfg.allData == old(cfg.allData) && cfg.dedupValid == old(cfg.dedupValid)
  {
    var ans;
    ans, attempts := FirstSuccess(net, NodeQuery(osmFilter, b), shuffled);
    if ans.None? {
      return None, attempts;
    }
    var rows := StopRows(ans.value, typeName);
    if rows == [] {
      return None, attempts;
    }
    cfg.allData := cfg.allData[typeName := Some(rows)];
    cfg.dedupValid := false;
    df := Some(rows);
  }

  /** `fetch_osm_data`. `shuffled` is the copy of the mirror list after `random.shuffle`. */
  method FetchOsmData(cfg: Config, osmFilter: string, typeName: string, entry1: string, entry2: string,
                      shuffled: seq<string>, net: Oracle<seq<PoiNode>>)
    returns (df: Option<seq<Stop>>, attempts: nat)
    requires multiset(shuffled) == multiset(cfg.overpassMirrors)
    modifies cfg`boundBox, cfg`allData, cfg`dedupValid
    ensures cfg.boundBox == (if SavedBox(entry1, entry2).Some? then SavedBox(entry1, entry2) else old(cfg.boundBox))
    ensures SavedBox(entry1, entry2).None? ==> df.None? && attempts == 0
    ensures SavedBox(entry1, entry2).Some? ==>
      df == FetchResult(osmFilter, typeName, SavedBox(entry1, entry2).value, shuffled, net)
      && attempts == Attempts(net, NodeQuery(osmFilter, SavedBox(entry1, entry2).value), shuffled)
    ensures df.Some? ==> cfg.allData == old(cfg.allData)[typeName := df] && !cfg.dedupValid
    ensures df.None? ==> cfg.allData == old(cfg.allData) && cfg.dedupValid == old(cfg.dedupValid)
  {
    ghost var saved := SavedBox(entry1, entry2);
    var ok := SaveBoundingBox(cfg, entry1, entry2);
    if !ok {
      return None, 0;
    }
    var b := cfg.boundBox.value;
    assert saved == Some(b);
    df, attempts := FetchNodes(cfg, osmFilter, typeName, b, shuffled, net);
  }
}
