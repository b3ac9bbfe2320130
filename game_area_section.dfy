/**
 * screens/shared/game_area_section.py: the fetch, dedup and export controls shared by
 * the game-area screens. Without entry fields of its own, the section hands
 * `fetch_osm_data` two proxies that print the stored `config.bound_box` back as text.
 */
module GameAreaSection {
  import opened Common
  import opened Text
  import opened Decimal
  import opened Tables
  import opened PoiUtils
  import opened OverpassRows
  import opened OverpassFetch
  import opened AppConfig
  import opened Dedup
  import opened OsmFetcher
  import opened MapCanvas
  import opened MapMarkers
  import opened HidingZones

  /** `_EntryProxy(which).get()`: "" without a box, the south-west corner for 1 and the
      north-east corner for anything else. */
  function EntryText(bb: Option<BBox>, which: int): (r: string)
    ensures bb.None? ==> r == ""
    ensures bb.Some? && which == 1 ==> ParsePoint(r) == Some((bb.value.south, bb.value.west))
    ensures bb.Some? && which != 1 ==> ParsePoint(r) == Some((bb.value.north, bb.value.east))
  {
    match bb
    case None => ""
    case Some(b) =>
      if which == 1 then
        ParsePointOfCorner(b.south, b.west);
        Format(b.south) + ", " + Format(b.west)
      else
        ParsePointOfCorner(b.north, b.east);
        Format(b.north) + ", " + Format(b.east)
  }

  /** A corner's two texts on either side of ", " split into the two fields. */
  lemma CornerSplit(x: string, y: string)
    requires ',' !in x && ',' !in y
    ensures SplitOn(x + ", " + y, ',') == [x, " " + y]
  {
    assert x + ", " + y == x + [','] + (" " + y);
    SplitOnFirst(x, ',', " " + y);
    SplitOnAbsent(" " + y, ',');
  }

  /** A formatted number has no blank at either end. */
  lemma FormatStripped(n: Number)
    ensures Stripped(Format(n))
  {
    FormatAlphabet(n, 0);
    FormatAlphabet(n, |Format(n)| - 1);
  }

  /** The second field keeps the blank after the comma; `float` ignores it. */
  lemma ParseSpacedText(f: string)
    requires Stripped(f) && f != []
    ensures ParseNumber(" " + f) == ParseNumber(f)
  {
    ParseNumberStrip(" " + f);
    StripSpacePrefix(" ", f);
    ParseNumberStrip(f);
    StripOfStripped(f);
  }

  lemma ParseSpaced(c: Number)
    ensures ParseNumber(" " + Format(c)) == Some(c)
  {
    FormatStripped(c);
    FormatEnds(c);
    ParseSpacedText(Format(c));
    ParseFormat(c);
  }

  /** A printed corner reads back as the corner. */
  lemma ParsePointOfCorner(a: Number, c: Number)
    ensures ParsePoint(Format(a) + ", " + Format(c)) == Some((a, c))
  {
    FormatEnds(a);
    FormatEnds(c);
    CornerSplit(Format(a), Format(c));
    ParseFormat(a);
    ParseSpaced(c);
  }

  /** Saving the two proxy texts stores the same (ordered) box again. */
  lemma ProxyRoundTrip(b: BBox)
    requires Ordered(b)
    ensures SavedBox(EntryText(Some(b), 1), EntryText(Some(b), 2)) == Some(b)
  {
    assert ParsePoint(EntryText(Some(b), 1)) == Some((b.south, b.west)) by {
      ParsePointOfCorner(b.south, b.west);
    }
    assert ParsePoint(EntryText(Some(b), 2)) == Some((b.north, b.east)) by {
      ParsePointOfCorner(b.north, b.east);
    }
    SpanOfOrdered(b);
  }

  /** Without a box the proxies are empty and nothing is saved. */
  lemma ProxyWithoutBox(which1: int, which2: int)
    ensures SavedBox(EntryText(None, which1), EntryText(None, which2)) == None
  {
    SplitOnAbsent("", ',');
  }

  /** Whatever the stored box, saving the proxy texts stores it again. */
  lemma ProxySaved(bb: Option<BBox>)
    requires bb.Some? ==> Ordered(bb.value)
    ensures SavedBox(EntryText(bb, 1), EntryText(bb, 2)) == bb
  {
    if bb.Some? {
      ProxyRoundTrip(bb.value);
    } else {
      ProxyWithoutBox(1, 2);
    }
  }

  /** The number of markers `plot_points` makes by default. */
  const PlotLimit: int := 500

  /** Stops in the four categories, over the tables present. */
  function StopsCount(allData: map<string, Option<seq<Stop>>>): (r: nat)
    ensures forall c :: c in Categories ==> |TableOf(allData, c)| <= r
    ensures r == 0 <==> forall c :: c in Categories ==> TableOf(allData, c) == []
  {
    |TableOf(allData, "Train")| + |TableOf(allData, "Subway")| + |TableOf(allData, "Tram")| + |TableOf(allData, "Bus")|
  }

  /** The stop count is the number of stops the hiding zones are made for, so there are
      never more zones than stops. */
  lemma StopsCountIsStopsUpTo(allData: map<string, Option<seq<Stop>>>)
    ensures StopsCount(allData) == |StopsUpTo(allData, |Categories|)|
  {
    assert StopsUpTo(allData, 1) == TableOf(allData, "Train");
    assert StopsUpTo(allData, 2) == StopsUpTo(allData, 1) + TableOf(allData, "Subway");
    assert StopsUpTo(allData, 3) == StopsUpTo(allData, 2) + TableOf(allData, "Tram");
    assert StopsUpTo(allData, 4) == StopsUpTo(allData, 3) + TableOf(allData, "Bus");
  }

  /** There are never more hiding zones than stops. */
  lemma StopsCountBoundsZones(w: BoundaryDraw.Widget, geo: CircleGeo, allData: map<string, Option<seq<Stop>>>,
                              s: ZoneSettings, entries: seq<string>, dist: Distance)
    ensures |CreatedZones(w, geo, allData, s, entries, dist)| <= StopsCount(allData)
  {
    CreatedZonesBounds(w, geo, allData, s, entries, dist);
    StopsCountIsStopsUpTo(allData);
  }

  /** Redrawing one type from its table: `plot_points` for a non-empty table,
      `clear_markers` otherwise. */
  method Redraw(store: MarkerStore, t: string, df: Option<seq<Stop>>)
    requires store.Valid()
    modifies store`markersByType, store.canvas
    ensures store.Valid()
    ensures store.markersByType
      == old(store.markersByType)[t := Handles(old(store.canvas.nextId), PlotCount(|RowsOf(df)|, PlotLimit))]
    ensures store.canvas.objects
      == Placed(RemoveAll(old(store.canvas.objects), old(store.MarkersOf(t))), old(store.canvas.nextId),
                RowsOf(df), store.IconOf(t), PlotCount(|RowsOf(df)|, PlotLimit))
    ensures store.canvas.nextId == old(store.canvas.nextId) + PlotCount(|RowsOf(df)|, PlotLimit)
  {
    if df.Some? && df.value != [] {
      store.PlotPoints(t, df, PlotLimit);
    } else {
      store.ClearMarkers(t);
      assert PlotCount(|RowsOf(df)|, PlotLimit) == 0;
    }
  }

  /** The `success` handler of a fetch: the result is stored whatever it is, and the
      type's markers are redrawn from it. */
  method FetchSuccess(cfg: Config, store: MarkerStore, typeName: string, df: Option<seq<Stop>>)
    requires store.Valid()
    modifies cfg`allData, store`markersByType, store.canvas
    ensures store.Valid()
    ensures cfg.allData == old(cfg.allData)[typeName := df]
    ensures store.markersByType
      == old(store.markersByType)[typeName := Handles(old(store.canvas.nextId), PlotCount(|RowsOf(df)|, PlotLimit))]
    ensures store.canvas.objects
      == Placed(RemoveAll(old(store.canvas.objects), old(store.MarkersOf(typeName))), old(store.canvas.nextId),
                RowsOf(df), store.IconOf(typeName), PlotCount(|RowsOf(df)|, PlotLimit))
    ensures store.canvas.nextId == old(store.canvas.nextId) + PlotCount(|RowsOf(df)|, PlotLimit)
  {
    cfg.allData := cfg.allData[typeName := df];
    Redraw(store, typeName, df);
  }

  /** The `work` half of a fetch button: `fetch_osm_data` on the proxies. The stored box
      is written back unchanged, and without a box no mirror is tried. */
  method FetchOnProxies(cfg: Config, osmFilter: string, typeName: string,
                        shuffled: seq<string>, net: Oracle<seq<PoiNode>>)
    returns (df: Option<seq<Stop>>, attempts: nat)
    requires cfg.boundBox.Some? ==> Ordered(cfg.boundBox.value)
    requires multiset(shuffled) == multiset(cfg.overpassMirrors)
    modifies cfg`boundBox, cfg`allData, cfg`dedupValid
    ensures cfg.boundBox == old(cfg.boundBox)
    ensures old(cfg.boundBox).None? ==> df.None? && attempts == 0
    ensures old(cfg.boundBox).Some? ==>
      df == FetchResult(osmFilter, typeName, old(cfg.boundBox).value, shuffled, net)
    ensures df.Some? ==> cfg.allData == old(cfg.allData)[typeName := df]
    ensures df.None? ==> cfg.allData == old(cfg.allData)
  {
    var e1 := EntryText(cfg.boundBox, 1);
    var e2 := EntryText(cfg.boundBox, 2);
    ProxySaved(cfg.boundBox);
    df, attempts := FetchOsmData(cfg, osmFilter, typeName, e1, e2, shuffled, net);
  }

  /** A fetch button: the fetch on the proxies, then `success` with its result. */
  method FetchWithProxies(cfg: Config, store: MarkerStore, osmFilter: string, typeName: string,
                          shuffled: seq<string>, net: Oracle<seq<PoiNode>>)
    returns (df: Option<seq<Stop>>, attempts: nat)
    requires store.Valid()
    requires cfg.boundBox.Some? ==> Ordered(cfg.boundBox.value)
    requires multiset(shuffled) == multiset(cfg.overpassMirrors)
    modifies cfg`boundBox, cfg`allData, cfg`dedupValid, store`markersByType, store.canvas
    ensures store.Valid()
    ensures cfg.boundBox == old(cfg.boundBox)
    ensures old(cfg.boundBox).None? ==> df.None? && attempts == 0
    ensures old(cfg.boundBox).Some? ==>
      df == FetchResult(osmFilter, typeName, old(cfg.boundBox).value, shuffled, net)
    ensures cfg.allData == old(cfg.allData)[typeName := df]
    ensures store.markersByType
      == old(store.markersByType)[typeName := Handles(old(store.canvas.nextId), PlotCount(|RowsOf(df)|, PlotLimit))]
    ensures store.canvas.objects
      == Placed(RemoveAll(old(store.canvas.objects), old(store.MarkersOf(typeName))), old(store.canvas.nextId),
                RowsOf(df), store.IconOf(typeName), PlotCount(|RowsOf(df)|, PlotLimit))
    ensures store.canvas.nextId == old(store.canvas.nextId) + PlotCount(|RowsOf(df)|, PlotLimit)
  {
    df, attempts := FetchOnProxies(cfg, osmFilter, typeName, shuffled, net);
    FetchSuccess(cfg, store, typeName, df);
  }

  /** Where `fetch_osm_data` sends its status: a label it calls `.config` on, or the
      plain `progress` function the fetch buttons hand it. */
  datatype StatusSink = LabelSink | CallbackSink

  /** How a call of `fetch_osm_data` ends: it returns a table (or `None`), or an
      `AttributeError` escapes from the given line of osm_fetcher.py. */
  datatype FetchEnd = Returned(df: Option<seq<Stop>>) | RaisedAt(line: nat)

  /** `fetch_osm_data` as written, by status sink. With a label it returns what
      `FetchResult` describes. With a function, `status_label.config` raises: at once
      for an invalid box; for the first mirror inside its `try`, where the handler's own
      `config` call raises again; and after the loop when there is no mirror. */
  function FetchEndAsWritten(sink: StatusSink, osmFilter: string, typeName: string, entry1: string,
                             entry2: string, shuffled: seq<string>, net: Oracle<seq<PoiNode>>): (r: FetchEnd)
    ensures sink == LabelSink ==> r.Returned?
    ensures sink == LabelSink && SavedBox(entry1, entry2).Some? ==>
      r.df == FetchResult(osmFilter, typeName, SavedBox(entry1, entry2).value, shuffled, net)
    ensures sink == LabelSink && SavedBox(entry1, entry2).None? ==> r.df.None?
    ensures sink == CallbackSink ==> r.RaisedAt? && r.line in {61, 107, 110}
    ensures sink == CallbackSink && SavedBox(entry1, entry2).Some? && shuffled != [] ==> r.line == 107
  {
    var saved := SavedBox(entry1, entry2);
    match sink
    case LabelSink =>
      if saved.None? then Returned(None) else Returned(FetchResult(osmFilter, typeName, saved.value, shuffled, net))
    case CallbackSink =>
      if saved.None? then RaisedAt(61) else if shuffled == [] then RaisedAt(110) else RaisedAt(107)
  }

  /** The fetch buttons of the game-area section never get a table: whatever the stored
      box, the mirrors and the network, the call raises, so `success` never runs and only
      "Fetch failed" is shown. With a status label the same call returns the stored box's
      result, which is what `FetchWithProxies` models. */
  lemma GameAreaFetchRaises(bb: Option<BBox>, osmFilter: string, typeName: string,
                            shuffled: seq<string>, net: Oracle<seq<PoiNode>>)
    requires bb.Some? ==> Ordered(bb.value)
    ensures var e := FetchEndAsWritten(CallbackSink, osmFilter, typeName, EntryText(bb, 1), EntryText(bb, 2), shuffled, net);
      e.RaisedAt? && e.line == (if bb.None? then 61 else if shuffled == [] then 110 else 107)
    ensures bb.Some? ==>
      FetchEndAsWritten(LabelSink, osmFilter, typeName, EntryText(bb, 1), EntryText(bb, 2), shuffled, net)
      == Returned(FetchResult(osmFilter, typeName, bb.value, shuffled, net))
  {
    ProxySaved(bb);
  }

  /** The first handle the redraw of category `c` takes: the handles of the earlier
      categories' markers follow one another from `next` on. */
  function RedrawStart(tables: map<string, Option<seq<Stop>>>, next: nat, c: nat): (s: nat)
    requires c <= |Categories|
    ensures s >= next
    decreases c
  {
    if c == 0 then next
    else RedrawStart(tables, next, c - 1) + PlotCount(|TableOf(tables, Categories[c - 1])|, PlotLimit)
  }

  /** The markers of category `c` as its redraw from `tables` leaves them. */
  function RedrawnHandles(tables: map<string, Option<seq<Stop>>>, next: nat, c: nat): seq<nat>
    requires c < |Categories|
  {
    Handles(RedrawStart(tables, next, c), PlotCount(|TableOf(tables, Categories[c])|, PlotLimit))
  }

  /** The first `c` categories hold the markers of their redraw. */
  ghost predicate RedrawnUpTo(mb: map<string, seq<nat>>, tables: map<string, Option<seq<Stop>>>,
                              next: nat, c: nat)
    requires c <= |Categories|
  {
    forall c' :: 0 <= c' < c ==> Categories[c'] in mb && mb[Categories[c']] == RedrawnHandles(tables, next, c')
  }

  /** Every type outside the categories has the list it had in `mb0`, or none as there. */
  ghost predicate OthersKept(mb: map<string, seq<nat>>, mb0: map<string, seq<nat>>) {
    forall t :: t !in Categories ==>
      (t in mb <==> t in mb0) && (t in mb0 ==> mb[t] == mb0[t])
  }

  /** Redrawing category `c` extends the prefix of redrawn categories by one. */
  lemma RedrawnStep(mb: map<string, seq<nat>>, tables: map<string, Option<seq<Stop>>>, next: nat, c: nat)
    requires c < |Categories| && RedrawnUpTo(mb, tables, next, c)
    ensures RedrawnUpTo(mb[Categories[c] := RedrawnHandles(tables, next, c)], tables, next, c + 1)
  {
    CategoriesDistinct();
  }

  /** Updating a category leaves the other types alone. */
  lemma OthersKeptStep(mb: map<string, seq<nat>>, mb0: map<string, seq<nat>>, c: nat, v: seq<nat>)
    requires c < |Categories| && OthersKept(mb, mb0)
    ensures OthersKept(mb[Categories[c] := v], mb0)
  {
  }

  /** Categories from `c` on are not redrawn yet: their lists are the ones of `mb0`. */
  ghost predicate PendingKept(mb: map<string, seq<nat>>, mb0: map<string, seq<nat>>, c: nat)
    requires c <= |Categories|
  {
    forall c' :: c <= c' < |Categories| ==> MarkersIn(mb, Categories[c']) == MarkersIn(mb0, Categories[c'])
  }

  /** Redrawing category `c` leaves the later categories' lists alone. */
  lemma PendingStep(mb: map<string, seq<nat>>, mb0: map<string, seq<nat>>, c: nat, v: seq<nat>)
    requires c < |Categories| && PendingKept(mb, mb0, c)
    ensures PendingKept(mb[Categories[c] := v], mb0, c + 1)
  {
    CategoriesDistinct();
  }

  /** The handles of a category's redraw end where the next categories' begin. */
  lemma {:induction false} RedrawStartMono(tables: map<string, Option<seq<Stop>>>, next: nat, c': nat, c: nat)
    requires c' < c <= |Categories|
    ensures RedrawStart(tables, next, c') + PlotCount(|TableOf(tables, Categories[c'])|, PlotLimit)
            <= RedrawStart(tables, next, c)
    decreases c
  {
    if c > c' + 1 {
      RedrawStartMono(tables, next, c', c - 1);
    }
  }

  /** The canvas after the first `c` categories are redrawn from `tables`, one after
      another: each category's markers of `mb` are deleted, then its rows' markers are
      placed at the handles from its `RedrawStart` on. */
  ghost function RedrawnCanvas(objs: map<nat, MapObject>, mb: map<string, seq<nat>>,
                               tables: map<string, Option<seq<Stop>>>, next: nat, store: MarkerStore,
                               c: nat): map<nat, MapObject>
    requires c <= |Categories|
    decreases c
  {
    if c == 0 then objs
    else
      var t := Categories[c - 1];
      var rows := TableOf(tables, t);
      Placed(RemoveAll(RedrawnCanvas(objs, mb, tables, next, store, c - 1), MarkersIn(mb, t)),
             RedrawStart(tables, next, c - 1), rows, store.IconOf(t), PlotCount(|rows|, PlotLimit))
  }

  /** The handle the redraw of category `c` gives its `i`th row. */
  function RedrawSlot(tables: map<string, Option<seq<Stop>>>, next: nat, c: nat, i: nat): nat
    requires c < |Categories|
  {
    RedrawStart(tables, next, c) + i
  }

  /** Every handle of the first `c` categories' redraws holds its stop's marker. */
  ghost predicate NewMarkersPlaced(objs: map<nat, MapObject>, tables: map<string, Option<seq<Stop>>>,
                                   next0: nat, store: MarkerStore, c: nat)
    requires c <= |Categories|
  {
    forall c': nat, i: nat :: c' < c && i < PlotCount(|TableOf(tables, Categories[c'])|, PlotLimit) ==>
      RedrawSlot(tables, next0, c', i) in objs
      && objs[RedrawSlot(tables, next0, c', i)]
         == StopMarker(TableOf(tables, Categories[c'])[i], store.IconOf(Categories[c']))
  }

  /** No marker `mb0` lists for the first `c` categories is left on the map. */
  ghost predicate OldMarkersGone(objs: map<nat, MapObject>, mb0: map<string, seq<nat>>, c: nat)
    requires c <= |Categories|
  {
    forall c', h :: 0 <= c' < c && h in MarkersIn(mb0, Categories[c']) ==> h !in objs
  }

  /** Every object of `objs0` that is not an old marker of the first `c` categories
      is still there, unchanged. */
  ghost predicate OthersUntouched(objs: map<nat, MapObject>, objs0: map<nat, MapObject>,
                                  mb0: map<string, seq<nat>>, c: nat)
    requires c <= |Categories|
  {
    forall h :: h in objs0 && (forall c' :: 0 <= c' < c ==> h !in MarkersIn(mb0, Categories[c'])) ==>
      h in objs && objs[h] == objs0[h]
  }

  /** Nothing appears on the map but the old objects and the redraws' handles. */
  ghost predicate OnlyOldOrNew(objs: map<nat, MapObject>, objs0: map<nat, MapObject>,
                               tables: map<string, Option<seq<Stop>>>, next0: nat, c: nat)
    requires c <= |Categories|
  {
    forall h :: h in objs ==> h in objs0 || next0 <= h < RedrawStart(tables, next0, c)
  }

  /** What the map shows once the first `c` categories of `tables` are redrawn over
      `objs0`, whose markers `mb0` lists: every new handle holds its stop's marker, no
      old marker of those categories is left, every other object is untouched, and
      nothing else appears. */
  ghost predicate RedrawnCanvasOk(objs: map<nat, MapObject>, objs0: map<nat, MapObject>,
                                  mb0: map<string, seq<nat>>, tables: map<string, Option<seq<Stop>>>,
                                  next0: nat, store: MarkerStore, c: nat)
    requires c <= |Categories|
  {
    NewMarkersPlaced(objs, tables, next0, store, c)
    && OldMarkersGone(objs, mb0, c)
    && OthersUntouched(objs, objs0, mb0, c)
    && OnlyOldOrNew(objs, objs0, tables, next0, c)
  }

  /** Every handle `mb0` lists was handed out before `next0`. */
  ghost predicate ListedBelow(mb0: map<string, seq<nat>>, next0: nat) {
    forall t, i :: t in mb0 && 0 <= i < |mb0[t]| ==> mb0[t][i] < next0
  }

  /** The lists of a valid marker store hold handles handed out already. */
  lemma ListedBelowOk(mb0: map<string, seq<nat>>, objs0: map<nat, MapObject>, next0: nat)
    requires MarkersOk(mb0, objs0, next0)
    ensures ListedBelow(mb0, next0)
  {
  }

  lemma ListedBelowIn(mb0: map<string, seq<nat>>, next0: nat, t: string, h: nat)
    requires ListedBelow(mb0, next0) && h in MarkersIn(mb0, t)
    ensures h < next0
  {
    var i :| 0 <= i < |mb0[t]| && mb0[t][i] == h;
  }

  /** An object below the start of a redraw that is not one of its deleted markers
      survives the redraw. */
  lemma SurvivesRedraw(prev: map<nat, MapObject>, gone: seq<nat>, s: nat, rows: seq<Stop>,
                       icon: Option<string>, k: nat, h: nat)
    requires k <= |rows| && h in prev && h !in gone && h < s
    ensures h in Placed(RemoveAll(prev, gone), s, rows, icon, k)
            && Placed(RemoveAll(prev, gone), s, rows, icon, k)[h] == prev[h]
  {
    PlacedFacts(RemoveAll(prev, gone), s, rows, icon, k);
  }

  /** The `i`th handle of a redraw holds the `i`th row's marker. */
  lemma PlacedAt(objs: map<nat, MapObject>, s: nat, rows: seq<Stop>, icon: Option<string>, k: nat, i: nat)
    requires i < k <= |rows|
    ensures s + i in Placed(objs, s, rows, icon, k) && Placed(objs, s, rows, icon, k)[s + i] == StopMarker(rows[i], icon)
  {
    PlacedFacts(objs, s, rows, icon, k);
  }

  /** One instance of `NewMarkersPlaced`. */
  lemma NewMarkerAt(objs: map<nat, MapObject>, tables: map<string, Option<seq<Stop>>>, next0: nat,
                    store: MarkerStore, c: nat, c': nat, i: nat)
    requires c <= |Categories| && NewMarkersPlaced(objs, tables, next0, store, c)
    requires c' < c && i < PlotCount(|TableOf(tables, Categories[c'])|, PlotLimit)
    ensures RedrawSlot(tables, next0, c', i) in objs
            && objs[RedrawSlot(tables, next0, c', i)]
               == StopMarker(TableOf(tables, Categories[c'])[i], store.IconOf(Categories[c']))
  {
  }

  /** The state one redraw step starts from and the canvas it leaves, named: category
      `c - 1`'s old markers are deleted from `prev`, then its rows are placed from `s` on. */
  ghost predicate RedrawStep(prev: map<nat, MapObject>, objs: map<nat, MapObject>, mb0: map<string, seq<nat>>,
                             tables: map<string, Option<seq<Stop>>>, next0: nat, store: MarkerStore, c: nat,
                             rows: seq<Stop>, s: nat, k: nat)
  {
    0 < c <= |Categories|
    && rows == TableOf(tables, Categories[c - 1])
    && s == RedrawStart(tables, next0, c - 1)
    && k == PlotCount(|rows|, PlotLimit)
    && objs == Placed(RemoveAll(prev, MarkersIn(mb0, Categories[c - 1])), s, rows, store.IconOf(Categories[c - 1]), k)
  }

  /** A new marker of an earlier category survives the redraw of category `c - 1`. */
  lemma PlacedEarlier(prev: map<nat, MapObject>, objs: map<nat, MapObject>, mb0: map<string, seq<nat>>,
                      tables: map<string, Option<seq<Stop>>>, next0: nat, store: MarkerStore, c: nat,
                      rows: seq<Stop>, s: nat, k: nat, c': nat, i: nat)
    requires RedrawStep(prev, objs, mb0, tables, next0, store, c, rows, s, k) && ListedBelow(mb0, next0)
    requires NewMarkersPlaced(prev, tables, next0, store, c - 1)
    requires c' < c - 1 && i < PlotCount(|TableOf(tables, Categories[c'])|, PlotLimit)
    ensures RedrawSlot(tables, next0, c', i) in objs
            && objs[RedrawSlot(tables, next0, c', i)]
               == StopMarker(TableOf(tables, Categories[c'])[i], store.IconOf(Categories[c']))
  {
    var t := Categories[c - 1];
    var gone := MarkersIn(mb0, t);
    var h := RedrawSlot(tables, next0, c', i);
    RedrawStartMono(tables, next0, c', c - 1);
    NewMarkerAt(prev, tables, next0, store, c - 1, c', i);
    if h in gone {
      ListedBelowIn(mb0, next0, t, h);
      assert false;
    }
    SurvivesRedraw(prev, gone, s, rows, store.IconOf(t), k, h);
  }

  /** The redraw of category `c - 1` places its rows' markers at its handles. */
  lemma PlacedLatest(prev: map<nat, MapObject>, objs: map<nat, MapObject>, mb0: map<string, seq<nat>>,
                     tables: map<string, Option<seq<Stop>>>, next0: nat, store: MarkerStore, c: nat,
                     rows: seq<Stop>, s: nat, k: nat, i: nat)
    requires RedrawStep(prev, objs, mb0, tables, next0, store, c, rows, s, k)
    requires i < k
    ensures RedrawSlot(tables, next0, c - 1, i) in objs
            && objs[RedrawSlot(tables, next0, c - 1, i)]
               == StopMarker(TableOf(tables, Categories[c - 1])[i], store.IconOf(Categories[c - 1]))
  {
    PlacedAt(RemoveAll(prev, MarkersIn(mb0, Categories[c - 1])), s, rows, store.IconOf(Categories[c - 1]), k, i);
  }

  /** One redraw step keeps the new markers of the earlier categories and adds its own. */
  lemma PlacedStep(prev: map<nat, MapObject>, objs: map<nat, MapObject>, mb0: map<string, seq<nat>>,
                   tables: map<string, Option<seq<Stop>>>, next0: nat, store: MarkerStore, c: nat,
                   rows: seq<Stop>, s: nat, k: nat)
    requires RedrawStep(prev, objs, mb0, tables, next0, store, c, rows, s, k) && ListedBelow(mb0, next0)
    requires NewMarkersPlaced(prev, tables, next0, store, c - 1)
    ensures NewMarkersPlaced(objs, tables, next0, store, c)
  {
    forall c': nat, i: nat | c' < c && i < PlotCount(|TableOf(tables, Categories[c'])|, PlotLimit)
      ensures RedrawSlot(tables, next0, c', i) in objs
              && objs[RedrawSlot(tables, next0, c', i)]
                 == StopMarker(TableOf(tables, Categories[c'])[i], store.IconOf(Categories[c']))
    {
      if c' < c - 1 {
        PlacedEarlier(prev, objs, mb0, tables, next0, store, c, rows, s, k, c', i);
      } else {
        PlacedLatest(prev, objs, mb0, tables, next0, store, c, rows, s, k, i);
      }
    }
  }

  /** One redraw step deletes its category's old markers and places none over them. */
  lemma GoneStep(prev: map<nat, MapObject>, objs: map<nat, MapObject>, mb0: map<string, seq<nat>>,
                 tables: map<string, Option<seq<Stop>>>, next0: nat, store: MarkerStore, c: nat,
                 rows: seq<Stop>, s: nat, k: nat)
    requires RedrawStep(prev, objs, mb0, tables, next0, store, c, rows, s, k) && ListedBelow(mb0, next0)
    requires OldMarkersGone(prev, mb0, c - 1)
    ensures OldMarkersGone(objs, mb0, c)
  {
    var t := Categories[c - 1];
    PlacedFacts(RemoveAll(prev, MarkersIn(mb0, t)), s, rows, store.IconOf(t), k);
    forall c', h | 0 <= c' < c && h in MarkersIn(mb0, Categories[c'])
      ensures h !in objs
    {
      ListedBelowIn(mb0, next0, Categories[c'], h);
    }
  }

  /** One redraw step touches nothing but its category's old markers and new handles. */
  lemma UntouchedStep(prev: map<nat, MapObject>, objs: map<nat, MapObject>, objs0: map<nat, MapObject>,
                      mb0: map<string, seq<nat>>, tables: map<string, Option<seq<Stop>>>, next0: nat,
                      store: MarkerStore, c: nat, rows: seq<Stop>, s: nat, k: nat)
    requires RedrawStep(prev, objs, mb0, tables, next0, store, c, rows, s, k)
    requires forall h :: h in objs0 ==> h < next0
    requires OthersUntouched(prev, objs0, mb0, c - 1)
    ensures OthersUntouched(objs, objs0, mb0, c)
  {
    var t := Categories[c - 1];
    PlacedFacts(RemoveAll(prev, MarkersIn(mb0, t)), s, rows, store.IconOf(t), k);
    forall h | h in objs0 && (forall c' :: 0 <= c' < c ==> h !in MarkersIn(mb0, Categories[c']))
      ensures h in objs && objs[h] == objs0[h]
    {
      assert h !in MarkersIn(mb0, Categories[c - 1]);
    }
  }

  /** One redraw step adds only the handles from its start on. */
  lemma OnlyStep(prev: map<nat, MapObject>, objs: map<nat, MapObject>, objs0: map<nat, MapObject>,
                 mb0: map<string, seq<nat>>, tables: map<string, Option<seq<Stop>>>, next0: nat,
                 store: MarkerStore, c: nat, rows: seq<Stop>, s: nat, k: nat)
    requires RedrawStep(prev, objs, mb0, tables, next0, store, c, rows, s, k)
    requires OnlyOldOrNew(prev, objs0, tables, next0, c - 1)
    ensures OnlyOldOrNew(objs, objs0, tables, next0, c)
  {
    PlacedFacts(RemoveAll(prev, MarkersIn(mb0, Categories[c - 1])), s, rows, store.IconOf(Categories[c - 1]), k);
  }

  /** Redrawing category `c - 1` is a `RedrawStep` from the canvas of the earlier categories. */
  lemma RedrawnCanvasStep(objs0: map<nat, MapObject>, mb0: map<string, seq<nat>>,
                          tables: map<string, Option<seq<Stop>>>, next0: nat, store: MarkerStore, c: nat)
    requires 0 < c <= |Categories|
    ensures RedrawStep(RedrawnCanvas(objs0, mb0, tables, next0, store, c - 1),
                       RedrawnCanvas(objs0, mb0, tables, next0, store, c), mb0, tables, next0, store, c,
                       TableOf(tables, Categories[c - 1]), RedrawStart(tables, next0, c - 1),
                       PlotCount(|TableOf(tables, Categories[c - 1])|, PlotLimit))
  {
  }

  lemma {:induction false} PlacedUpTo(objs0: map<nat, MapObject>, mb0: map<string, seq<nat>>,
                                      tables: map<string, Option<seq<Stop>>>, next0: nat, store: MarkerStore, c: nat)
    requires c <= |Categories| && ListedBelow(mb0, next0)
    ensures NewMarkersPlaced(RedrawnCanvas(objs0, mb0, tables, next0, store, c), tables, next0, store, c)
    decreases c
  {
    if c > 0 {
      PlacedUpTo(objs0, mb0, tables, next0, store, c - 1);
      RedrawnCanvasStep(objs0, mb0, tables, next0, store, c);
      PlacedStep(RedrawnCanvas(objs0, mb0, tables, next0, store, c - 1), RedrawnCanvas(objs0, mb0, tables, next0, store, c),
                 mb0, tables, next0, store, c, TableOf(tables, Categories[c - 1]), RedrawStart(tables, next0, c - 1),
                 PlotCount(|TableOf(tables, Categories[c - 1])|, PlotLimit));
    }
  }

  lemma {:induction false} GoneUpTo(objs0: map<nat, MapObject>, mb0: map<string, seq<nat>>,
                                    tables: map<string, Option<seq<Stop>>>, next0: nat, store: MarkerStore, c: nat)
    requires c <= |Categories| && ListedBelow(mb0, next0)
    ensures OldMarkersGone(RedrawnCanvas(objs0, mb0, tables, next0, store, c), mb0, c)
    decreases c
  {
    if c > 0 {
      GoneUpTo(objs0, mb0, tables, next0, store, c - 1);
      RedrawnCanvasStep(objs0, mb0, tables, next0, store, c);
      GoneStep(RedrawnCanvas(objs0, mb0, tables, next0, store, c - 1), RedrawnCanvas(objs0, mb0, tables, next0, store, c),
               mb0, tables, next0, store, c, TableOf(tables, Categories[c - 1]), RedrawStart(tables, next0, c - 1),
               PlotCount(|TableOf(tables, Categories[c - 1])|, PlotLimit));
    }
  }

  lemma {:induction false} UntouchedUpTo(objs0: map<nat, MapObject>, mb0: map<string, seq<nat>>,
                                         tables: map<string, Option<seq<Stop>>>, next0: nat, store: MarkerStore, c: nat)
    requires c <= |Categories| && forall h :: h in objs0 ==> h < next0
    ensures OthersUntouched(RedrawnCanvas(objs0, mb0, tables, next0, store, c), objs0, mb0, c)
    decreases c
  {
    if c > 0 {
      UntouchedUpTo(objs0, mb0, tables, next0, store, c - 1);
      RedrawnCanvasStep(objs0, mb0, tables, next0, store, c);
      UntouchedStep(RedrawnCanvas(objs0, mb0, tables, next0, store, c - 1), RedrawnCanvas(objs0, mb0, tables, next0, store, c),
                    objs0, mb0, tables, next0, store, c, TableOf(tables, Categories[c - 1]),
                    RedrawStart(tables, next0, c - 1), PlotCount(|TableOf(tables, Categories[c - 1])|, PlotLimit));
    }
  }

  lemma {:induction false} OnlyUpTo(objs0: map<nat, MapObject>, mb0: map<string, seq<nat>>,
                                    tables: map<string, Option<seq<Stop>>>, next0: nat, store: MarkerStore, c: nat)
    requires c <= |Categories|
    ensures OnlyOldOrNew(RedrawnCanvas(objs0, mb0, tables, next0, store, c), objs0, tables, next0, c)
    decreases c
  {
    if c > 0 {
      OnlyUpTo(objs0, mb0, tables, next0, store, c - 1);
      RedrawnCanvasStep(objs0, mb0, tables, next0, store, c);
      OnlyStep(RedrawnCanvas(objs0, mb0, tables, next0, store, c - 1), RedrawnCanvas(objs0, mb0, tables, next0, store, c),
               objs0, mb0, tables, next0, store, c, TableOf(tables, Categories[c - 1]),
               RedrawStart(tables, next0, c - 1), PlotCount(|TableOf(tables, Categories[c - 1])|, PlotLimit));
    }
  }

  /** The redrawn canvas has those properties whenever every handle on the map and in
      the lists was handed out before `next0`, as `MarkerStore.Valid` keeps. */
  lemma RedrawnCanvasFacts(objs0: map<nat, MapObject>, mb0: map<string, seq<nat>>,
                           tables: map<string, Option<seq<Stop>>>, next0: nat, store: MarkerStore, c: nat)
    requires c <= |Categories|
    requires forall h :: h in objs0 ==> h < next0
    requires ListedBelow(mb0, next0)
    ensures RedrawnCanvasOk(RedrawnCanvas(objs0, mb0, tables, next0, store, c), objs0, mb0, tables, next0, store, c)
  {
    PlacedUpTo(objs0, mb0, tables, next0, store, c);
    GoneUpTo(objs0, mb0, tables, next0, store, c);
    UntouchedUpTo(objs0, mb0, tables, next0, store, c);
    OnlyUpTo(objs0, mb0, tables, next0, store, c);
  }

  /** `run_dedup`: deduplicate, then redraw the markers of every category. */
  method RunDedup(cfg: Config, store: MarkerStore, threshold: int, dist: Distance, cell: CellOf)
    returns (counts: map<string, nat>, total: nat)
    requires store.Valid()
    modifies cfg`allData, store`markersByType, store.canvas
    ensures store.Valid()
    ensures (cfg.allData, counts) == DedupAll(old(cfg.allData), threshold, dist, cell)
    ensures total == Total(counts)
    ensures RedrawnUpTo(store.markersByType, cfg.allData, old(store.canvas.nextId), |Categories|)
    ensures store.canvas.nextId == RedrawStart(cfg.allData, old(store.canvas.nextId), |Categories|)
    ensures OthersKept(store.markersByType, old(store.markersByType))
    ensures store.canvas.objects
      == RedrawnCanvas(old(store.canvas.objects), old(store.markersByType), cfg.allData,
                       old(store.canvas.nextId), store, |Categories|)
    ensures RedrawnCanvasOk(store.canvas.objects, old(store.canvas.objects), old(store.markersByType),
                            cfg.allData, old(store.canvas.nextId), store, |Categories|)
  {
    counts, total := DeduplicateAllByPriority(cfg, threshold, dist, cell);
    RedrawAll(cfg, store);
  }

  /** The redraw loop of `run_dedup`: every category is redrawn from its table, in order. */
  method RedrawAll(cfg: Config, store: MarkerStore)
    requires store.Valid()
    modifies store`markersByType, store.canvas
    ensures store.Valid()
    ensures RedrawnUpTo(store.markersByType, cfg.allData, old(store.canvas.nextId), |Categories|)
    ensures store.canvas.nextId == RedrawStart(cfg.allData, old(store.canvas.nextId), |Categories|)
    ensures OthersKept(store.markersByType, old(store.markersByType))
    ensures store.canvas.objects
      == RedrawnCanvas(old(store.canvas.objects), old(store.markersByType), cfg.allData,
                       old(store.canvas.nextId), store, |Categories|)
    ensures RedrawnCanvasOk(store.canvas.objects, old(store.canvas.objects), old(store.markersByType),
                            cfg.allData, old(store.canvas.nextId), store, |Categories|)
  {
    ghost var next0 := store.canvas.nextId;
    ghost var mb0 := store.markersByType;
    ghost var objs0 := store.canvas.objects;
    var c := 0;
    while c < |Categories|
      invariant 0 <= c <= |Categories|
      invariant store.Valid()
      invariant RedrawnSoFar(store.markersByType, store.canvas.objects, store.canvas.nextId,
                             cfg.allData, next0, mb0, objs0, store, c)
    {
      RedrawCategory(cfg, store, c, cfg.allData, next0, mb0, objs0);
      c := c + 1;
    }
    ListedBelowOk(mb0, objs0, next0);
    RedrawnCanvasFacts(objs0, mb0, cfg.allData, next0, store, |Categories|);
  }

  /** Where the redraw loop of `run_dedup` stands after `c` categories: the counter is at
      `RedrawStart`, those categories hold their new handles, the others their old lists,
      other types are untouched, and the map is `RedrawnCanvas`. */
  ghost predicate RedrawnSoFar(mb: map<string, seq<nat>>, objs: map<nat, MapObject>, nextId: nat,
                               tables: map<string, Option<seq<Stop>>>, next0: nat, mb0: map<string, seq<nat>>,
                               objs0: map<nat, MapObject>, store: MarkerStore, c: nat)
    requires c <= |Categories|
  {
    nextId == RedrawStart(tables, next0, c)
    && RedrawnUpTo(mb, tables, next0, c)
    && OthersKept(mb, mb0)
    && PendingKept(mb, mb0, c)
    && objs == RedrawnCanvas(objs0, mb0, tables, next0, store, c)
  }

  /** One step of the redraw loop of `run_dedup`: category `c` is redrawn from its table. */
  method RedrawCategory(cfg: Config, store: MarkerStore, c: nat, ghost tables: map<string, Option<seq<Stop>>>,
                        ghost next0: nat, ghost mb0: map<string, seq<nat>>, ghost objs0: map<nat, MapObject>)
    requires c < |Categories| && cfg.allData == tables && store.Valid()
    requires RedrawnSoFar(store.markersByType, store.canvas.objects, store.canvas.nextId,
                          tables, next0, mb0, objs0, store, c)
    modifies store`markersByType, store.canvas
    ensures store.Valid()
    ensures RedrawnSoFar(store.markersByType, store.canvas.objects, store.canvas.nextId,
                         tables, next0, mb0, objs0, store, c + 1)
  {
    var t := Categories[c];
    var df := if t in cfg.allData then cfg.allData[t] else None;
    assert RowsOf(df) == TableOf(tables, t);
    assert MarkersIn(store.markersByType, t) == MarkersIn(mb0, t);
    ghost var mb := store.markersByType;
    Redraw(store, t, df);
    RedrawnStep(mb, tables, next0, c);
    OthersKeptStep(mb, mb0, c, RedrawnHandles(tables, next0, c));
    PendingStep(mb, mb0, c, RedrawnHandles(tables, next0, c));
  }

  /** `save_to_kml` (writing the file is not modelled): an empty path from the dialog
      does nothing; otherwise the path is recorded, the box is copied to the saved box,
      and the stop count for the message is returned. */
  method SaveToKml(cfg: Config, path: string) returns (stops: Option<nat>)
    modifies cfg`lastExportPath, cfg`savedBoundBox
    ensures path == [] ==> stops.None? && cfg.lastExportPath == old(cfg.lastExportPath)
                           && cfg.savedBoundBox == old(cfg.savedBoundBox)
    ensures path != [] ==> cfg.lastExportPath == Some(path) && cfg.savedBoundBox == cfg.boundBox
                           && stops == Some(StopsCount(cfg.allData))
  {
    if path == [] {
      return None;
    }
    cfg.lastExportPath := Some(path);
    cfg.savedBoundBox := cfg.boundBox;
    var n := 0;
    var c := 0;
    while c < |Categories|
      invariant 0 <= c <= |Categories|
      invariant n == |StopsUpTo(cfg.allData, c)|
    {
      var t := Categories[c];
      if t in cfg.allData && cfg.allData[t].Some? {
        n := n + |cfg.allData[t].value|;
      }
      c := c + 1;
    }
    StopsCountIsStopsUpTo(cfg.allData);
    stops := Some(n);
  }
}
