# Jetlag Map Maker: a verified model of the core

This project models in Dafny the core of Jetlag Map Maker, a desktop tool for building the
game area of a hide-and-seek game played on public transport. A player sets a bounding box
or picks OpenStreetMap regions. The tool fetches the transit stops and points of interest
inside from Overpass mirrors, and removes stops that lie too close to a stop of a
higher-priority category. It draws hiding zones around the stops and exports the result as
KML, or merges points of interest into an existing KML file.

The model follows the program's files, one module per file:

- `PoiUtils`, `PoiFilters`: tag normalisation, the integer-tag parser, the five exclusion
  filters and the greedy merge of nearby hospitals.
- `OverpassRows`, `OverpassFetch`: the Overpass error classifiers, the area clause, how
  points of interest and water features are turned into rows, way geometry, the
  retry-and-backoff loop over mirrors and the staged water and coastline fetches.
- `Dedup`: the priority-ordered removal of stops across categories (Train, Subway, Tram,
  Bus).
- `OsmFetcher`: saving the bounding box and the transit-stop fetch.
- `BoundaryDraw`, `OsmRegions`: polygon strings, box corners, map fitting and GeoJSON rings.
- `KmlMerge`: colour conversion, style and folder bookkeeping, and the row routing of the
  KML merge, with the document tree modelled as lists.
- `HidingZones`: coordinate parsing, circle points, the segment choice, the radius choice
  and the zone list.
- `MapMarkers`, `MapCanvas`: the per-type marker lists and the single label marker, over an
  abstract map that hands out handles.
- `GeoAreaHelpers`, `GameAreaSection`, `BboxScreen`, `PointsOfInterest`: the state kept by
  the screens, namely the game-area selection, the fetch buttons, the export, the bounding
  box, the POI label toggling and the POI marker map.
- `AppConfig`: the shared configuration object.
- `Common`, `Text`, `Decimal`, `Tables`: support modules. They cover the wrapper types, the
  Python string operations used (`strip`, `lower`, `split`), decimal numbers with Python's
  `float` parsing and `str` printing of them, and the table rows.

The model has these shapes:

- Pure code is written as functions. Each one has lemmas for round trips, bounds and
  if-and-only-if characterisations.
- Code that updates state is written as classes whose methods have `modifies` clauses: the
  label store, the zone layer, the KML document and the screens' state.
- Loops are written as methods with invariants. Each is proved equal to a specifying
  function, and the properties are proved about that function.
- The network, the clock, `random.shuffle`, the file system and shapely are parameters of
  the model. The network is an oracle from query, mirror and attempt number to an outcome.

Coordinates are exact decimals, so parsing and printing are modelled exactly.
`_fetch_lines_for_kinds` (poi/overpass_fetch.py) retries every mirror in its second
round whatever the error of the first; no mirror is ever skipped.

## Model

| member | source | states |
|---|---|---|
| PoiUtils.NormStr | Jetlag_Map_Maker_V2.2/poi/utils.py:3-4 | `None` gives ""; any other value gives text with no blank at either end, all lower-case, never longer than the input |
| PoiUtils.NormStrFixed | Jetlag_Map_Maker_V2.2/poi/utils.py:3-4 | a trimmed, lower-case string is its own normal form |
| PoiUtils.NormStrIdempotent | Jetlag_Map_Maker_V2.2/poi/utils.py:3-4 | normalising twice gives the same as normalising once |
| PoiUtils.CleanName | Jetlag_Map_Maker_V2.2/poi/utils.py:6-14 | "" exactly for `None`, blank text or any case variant of "unnamed"; otherwise the stripped text; the result is always stripped and never "unnamed" in any case |
| PoiUtils.CleanNameIdempotent | Jetlag_Map_Maker_V2.2/poi/utils.py:6-14 | cleaning a cleaned name changes nothing |
| PoiUtils.IntTokens | Jetlag_Map_Maker_V2.2/poi/utils.py:24 | after ';' and ',' become spaces and the text is split on whitespace, no token holds a blank |
| PoiUtils.FirstNumberFrom | Jetlag_Map_Maker_V2.2/poi/utils.py:24-29 | from position `i` on: 0 when no token reads as a number, otherwise the first token that does, truncated toward zero |
| PoiUtils.FirstNumberToken | Jetlag_Map_Maker_V2.2/poi/utils.py:24-29 | 0 when no token reads as a number; otherwise the first token that reads, truncated toward zero, with every unreadable token before it skipped |
| PoiUtils.ParseIntTag | Jetlag_Map_Maker_V2.2/poi/utils.py:16-29 | 0 for an absent key or a blank value; otherwise the first token of the value that reads as a number, truncated toward zero, and 0 when none reads |
| PoiFilters.ParkRule | Jetlag_Map_Maker_V2.2/poi/filters.py:15-36 | true when amenity is grave_yard or cemetery, when cemetery or historic is churchyard, when landuse is cemetery or religious and the place is a graveyard or its name mentions church, when the name mentions churchyard, graveyard, cemetery, " garden" or " gardens", and when leisure is garden |
| PoiFilters.IsExcludedPark | Jetlag_Map_Maker_V2.2/poi/filters.py:6-36 | on the normalised tags and name: a burial ground, churchyard, a cemetery or religious landuse that is a graveyard or named for a church, a garden, or a name mentioning churchyard, graveyard, cemetery, " garden" or " gardens" excludes the park, and a park is excluded only for one of the listed reasons |
| PoiFilters.ParkExclusionReasons | Jetlag_Map_Maker_V2.2/poi/filters.py:15-36 | the converse: a park is excluded only for one of those reasons, or as cemetery/religious land whose cemetery tag is graveyard or whose name mentions a church |
| PoiFilters.OutdoorWordsAny | Jetlag_Map_Maker_V2.2/poi/filters.py:57-62 | the name matches the outdoor word list exactly when it contains "open air", "open-air", "heritage site" or "outdoor" |
| PoiFilters.IsNonBuildingMuseum | Jetlag_Map_Maker_V2.2/poi/filters.py:39-67 | true for museum=open_air, for a heritage tag other than "" and "yes", for archaeological sites and for names with an outdoor word; and true only for those, an attraction named "museum", or a museum whose building is no, roof or tent |
| PoiFilters.SmallCourseWordsAny | Jetlag_Map_Maker_V2.2/poi/filters.py:100-108 | the name matches the small-course word list exactly when it contains one of its six phrases |
| PoiFilters.IsExcludedGolfCourse | Jetlag_Map_Maker_V2.2/poi/filters.py:70-110 | true exactly when the golf tag names practice, mini golf or pitch-and-putt, leisure is miniature_golf, course or course:type is a short course, the holes (holes, else golf:holes) are 1 to 17, or the name has a small-course phrase |
| PoiFilters.IsPrivateHospital | Jetlag_Map_Maker_V2.2/poi/filters.py:113-125 | true exactly when operator:type, ownership or access normalises to "private" |
| PoiFilters.IsExcludedHospital | Jetlag_Map_Maker_V2.2/poi/filters.py:128-173 | true exactly when one of the hospice, research, resource, therapy or day-unit tag values or name phrases is present |
| PoiFilters.ParkSeesNormalisedName | Jetlag_Map_Maker_V2.2/poi/filters.py:7 | the park decision does not change when the name is first normalised |
| PoiFilters.MuseumSeesNormalisedName | Jetlag_Map_Maker_V2.2/poi/filters.py:45 | the museum decision does not change when the name is first normalised |
| PoiFilters.GolfSeesNormalisedName | Jetlag_Map_Maker_V2.2/poi/filters.py:71 | the golf decision does not change when the name is first normalised |
| PoiFilters.HospitalSeesNormalisedName | Jetlag_Map_Maker_V2.2/poi/filters.py:133 | the hospital decision does not change when the name is first normalised |
| PoiFilters.RankLeTotal | Jetlag_Map_Maker_V2.2/poi/filters.py:189 | any two rows are ordered one way or the other by (beds descending, name ascending) |
| PoiFilters.RankLeTrans | Jetlag_Map_Maker_V2.2/poi/filters.py:189 | that order is transitive |
| PoiFilters.InsertByRank | Jetlag_Map_Maker_V2.2/poi/filters.py:189 | inserting a row adds exactly that row to the multiset and keeps a sorted table sorted |
| PoiFilters.SortByRank | Jetlag_Map_Maker_V2.2/poi/filters.py:189 | the result is a permutation of the table, sorted by beds descending, then name ascending |
| PoiFilters.BedsFilled | Jetlag_Map_Maker_V2.2/poi/filters.py:185-188 | one row per input row, in order, with missing beds read as 0 |
| PoiFilters.RankedWork | Jetlag_Map_Maker_V2.2/poi/filters.py:184-189 | the working table is a permutation of the rows with beds filled in, and is sorted |
| PoiFilters.RemoveNear | Jetlag_Map_Maker_V2.2/poi/filters.py:204-210 | after anchor `i`, a flag is set exactly when it was set before or its row is later than `i` and within the radius of the anchor |
| PoiFilters.MergeStep | Jetlag_Map_Maker_V2.2/poi/filters.py:194-210 | keeping an unflagged row as an anchor and flagging its near later rows preserves the clustering invariant |
| PoiFilters.MergeSkip | Jetlag_Map_Maker_V2.2/poi/filters.py:195-196 | skipping a flagged row preserves the clustering invariant |
| PoiFilters.MergeAnchors | Jetlag_Map_Maker_V2.2/poi/filters.py:191-210 | the loop ends with the invariant for the whole table, and the kept rows are the working rows at the kept indices, in order |
| PoiFilters.MergeDone | Jetlag_Map_Maker_V2.2/poi/filters.py:194-212 | at the end the kept indices increase, start with row 0, are pairwise farther apart than the radius, and every dropped row is within the radius of an earlier kept row |
| PoiFilters.MergeNearbyHospitals | Jetlag_Map_Maker_V2.2/poi/filters.py:176-212 | `None` or an empty table comes back unchanged; otherwise the output is an order-preserving selection of the ranked table that keeps its first row, whose rows are pairwise far apart, and in which every dropped row lies near an earlier kept row |
| Text.Strip | Jetlag_Map_Maker_V2.2/poi/utils.py:4 | `str.strip()` leaves no blank at either end and never lengthens the text |
| Text.StripIdempotent | Jetlag_Map_Maker_V2.2/poi/utils.py:4 | stripping twice is stripping once |
| Text.StripEmptyIff | Jetlag_Map_Maker_V2.2/poi/utils.py:9-11 | the stripped text is empty exactly when every character is a blank |
| Text.StripSpaceSuffix | Jetlag_Map_Maker_V2.2/poi/utils.py:4 | blanks after a stripped non-empty text are dropped; with the prefix lemma this fixes `strip()` on any padding |
| Text.Lower | Jetlag_Map_Maker_V2.2/poi/utils.py:4 | `str.lower()` keeps the length and lower-cases each character |
| Text.LowerIsLowerCase | Jetlag_Map_Maker_V2.2/poi/utils.py:4 | lower-cased text has no upper-case letter |
| Text.SplitWsWords | Jetlag_Map_Maker_V2.2/poi/utils.py:24 | every token of `split()` is non-empty and holds no blank |
| Text.SplitWsSpaces | Jetlag_Map_Maker_V2.2/poi/utils.py:24 | leading blanks do not change the tokens of `split()` |
| Text.SplitOnJoin | Jetlag_Map_Maker_V2.2/osm_fetcher.py:39 | splitting on a character undoes joining with it, for parts without that character |
| Text.ContainsAnyIff | Jetlag_Map_Maker_V2.2/poi/overpass_fetch.py:32-39 | a text contains one of a list of phrases exactly when some listed phrase occurs in it |
| Decimal.MinMaxBounds | Jetlag_Map_Maker_V2.2/osm_fetcher.py:42-47 | `min` is at most both arguments and `max` at least both |
| Decimal.MinMaxSwap | Jetlag_Map_Maker_V2.2/osm_fetcher.py:42-47 | `min` and `max` of two numbers do not depend on their order |
| Decimal.MinMaxOrdered | Jetlag_Map_Maker_V2.2/osm_fetcher.py:42-47 | for ordered arguments `min` is the first and `max` the second |
| Decimal.ValueInjective | Jetlag_Map_Maker_V2.2/osm_fetcher.py:39 | two canonical numbers of equal value are the same number, as equal floats are |
| Decimal.TruncToInt | Jetlag_Map_Maker_V2.2/poi/utils.py:26 | `int(x)` truncates toward zero: its magnitude is the whole part of the magnitude of `x`, with the sign of `x` |
| Decimal.ParseNumberStrip | Jetlag_Map_Maker_V2.2/poi/utils.py:26 | `float` ignores surrounding whitespace |
| Decimal.ParseFormat | Jetlag_Map_Maker_V2.2/screens/shared/game_area_section.py:26-29 | a number written with `str` reads back with `float` as the same number |
| OverpassRows.IsTimeoutError | Jetlag_Map_Maker_V2.2/poi/overpass_fetch.py:23-30 | true exactly for a TimeoutError or socket.timeout, or when the lower-cased message contains "timed out" or "10060" |
| OverpassRows.IsOverloadError | Jetlag_Map_Maker_V2.2/poi/overpass_fetch.py:32-39 | true exactly when the lower-cased message contains one of the four overload phrases |
| OverpassRows.IsBlockedOrBadEndpoint | Jetlag_Map_Maker_V2.2/poi/overpass_fetch.py:41-50 | true exactly when the lower-cased message contains one of the six blocked-endpoint phrases |
| OverpassRows.Classify | Jetlag_Map_Maker_V2.2/poi/overpass_fetch.py:533-563 | a failure is treated as blocked exactly when it matches the blocked phrases, and as an overload exactly when it matches the overload phrases but not the blocked ones, since the blocked check runs first |
| OverpassRows.AreaClause | Jetlag_Map_Maker_V2.2/poi/overpass_fetch.py:78-88 | a non-empty polygon gives the poly clause; otherwise bound_box, else saved_bound_box, as a box clause; None exactly when all three are missing |
| OverpassRows.NoCommaInFormat | Jetlag_Map_Maker_V2.2/poi/overpass_fetch.py:86 | a number written by `str` holds no comma |
| OverpassRows.SplitTwo | Jetlag_Map_Maker_V2.2/poi/overpass_fetch.py:86 | two comma-free fields joined by a comma split back into those two fields |
| OverpassRows.SplitThree | Jetlag_Map_Maker_V2.2/poi/overpass_fetch.py:86 | the same for three fields |
| OverpassRows.SplitFour | Jetlag_Map_Maker_V2.2/poi/overpass_fetch.py:86 | the same for four fields |
| OverpassRows.BoxClauseReadsBack | Jetlag_Map_Maker_V2.2/poi/overpass_fetch.py:85-86 | the box clause splits on commas into exactly the south, west, north and east numbers, and each reads back as the number written |
| OverpassRows.RouteFor | Jetlag_Map_Maker_V2.2/poi/overpass_fetch.py:122-142 | water exactly when the type is "body of water" or the lower-cased joined filters mention a water marker; coastline only for the type "coastline" and only when the water test failed |
| OverpassRows.FirstNonEmpty | Jetlag_Map_Maker_V2.2/poi/overpass_fetch.py:175-181 | a chain of `or` over tag lookups: the first listed key with a non-empty value, or None exactly when every listed key is absent or empty |
| OverpassRows.CinemaName | Jetlag_Map_Maker_V2.2/poi/overpass_fetch.py:173-183 | a cinema with no name gets the cleaned first non-empty of brand, operator, short_name, name:en, ref, or else "Cinema (unnamed)"; the result is never empty and always stripped |
| OverpassRows.EuDelegationNeverKept | Jetlag_Map_Maker_V2.2/poi/overpass_fetch.py:196-227 | because "delegation of" is a bad keyword, a mission named for the EU delegation is never kept, and every kept mission names an embassy or a high commission |
| OverpassRows.RowName | Jetlag_Map_Maker_V2.2/poi/overpass_fetch.py:171-187 | an unnamed feature of a type other than cinema is dropped; a kept name is the cleaned name, or for a cinema the cinema fallback, and it is never blank or "unnamed" |
| OverpassRows.Admitted | Jetlag_Map_Maker_V2.2/poi/overpass_fetch.py:189-253 | a feature is admitted exactly when it passes the blacklist, the mission gate for missions, and the park, golf course, museum (a building tag and not a non-building museum) and hospital filters for those types |
| OverpassRows.MaybeAdd | Jetlag_Map_Maker_V2.2/poi/overpass_fetch.py:170-270 | a row is appended exactly when the row name is non-empty and the feature is admitted; it holds the name, type and position, with beds (beds, else capacity) for hospitals only |
| OverpassRows.KeepNamed | Jetlag_Map_Maker_V2.2/poi/overpass_fetch.py:302-304 | the name filter on the finished table never adds rows |
| OverpassRows.KeepNamedSound | Jetlag_Map_Maker_V2.2/poi/overpass_fetch.py:302-304 | every row that survives the filter has a non-blank name that is not "unnamed" |
| OverpassRows.KeepNamedIdentity | Jetlag_Map_Maker_V2.2/poi/overpass_fetch.py:302-304 | on a table whose names are all usable the filter changes nothing |
| OverpassRows.WaterKind | Jetlag_Map_Maker_V2.2/poi/overpass_fetch.py:381-391 | the kind is "reservoir" exactly when landuse or water says reservoir; a lake or pond keeps its water tag; otherwise it is the water tag or "water" |
| OverpassRows.AddPoint | Jetlag_Map_Maker_V2.2/poi/overpass_fetch.py:376-399 | no row exactly when the cleaned name (name, else name:en) is empty; otherwise a "Body of water" point with that name, the water kind and the position |
| OverpassRows.NodeFeatures | Jetlag_Map_Maker_V2.2/poi/overpass_fetch.py:272-273 | one feature per node, in order, placed at the node's own position |
| OverpassRows.CollectRows | Jetlag_Map_Maker_V2.2/poi/overpass_fetch.py:272-287 | one visiting pass appends at most one row per feature |
| OverpassRows.CollectRowsAppend | Jetlag_Map_Maker_V2.2/poi/overpass_fetch.py:272-287 | visiting nodes, then ways, then relations appends the rows of each list in that order |
| OverpassRows.CollectRowsFrom | Jetlag_Map_Maker_V2.2/poi/overpass_fetch.py:275-287 | every collected row is the row built for some feature that has a center |
| OverpassRows.VisitFeatures | Jetlag_Map_Maker_V2.2/poi/overpass_fetch.py:401-416 | the visiting loop appends exactly the rows the specifying function collects |
| OverpassRows.NodeMap | Jetlag_Map_Maker_V2.2/poi/overpass_fetch.py:485-490 | the node map has an entry exactly for the ids of the returned nodes |
| OverpassRows.NodeMapLastWins | Jetlag_Map_Maker_V2.2/poi/overpass_fetch.py:486-488 | an id keeps the position of its last node |
| OverpassRows.BuildNodeMap | Jetlag_Map_Maker_V2.2/poi/overpass_fetch.py:485-490 | the loop builds exactly the node map the specifying function describes |
| OverpassRows.Resolve | Jetlag_Map_Maker_V2.2/poi/overpass_fetch.py:493-497 | at most one point per node id; when every id is known, exactly the positions of the ids in way order |
| OverpassRows.ResolveFrom | Jetlag_Map_Maker_V2.2/poi/overpass_fetch.py:493-497 | every resolved point is the position of some id of the way |
| OverpassRows.ResolveSkipsMissing | Jetlag_Map_Maker_V2.2/poi/overpass_fetch.py:495-497 | an id missing from the map is skipped without disturbing the other points |
| OverpassRows.WayToGeom | Jetlag_Map_Maker_V2.2/poi/overpass_fetch.py:492-498 | the loop returns the resolved points when at least two resolve, and None exactly otherwise |
| OverpassRows.WaterLineRow | Jetlag_Map_Maker_V2.2/poi/overpass_fetch.py:504-521 | a row exactly for a way whose waterway kind is asked for and whose geometry resolves to at least two points; it is a "Body of water" line of that kind, with the resolved points as geometry, no position, and the cleaned first of name and name:en |
| OverpassRows.CoastlineRow | Jetlag_Map_Maker_V2.2/poi/overpass_fetch.py:659-674 | a row exactly for a way tagged natural=coastline with at least two resolved points; it is an unnamed "Coastline" line whose geometry is the resolved points, with no position |
| OverpassRows.CollectWays | Jetlag_Map_Maker_V2.2/poi/overpass_fetch.py:504-521 | at most one row per way, and each row is the one built for some way |
| OverpassRows.VisitWays | Jetlag_Map_Maker_V2.2/poi/overpass_fetch.py:659-674 | the loop over the ways appends exactly the rows the specifying function collects |
| OverpassFetch.FirstAnswer | Jetlag_Map_Maker_V2.2/poi/overpass_fetch.py:160-166 | the first attempt from a given one on that answers: every earlier attempt raised; None exactly when every remaining attempt raises |
| OverpassFetch.FirstSuccess | Jetlag_Map_Maker_V2.2/poi/overpass_fetch.py:366-434 | the single-pass mirror loop stops at the first mirror that answers and returns its answer after that many attempts; with no answer it has tried every mirror and returns None |
| OverpassFetch.Sleeps | Jetlag_Map_Maker_V2.2/poi/overpass_fetch.py:539-545 | the first n attempts sleep at most n times |
| OverpassFetch.SleepsLadder | Jetlag_Map_Maker_V2.2/poi/overpass_fetch.py:464-465 | the sleeps are 1.5 s, then 3.0 s, then 5.0 s for every later overload |
| OverpassFetch.SleepsOnOverloadOnly | Jetlag_Map_Maker_V2.2/poi/overpass_fetch.py:539-545 | there is no sleep exactly when none of the attempts failed with an overload that was not also a blocked endpoint |
| OverpassFetch.FirstSuccessWithBackoff | Jetlag_Map_Maker_V2.2/poi/overpass_fetch.py:464-568 | the two-round loop returns the first answer over the attempts, or None after all of them, and sleeps exactly the backoff ladder on overloads |
| OverpassFetch.TwoRounds | Jetlag_Map_Maker_V2.2/poi/overpass_fetch.py:469-470 | attempt k of the two rounds goes to mirror k modulo the number of mirrors |
| OverpassFetch.NonEmpty | Jetlag_Map_Maker_V2.2/poi/overpass_fetch.py:289-291 | an empty row list becomes None, any other list is kept |
| OverpassFetch.StripNames | Jetlag_Map_Maker_V2.2/poi/overpass_fetch.py:601-602 | the final strip keeps every row and changes only its name, to the stripped name |
| OverpassFetch.StripNamesIdentity | Jetlag_Map_Maker_V2.2/poi/overpass_fetch.py:601-602 | on rows whose names are already stripped the strip changes nothing |
| OverpassFetch.CombineWaterLines | Jetlag_Map_Maker_V2.2/poi/overpass_fetch.py:573-606 | no stage 1 rows give None; a failed stage 2 gives stage 1 alone; otherwise both stages in order, names stripped; a result is never empty |
| OverpassFetch.CombineBodyOfWater | Jetlag_Map_Maker_V2.2/poi/overpass_fetch.py:324-343 | None exactly when there are no water points and the lines failed; otherwise the points followed by the lines |
| OverpassFetch.LineRowsStripped | Jetlag_Map_Maker_V2.2/poi/overpass_fetch.py:504-521 | every row of a line answer has a stripped name and one of the asked-for kinds |
| OverpassFetch.LinesResultRows | Jetlag_Map_Maker_V2.2/poi/overpass_fetch.py:446-568 | a line stage that answers yields only rows with stripped names and the asked-for kinds |
| OverpassFetch.CombineConcatenates | Jetlag_Map_Maker_V2.2/poi/overpass_fetch.py:589-606 | when both stages' names are clean, combining is plain concatenation, and each part keeps its own kinds |
| OverpassFetch.WaterLinesConcatenate | Jetlag_Map_Maker_V2.2/poi/overpass_fetch.py:573-606 | the water lines are None exactly when stage 1 failed or was empty; otherwise they are the rivers and canals followed by the streams, if that stage answered |
| OverpassFetch.PoiRowsNamed | Jetlag_Map_Maker_V2.2/poi/overpass_fetch.py:170-287 | every row the POI pass collects has a usable name |
| OverpassFetch.RankedWorkNames | Jetlag_Map_Maker_V2.2/poi/filters.py:184-189 | filling beds and sorting keeps every row's name, so a table of named rows stays named |
| OverpassFetch.VisitAnswer | Jetlag_Map_Maker_V2.2/poi/overpass_fetch.py:272-287 | visiting the nodes, then the ways, then the relations collects exactly the rows of all features in that order |
| OverpassFetch.FetchGeneric | Jetlag_Map_Maker_V2.2/poi/overpass_fetch.py:146-291 | the generic query's rows come from the first mirror that answers; None when every mirror failed or nothing was kept; at most one attempt per mirror |
| OverpassFetch.FetchWaterPoints | Jetlag_Map_Maker_V2.2/poi/overpass_fetch.py:346-434 | the still-water query's rows come from the first mirror that answers; None when all failed or nothing was named |
| OverpassFetch.FetchLinesForKinds | Jetlag_Map_Maker_V2.2/poi/overpass_fetch.py:446-568 | the rows from the first answer of the two rounds, which may be empty; None when every attempt failed; the sleeps follow the backoff ladder |
| OverpassFetch.FetchWaterLines | Jetlag_Map_Maker_V2.2/poi/overpass_fetch.py:436-606 | the two stages combined by the stage rules; the streams are not asked for when stage 1 failed or gave nothing |
| OverpassFetch.FetchBodyOfWater | Jetlag_Map_Maker_V2.2/poi/overpass_fetch.py:324-343 | points first, then lines, combined by the body-of-water rules |
| OverpassFetch.FetchCoastline | Jetlag_Map_Maker_V2.2/poi/overpass_fetch.py:607-701 | the coastline rows of the first mirror that answers; None when all failed or no way had a usable geometry |
| OverpassFetch.FetchPois | Jetlag_Map_Maker_V2.2/poi/overpass_fetch.py:94-318 | None without an area or without mirrors; otherwise water types go to the water fetch, coastline to the coastline fetch, and other types get the generic rows; for hospitals, the merged hospitals are the ranked table read at strictly increasing indices starting at row 0, pairwise farther apart than 500 m, every dropped row within 500 m of an earlier kept one; every row of the table is kept or near a kept one, and all are named |
| OverpassFetch.FetchArea | Jetlag_Map_Maker_V2.2/poi/overpass_fetch.py:122-308 | the dispatch once the area and type key are known: water, coastline or the generic branch; for hospitals, the merged hospitals are the ranked table read at strictly increasing indices starting at row 0, pairwise farther apart than 500 m, every dropped row within 500 m of an earlier kept one; every row of the table is kept or near a kept one, and all are named |
| OverpassFetch.GenericResultNamed | Jetlag_Map_Maker_V2.2/poi/overpass_fetch.py:170-291 | every row of a generic result has a usable name |
| OverpassFetch.FetchGenericRoute | Jetlag_Map_Maker_V2.2/poi/overpass_fetch.py:289-308 | a result exactly when the generic fetch found rows; non-hospital rows come through the name filter unchanged; for hospitals, the merged hospitals are the ranked table read at strictly increasing indices starting at row 0, pairwise farther apart than 500 m, every dropped row within 500 m of an earlier kept one; every row of the table is kept or near a kept one, and all are named |
| OverpassFetch.MergeHospitals | Jetlag_Map_Maker_V2.2/poi/overpass_fetch.py:295-304 | the merged hospitals are the ranked table read at strictly increasing indices starting at row 0, pairwise farther apart than 500 m, every dropped row within 500 m of an earlier kept one; every row of the table is kept or near a kept one, and all are named |
| OverpassFetch.MergedIsHospitalsMerged | Jetlag_Map_Maker_V2.2/poi/filters.py:191-212 | the merge as an index selection (increasing indices from row 0, kept rows far apart, each dropped row near an earlier kept one) implies the row-level statement: kept rows come from the table, are pairwise far apart, and every row is kept or near a kept one |
| Dedup.ScanRowsShape | Jetlag_Map_Maker_V2.2/screens/shared/dedup.py:64-74 | over one table, kept plus removed equals the number of rows; the kept rows are an increasing selection, and their positions extend the kept points in order |
| Dedup.ScanRowsKeptFar | Jetlag_Map_Maker_V2.2/screens/shared/dedup.py:67-74 | a row is kept only when no point kept before it is within the threshold in a neighbouring cell |
| Dedup.ScanRowsRemovedNear | Jetlag_Map_Maker_V2.2/screens/shared/dedup.py:67-72 | a removed row has a close kept point, kept either before the table or from an earlier row of the same table |
| Dedup.Pick | Jetlag_Map_Maker_V2.2/screens/shared/dedup.py:76 | `iloc[keep_rows]`: the rows at the kept indices, in order |
| Dedup.TooCloseToKept | Jetlag_Map_Maker_V2.2/screens/shared/dedup.py:41-49 | scanning the nine cells around the point through the grid answers exactly whether some kept point is close |
| Dedup.AddKept | Jetlag_Map_Maker_V2.2/screens/shared/dedup.py:51-55 | the point is appended to the kept points and the grid still indexes every kept point by its cell |
| Dedup.DedupTable | Jetlag_Map_Maker_V2.2/screens/shared/dedup.py:64-76 | the row loop for one table computes exactly the specified scan and keeps the grid consistent |
| Dedup.CategoryPass | Jetlag_Map_Maker_V2.2/screens/shared/dedup.py:59-76 | a pass keeps the category names and adds a removed count only for a present table |
| Dedup.DedupUpTo | Jetlag_Map_Maker_V2.2/screens/shared/dedup.py:57-76 | the category loop keeps every table key and always has a count for each of the four categories |
| Dedup.CategoriesDistinct | Jetlag_Map_Maker_V2.2/screens/shared/dedup.py:19 | the four priority categories are distinct |
| Dedup.DedupUpToFrame | Jetlag_Map_Maker_V2.2/screens/shared/dedup.py:59-62 | categories not yet reached are untouched, with a zero count and no picks |
| Dedup.DedupUpToTables | Jetlag_Map_Maker_V2.2/screens/shared/dedup.py:59-76 | each reached present table becomes the rows at its picked indices, with kept plus removed equal to its length; an absent or empty table is left as it was with a count of 0 |
| Dedup.DedupUpToKept | Jetlag_Map_Maker_V2.2/screens/shared/dedup.py:53 | every kept point is the position of a picked row of an earlier category |
| Dedup.DedupStep | Jetlag_Map_Maker_V2.2/screens/shared/dedup.py:59-76 | a present category is scanned against the points kept by earlier categories, and its picks are not changed by later ones |
| Dedup.DedupRemovedNearKept | Jetlag_Map_Maker_V2.2/screens/shared/dedup.py:41-49 | a removed stop lies within the threshold, in a neighbouring cell, of a stop kept in a category of the same or higher priority, and an earlier row when it is the same category |
| Dedup.ScanRowsSpread | Jetlag_Map_Maker_V2.2/screens/shared/dedup.py:70-74 | scanning a table keeps the kept points pairwise not close |
| Dedup.DedupUpToSpread | Jetlag_Map_Maker_V2.2/screens/shared/dedup.py:59-76 | after any number of categories no kept stop is close to a stop kept before it |
| Dedup.PicksStable | Jetlag_Map_Maker_V2.2/screens/shared/dedup.py:59-76 | the picks of a category do not change once later categories run |
| Dedup.DedupUpToAllAbsent | Jetlag_Map_Maker_V2.2/screens/shared/dedup.py:21-24 | with no present table the loop changes nothing |
| Dedup.DeduplicateAllByPriority | Jetlag_Map_Maker_V2.2/screens/shared/dedup.py:15-79 | a threshold of 0 or less, or no present table, gives zero counts and unchanged tables; otherwise the new tables and counts are those of the category loop, and the total is the sum of the four counts |
| Dedup.AnyPresent | Jetlag_Map_Maker_V2.2/screens/shared/dedup.py:21-24 | when no category holds a non-empty table it says so |
| Dedup.DedupCategories | Jetlag_Map_Maker_V2.2/screens/shared/dedup.py:57-76 | the loop over the categories, with one grid, ends in the specified state |
| OsmFetcher.ParsePoint | Jetlag_Map_Maker_V2.2/osm_fetcher.py:39-40 | a point reads exactly when the text splits on commas into two fields that each read as a number, and then it is those two numbers |
| OsmFetcher.SpanBoxBounds | Jetlag_Map_Maker_V2.2/osm_fetcher.py:42-47 | the stored box is ordered, contains both corners, and each edge is one of the corners' coordinates |
| OsmFetcher.SavedBox | Jetlag_Map_Maker_V2.2/osm_fetcher.py:34-50 | a box is stored exactly when both entries read as points |
| OsmFetcher.SavedBoxOrdered | Jetlag_Map_Maker_V2.2/osm_fetcher.py:42-47 | a stored box always has south at most north and west at most east |
| OsmFetcher.SavedBoxSymmetric | Jetlag_Map_Maker_V2.2/osm_fetcher.py:42-47 | swapping the two entries stores the same box |
| OsmFetcher.SpanOfOrdered | Jetlag_Map_Maker_V2.2/osm_fetcher.py:42-47 | an ordered box is the span of its own south-west and north-east corners, so saving it again changes nothing |
| OsmFetcher.SaveBoundingBox | Jetlag_Map_Maker_V2.2/osm_fetcher.py:34-50 | returns True exactly when both entries read, and then stores their span; on False the stored box is unchanged |
| OsmFetcher.StopRows | Jetlag_Map_Maker_V2.2/osm_fetcher.py:83-88 | one stop per node, in order, with the name tag or "Unnamed", the type name and the node's position |
| OsmFetcher.Attempts | Jetlag_Map_Maker_V2.2/osm_fetcher.py:74-108 | a single pass makes at most one attempt per mirror |
| OsmFetcher.FetchResultFacts | Jetlag_Map_Maker_V2.2/osm_fetcher.py:74-100 | rows come back exactly when some mirror answered and its answer held nodes, and they are that answer's stops in order |
| OsmFetcher.FetchNodes | Jetlag_Map_Maker_V2.2/osm_fetcher.py:74-111 | the mirror loop returns the first answer's stops and stores them in all_data, marking dedup invalid; on no rows it returns None and leaves the store alone |
| OsmFetcher.FetchOsmData | Jetlag_Map_Maker_V2.2/osm_fetcher.py:53-111 | an unreadable box leaves the stored box alone and returns None without any attempt; otherwise the box is stored, the fetch runs on it, and a result is stored under the type name with dedup marked invalid |
| BoundaryDraw.BBoxCorners | Jetlag_Map_Maker_V2.2/poi/boundary_draw.py:4-11 | five corners starting and ending at the north-west one, each a corner of the box, each step moving along one edge |
| BoundaryDraw.OutlineBoundsAreBox | Jetlag_Map_Maker_V2.2/poi/boundary_draw.py:5-11 | the min/max bounds of the five-corner outline of an ordered box are that box, so fitting the view to the drawn outline fits it to the box |
| BoundaryDraw.DrawWith | Jetlag_Map_Maker_V2.2/poi/boundary_draw.py:12-16 | at most one shape; none exactly when the widget has neither set_path nor set_polygon; set_path is preferred, and the shape carries the given points |
| BoundaryDraw.DrawBBox | Jetlag_Map_Maker_V2.2/poi/boundary_draw.py:3-16 | the box outline is drawn with the first drawing call the widget offers, or not at all |
| BoundaryDraw.Tokens | Jetlag_Map_Maker_V2.2/poi/boundary_draw.py:25-26 | each token read by `float`, with None where it raises |
| BoundaryDraw.Pairs | Jetlag_Map_Maker_V2.2/poi/boundary_draw.py:24-27 | an even list of read tokens gives half as many pairs |
| BoundaryDraw.PairsAt | Jetlag_Map_Maker_V2.2/poi/boundary_draw.py:24-27 | pair k is (token 2k, token 2k+1) |
| BoundaryDraw.PairsNoneIff | Jetlag_Map_Maker_V2.2/poi/boundary_draw.py:25-26 | reading the pairs fails exactly when some token does not read |
| BoundaryDraw.PairsPrefixNone | Jetlag_Map_Maker_V2.2/poi/boundary_draw.py:24-27 | a failure early in the list fails the whole read |
| Common.CloseRing | Jetlag_Map_Maker_V2.2/poi/boundary_draw.py:28-29 | the ring is kept as a prefix, the closing point is appended exactly when the first and last points differ, and a non-empty result is closed; the GeoJSON ring of points_of_interest.py:96-97 is closed by the same function |
| Common.CloseRingIdempotent | Jetlag_Map_Maker_V2.2/poi/boundary_draw.py:28-29 | closing a closed ring changes nothing |
| BoundaryDraw.ClosedPairsShape | Jetlag_Map_Maker_V2.2/poi/boundary_draw.py:23-30 | the closed ring of six or more tokens is closed and starts with the token pairs in order |
| BoundaryDraw.RingOfPartsShape | Jetlag_Map_Maker_V2.2/poi/boundary_draw.py:20-30 | [] exactly for fewer than six or an odd number of tokens; a raise only for six or more, even; otherwise a closed ring beginning with the token pairs, one point longer when the input was open |
| BoundaryDraw.PolyRingShape | Jetlag_Map_Maker_V2.2/poi/boundary_draw.py:19-30 | the same statement for the polygon string, stripped and split on whitespace |
| BoundaryDraw.ReadPairs | Jetlag_Map_Maker_V2.2/poi/boundary_draw.py:23-27 | the pair loop reads exactly the specified pairs and stops at the first token that does not read |
| BoundaryDraw.PolyStringToRing | Jetlag_Map_Maker_V2.2/poi/boundary_draw.py:19-30 | the method returns exactly the specified ring |
| BoundaryDraw.DrawPoly | Jetlag_Map_Maker_V2.2/poi/boundary_draw.py:33-41 | raises exactly when reading the ring raises; an empty ring draws nothing; a drawn shape carries the ring |
| BoundaryDraw.SeqMin | Jetlag_Map_Maker_V2.2/poi/boundary_draw.py:53-54 | `min` of a non-empty list is one of its elements |
| BoundaryDraw.SeqMinLeast | Jetlag_Map_Maker_V2.2/poi/boundary_draw.py:53-54 | `min` is at most every element |
| BoundaryDraw.SeqMax | Jetlag_Map_Maker_V2.2/poi/boundary_draw.py:53-54 | `max` of a non-empty list is one of its elements |
| BoundaryDraw.SeqMaxGreatest | Jetlag_Map_Maker_V2.2/poi/boundary_draw.py:53-54 | `max` is at least every element |
| BoundaryDraw.Lats | Jetlag_Map_Maker_V2.2/poi/boundary_draw.py:51 | the latitudes of the ring, in order |
| BoundaryDraw.Lons | Jetlag_Map_Maker_V2.2/poi/boundary_draw.py:52 | the longitudes of the ring, in order |
| BoundaryDraw.RingBounds | Jetlag_Map_Maker_V2.2/poi/boundary_draw.py:51-54 | every edge of the bounds is attained by some point of the ring |
| BoundaryDraw.RingBoundsHold | Jetlag_Map_Maker_V2.2/poi/boundary_draw.py:51-54 | the bounds are ordered and hold every point of the ring, so together with RingBounds they are the least such box |
| BoundaryDraw.AreaToFit | Jetlag_Map_Maker_V2.2/poi/boundary_draw.py:44-62 | a polygon whose ring reads wins; a polygon that raises raises; otherwise bound_box, then saved_bound_box, else nothing |
| BoundaryDraw.ViewCalls | Jetlag_Map_Maker_V2.2/poi/boundary_draw.py:55-59 | fit_bounding_box from the north-west to the south-east corner when the widget has it; otherwise centre on the middle of the box and set the default zoom |
| BoundaryDraw.FitToArea | Jetlag_Map_Maker_V2.2/poi/boundary_draw.py:44-68 | raises exactly when the polygon's ring raises, makes no call exactly when there is no area, and otherwise makes the fit-or-centre view calls of the area's box |
| OsmRegions.RingToLatLon | Jetlag_Map_Maker_V2.2/screens/shared/osm_regions.py:50-52 | every [lon, lat] position becomes (lat, lon), in order |
| OsmRegions.RingToLonLat | Jetlag_Map_Maker_V2.2/screens/shared/osm_regions.py:50-52 | the conversion back to GeoJSON order keeps the length |
| OsmRegions.RingRoundTrip | Jetlag_Map_Maker_V2.2/screens/shared/osm_regions.py:50-52 | converting to (lat, lon) and back gives the original positions |
| OsmRegions.OuterRings | Jetlag_Map_Maker_V2.2/screens/shared/osm_regions.py:58-62 | at most one ring per member polygon |
| OsmRegions.OuterRingsFrom | Jetlag_Map_Maker_V2.2/screens/shared/osm_regions.py:60-62 | every ring is the converted exterior of some member polygon, and none is empty |
| OsmRegions.OuterRingsAll | Jetlag_Map_Maker_V2.2/screens/shared/osm_regions.py:60-62 | when every member polygon has a non-empty exterior, there is exactly one ring per member, in order |
| OsmRegions.GeojsonToLatLonRings | Jetlag_Map_Maker_V2.2/screens/shared/osm_regions.py:37-64 | no geometry or another type gives no rings; a Polygon gives its converted exterior, if any; a MultiPolygon gives the exteriors its loop collects |
| AppConfig.Config.constructor | Jetlag_Map_Maker_V2.2/config.py:26-53 | the starting state: no boxes, no polygon, the five default mirrors, four unfetched transit categories, dedup not valid, no export path |
| MapCanvas.RemoveAll | Jetlag_Map_Maker_V2.2/screens/shared/map_markers.py:57-60 | deleting a list of handles leaves exactly the other objects, unchanged |
| MapCanvas.RemoveAllSnoc | Jetlag_Map_Maker_V2.2/screens/shared/map_markers.py:57-60 | deleting one more handle removes exactly that handle |
| MapCanvas.Canvas.constructor | Jetlag_Map_Maker_V2.2/screens/shared/map_markers.py:46 | a new map shows no objects |
| MapCanvas.Canvas.Add | Jetlag_Map_Maker_V2.2/screens/shared/map_markers.py:81-95 | `set_marker` and `set_path` add the object under a handle never used before, and change nothing else |
| MapCanvas.Canvas.Delete | Jetlag_Map_Maker_V2.2/screens/shared/map_markers.py:57-60 | `delete()` removes exactly that object |
| MapCanvas.Canvas.SetText | Jetlag_Map_Maker_V2.2/screens/points_of_interest.py:205-208 | `set_text` changes only the text of that marker |
| KmlMerge.HexVal | Jetlag_Map_Maker_V2.2/poi/kml_merge.py:29-31 | a hex digit has a value below 16 |
| KmlMerge.HexNat | Jetlag_Map_Maker_V2.2/poi/kml_merge.py:32 | hex digits of a number: at least one digit, and at least two from 16 up |
| KmlMerge.HexPair | Jetlag_Map_Maker_V2.2/poi/kml_merge.py:29-31 | `int(s, 16)` on a two-character slice, when it does not raise, lies between -15 and 255 |
| KmlMerge.CharsEnd | Jetlag_Map_Maker_V2.2/poi/kml_merge.py:26 | the first index from i on that does not hold the character; everything before it from i does |
| KmlMerge.TrimLeftCharFacts | Jetlag_Map_Maker_V2.2/poi/kml_merge.py:26 | `lstrip("#")` leaves a suffix that does not start with '#', having dropped only '#' characters |
| KmlMerge.HexCharLower | Jetlag_Map_Maker_V2.2/poi/kml_merge.py:32 | a hex digit read and written back is the digit lower-cased |
| KmlMerge.HexPairDigits | Jetlag_Map_Maker_V2.2/poi/kml_merge.py:32 | `f"{v:02x}"` of 16x + y is the two digits x and y |
| KmlMerge.HexByteRoundTrip | Jetlag_Map_Maker_V2.2/poi/kml_merge.py:29-32 | two hex digits read as a byte format back as the digits, lower-cased |
| KmlMerge.HexSliceRoundTrip | Jetlag_Map_Maker_V2.2/poi/kml_merge.py:29-32 | the same for a two-character slice of a longer text |
| KmlMerge.KmlColorFallback | Jetlag_Map_Maker_V2.2/poi/kml_merge.py:26-28 | text that is not six characters long after strip and lstrip("#") gives opaque red "ff0000ff" |
| KmlMerge.KmlColor | Jetlag_Map_Maker_V2.2/poi/kml_merge.py:24-32 | the conversion raises only for six-character text, and with an alpha byte always gives eight characters |
| KmlMerge.FormatHex2Length | Jetlag_Map_Maker_V2.2/poi/kml_merge.py:29-32 | every value two hex characters can give, and every alpha byte, prints as two characters |
| KmlMerge.TrimmedColorDigits | Jetlag_Map_Maker_V2.2/poi/kml_merge.py:29-32 | six hex digits RRGGBB become the alpha, then BB, GG, RR, lower-cased |
| KmlMerge.KmlColorDigits | Jetlag_Map_Maker_V2.2/poi/kml_merge.py:24-32 | the "#RRGGBB" to "AABBGGRR" conversion, stated on the original text |
| KmlMerge.WithoutFolder | Jetlag_Map_Maker_V2.2/poi/kml_merge.py:43-48 | removing folders never adds children |
| KmlMerge.WithoutFolderMembers | Jetlag_Map_Maker_V2.2/poi/kml_merge.py:43-48 | exactly the top-level folders whose trimmed name matches are removed; every other child stays |
| KmlMerge.WithoutFolderNone | Jetlag_Map_Maker_V2.2/poi/kml_merge.py:43-48 | a document without such a folder is left as it is, order included |
| KmlMerge.StyleCountPositive | Jetlag_Map_Maker_V2.2/poi/kml_merge.py:53-55 | some Style child has the id exactly when the count of such children is positive |
| KmlMerge.WithStyleOnce | Jetlag_Map_Maker_V2.2/poi/kml_merge.py:51-72 | ensuring a style twice is ensuring it once; afterwards the style exists, and an id is never added twice |
| KmlMerge.CoordTexts | Jetlag_Map_Maker_V2.2/poi/kml_merge.py:97 | one "lon,lat,0" text per point, in path order |
| KmlMerge.LinePlacemark | Jetlag_Map_Maker_V2.2/poi/kml_merge.py:85-98 | a line placemark exists exactly for two or more points, and it carries the name and that path |
| KmlMerge.ReadEachAt | Jetlag_Map_Maker_V2.2/poi/kml_merge.py:97 | reading the entries one by one reads entry k as itself |
| KmlMerge.AllSomeOf | Jetlag_Map_Maker_V2.2/poi/kml_merge.py:97 | entries that all read give the list of their points |
| KmlMerge.NoSpaceInFormat | Jetlag_Map_Maker_V2.2/poi/kml_merge.py:97 | a number written by `str` holds no space |
| KmlMerge.SplitCoord | Jetlag_Map_Maker_V2.2/poi/kml_merge.py:82 | "a,b,0" splits on commas into a, b and "0" when neither part holds a comma |
| KmlMerge.ReadCoordOf | Jetlag_Map_Maker_V2.2/poi/kml_merge.py:82 | "lon,lat,0" reads back as the point (lat, lon) |
| KmlMerge.CoordTextRoundTrip | Jetlag_Map_Maker_V2.2/poi/kml_merge.py:82 | one point's coordinates text reads back as the point, and holds no space |
| KmlMerge.ReadCoordListAll | Jetlag_Map_Maker_V2.2/poi/kml_merge.py:97 | a list of entries that each read back reads back as the list of their points |
| KmlMerge.LineCoordsRoundTrip | Jetlag_Map_Maker_V2.2/poi/kml_merge.py:97 | the coordinates text of a line reads back as its path, point by point, in order |
| KmlMerge.RowPlacemarkRouting | Jetlag_Map_Maker_V2.2/poi/kml_merge.py:149-171 | a row with a Geometry of two or more points becomes a line in the shared line style; any other row with a position becomes a point in the table's icon style; a row with neither gives nothing |
| KmlMerge.RowNamesNonEmpty | Jetlag_Map_Maker_V2.2/poi/kml_merge.py:150-171 | when the table name is non-empty every written name is: a blank row name falls back to the table name for points and to "tname kind" for lines |
| KmlMerge.LineNameNonEmpty | Jetlag_Map_Maker_V2.2/poi/kml_merge.py:157-158 | the line name fallback is never empty |
| KmlMerge.TypeItems | Jetlag_Map_Maker_V2.2/poi/kml_merge.py:149-171 | at most one placemark per row, all placemarks |
| KmlMerge.TopItems | Jetlag_Map_Maker_V2.2/poi/kml_merge.py:128-133 | at most one type folder per table |
| KmlMerge.TopItemsFrom | Jetlag_Map_Maker_V2.2/poi/kml_merge.py:128-171 | each type folder is named after a non-empty table and holds that table's placemarks |
| KmlMerge.FolderOfTable | Jetlag_Map_Maker_V2.2/poi/kml_merge.py:132-171 | the folder of a table with rows is its type folder |
| KmlMerge.TopItemsAll | Jetlag_Map_Maker_V2.2/poi/kml_merge.py:128-133 | when every table has rows there is one type folder per table, in order |
| KmlMerge.AddType | Jetlag_Map_Maker_V2.2/poi/kml_merge.py:128-171 | one table's step keeps the top folder in place |
| KmlMerge.AddTypes | Jetlag_Map_Maker_V2.2/poi/kml_merge.py:128-171 | the loop keeps the top folder in place |
| KmlMerge.AddTypeKeeps | Jetlag_Map_Maker_V2.2/poi/kml_merge.py:132-143 | one table's step changes only the top folder and may append its icon style |
| KmlMerge.AddTypesKeeps | Jetlag_Map_Maker_V2.2/poi/kml_merge.py:128-171 | the whole loop changes only the top folder and appends only styles |
| KmlMerge.AddTypesTop | Jetlag_Map_Maker_V2.2/poi/kml_merge.py:128-171 | the top folder ends up holding exactly the type folders, in table order |
| KmlMerge.MergeBase | Jetlag_Map_Maker_V2.2/poi/kml_merge.py:118-125 | before the type loop the document ends with the empty top folder |
| KmlMerge.MergeBaseFails | Jetlag_Map_Maker_V2.2/poi/kml_merge.py:121 | without a line style and with a colour that does not convert, the merge raises |
| KmlMerge.MergeBaseFacts | Jetlag_Map_Maker_V2.2/poi/kml_merge.py:118-125 | before the top folder: no folder of that name, the line style present, and the old children without the replaced folders as a prefix |
| KmlMerge.MergedShape | Jetlag_Map_Maker_V2.2/poi/kml_merge.py:101-171 | after the merge exactly one top-level folder has the top name, it holds one folder per non-empty table, the line style exists, and the document starts with its old children minus the replaced folders, in their order |
| KmlMerge.KmlDocument.RemoveExistingFolder | Jetlag_Map_Maker_V2.2/poi/kml_merge.py:43-48 | the document's children become the children without the matching folders |
| KmlMerge.KmlDocument.EnsureStyleIcon | Jetlag_Map_Maker_V2.2/poi/kml_merge.py:51-61 | the icon style is appended only when no style has that id |
| KmlMerge.KmlDocument.EnsureStyleLine | Jetlag_Map_Maker_V2.2/poi/kml_merge.py:64-72 | fails only when the style is missing and the colour raises; an existing style leaves the document alone; otherwise the line style is appended |
| KmlMerge.KmlDocument.TypeFolder | Jetlag_Map_Maker_V2.2/poi/kml_merge.py:132-171 | the row loop builds the type folder with exactly the specified placemarks |
| KmlMerge.KmlDocument.AddTypeFolders | Jetlag_Map_Maker_V2.2/poi/kml_merge.py:128-171 | the loop over the tables produces exactly the specified document |
| KmlMerge.KmlDocument.MergePois | Jetlag_Map_Maker_V2.2/poi/kml_merge.py:114-171 | succeeds exactly when the specified merge does, and then the document is the merged one; on failure the old folder is already gone |
| HidingZones.ParseLatLon | Jetlag_Map_Maker_V2.2/screens/shared/hiding_zones.py:5-10 | a point reads only when the stripped text, with commas as blanks, splits into exactly two words |
| HidingZones.FormatEnds | Jetlag_Map_Maker_V2.2/screens/shared/hiding_zones.py:5-10 | a number written by `str` is non-empty and holds no blank and no comma |
| HidingZones.SeparatedText | Jetlag_Map_Maker_V2.2/screens/shared/hiding_zones.py:6-7 | two such words around blanks and commas split back into exactly those two words |
| HidingZones.ParseLatLonRoundTrip | Jetlag_Map_Maker_V2.2/screens/shared/hiding_zones.py:5-10 | "lat lon", "lat, lon" and similar texts read back as the point |
| HidingZones.ParseLatLonWordCount | Jetlag_Map_Maker_V2.2/screens/shared/hiding_zones.py:8-9 | text that is not exactly two words once commas are blanks is refused |
| HidingZones.CityPoints | Jetlag_Map_Maker_V2.2/screens/shared/hiding_zones.py:180-193 | blank entries are skipped and at most one point is read per entry |
| HidingZones.ReadCityPoints | Jetlag_Map_Maker_V2.2/screens/shared/hiding_zones.py:182-193 | the entry loop reads exactly the specified points, stopping at the first entry that does not parse |
| HidingZones.CityPointsFailPrefix | Jetlag_Map_Maker_V2.2/screens/shared/hiding_zones.py:186-193 | an entry that does not parse makes the whole run fail, whatever follows |
| HidingZones.CirclePts | Jetlag_Map_Maker_V2.2/screens/shared/hiding_zones.py:22-40 | no points exactly for a radius of 0 or less or a zero longitude scale; otherwise segments + 1 points |
| HidingZones.CirclePoints | Jetlag_Map_Maker_V2.2/screens/shared/hiding_zones.py:22-40 | the loop returns exactly the specified points, point i being the i-th of the segments |
| HidingZones.SegmentsFor | Jetlag_Map_Maker_V2.2/screens/shared/hiding_zones.py:43-48 | 18 segments up to 200 m, 24 up to 600 m, 32 above |
| HidingZones.SegmentsMonotone | Jetlag_Map_Maker_V2.2/screens/shared/hiding_zones.py:43-48 | larger circles get at least as many segments |
| HidingZones.ZoneShape | Jetlag_Map_Maker_V2.2/screens/shared/hiding_zones.py:42-58 | a shape exactly when the circle has points and the widget can draw a path or a polygon; it carries the circle's points |
| HidingZones.DrawHidingZone | Jetlag_Map_Maker_V2.2/screens/shared/hiding_zones.py:42-58 | the method draws exactly the specified shape |
| HidingZones.ZoneRadiusChoice | Jetlag_Map_Maker_V2.2/screens/shared/hiding_zones.py:204-209 | the small radius exactly when smaller zones are on, there are city points, the small radius and the limit are positive, and some city point is within the limit; otherwise the large radius |
| HidingZones.NearCity | Jetlag_Map_Maker_V2.2/screens/shared/hiding_zones.py:206-209 | the search with its break finds a city point within the limit exactly when there is one |
| HidingZones.TableZones | Jetlag_Map_Maker_V2.2/screens/shared/hiding_zones.py:200-214 | at most one zone per row |
| HidingZones.TableZonesSnoc | Jetlag_Map_Maker_V2.2/screens/shared/hiding_zones.py:200-214 | one more row adds its zone, if the row has one |
| HidingZones.CreatedZonesRun | Jetlag_Map_Maker_V2.2/screens/shared/hiding_zones.py:169-214 | with a positive large radius and the city points read, the run makes the zones of the four categories in order |
| HidingZones.TableZonesSound | Jetlag_Map_Maker_V2.2/screens/shared/hiding_zones.py:200-214 | every zone belongs to one of the table's stops, has the radius chosen for that stop, is positive, and was drawn |
| HidingZones.TableZonesComplete | Jetlag_Map_Maker_V2.2/screens/shared/hiding_zones.py:211-214 | one zone per stop whenever the circle can be drawn at every stop |
| HidingZones.ZonesUpToCount | Jetlag_Map_Maker_V2.2/screens/shared/hiding_zones.py:195-214 | at most one zone per stop across the categories |
| HidingZones.CreatedZonesBounds | Jetlag_Map_Maker_V2.2/screens/shared/hiding_zones.py:169-214 | no zone without a positive large radius or when a city point does not parse, and never more zones than stops |
| HidingZones.ZoneLayer.constructor | Jetlag_Map_Maker_V2.2/screens/shared/hiding_zones.py:61-62 | a new layer holds no shapes and no zone data |
| HidingZones.ZoneLayer.Clear | Jetlag_Map_Maker_V2.2/screens/shared/hiding_zones.py:64-71 | clearing empties both lists |
| HidingZones.ZoneLayer.AppendZone | Jetlag_Map_Maker_V2.2/screens/shared/hiding_zones.py:212-214 | a drawn shape and its data are appended together |
| HidingZones.ZoneLayer.AddRowZone | Jetlag_Map_Maker_V2.2/screens/shared/hiding_zones.py:201-214 | a row adds its shape and zone when it has one, and nothing otherwise |
| HidingZones.ZoneLayer.AddTableZones | Jetlag_Map_Maker_V2.2/screens/shared/hiding_zones.py:200-214 | the row loop appends exactly the table's zones |
| HidingZones.ZoneLayer.AddAllTables | Jetlag_Map_Maker_V2.2/screens/shared/hiding_zones.py:195-214 | the category loop produces exactly the zones of the four categories in order |
| HidingZones.ZoneLayer.CreateHidingZones | Jetlag_Map_Maker_V2.2/screens/shared/hiding_zones.py:169-214 | after the run the zone data is exactly the specified zones, and every shape is the drawing of its zone |
| MapMarkers.LabelHandles | Jetlag_Map_Maker_V2.2/screens/shared/map_markers.py:11 | the label handles are exactly the map's objects that are labels |
| MapMarkers.AtMostOneLabel | Jetlag_Map_Maker_V2.2/screens/shared/map_markers.py:18-54 | the single label slot keeps at most one label on the map, and exactly one while the slot is set |
| MapMarkers.LabelLatValue | Jetlag_Map_Maker_V2.2/screens/shared/map_markers.py:45-47 | the label sits 0.00035 degrees north of the clicked stop |
| MapMarkers.OffsetSum | Jetlag_Map_Maker_V2.2/screens/shared/map_markers.py:45-47 | adding 35/100000 to a decimal fraction adds that value |
| MapMarkers.PlotCount | Jetlag_Map_Maker_V2.2/screens/shared/map_markers.py:77-99 | never more markers than rows |
| MapMarkers.PlotCountBounds | Jetlag_Map_Maker_V2.2/screens/shared/map_markers.py:72-99 | min(rows, limit) markers when the limit is at least one; some marker exactly when there are rows, since the count is compared only after a marker is added |
| MapMarkers.Handles | Jetlag_Map_Maker_V2.2/screens/shared/map_markers.py:96 | k handles, consecutive from the first |
| MapMarkers.HandlesSnoc | Jetlag_Map_Maker_V2.2/screens/shared/map_markers.py:96 | one more marker takes the next handle |
| MapMarkers.PlacedFacts | Jetlag_Map_Maker_V2.2/screens/shared/map_markers.py:78-96 | the placed handles carry the rows' markers in row order, and every other object is untouched |
| MapMarkers.PlacedSnoc | Jetlag_Map_Maker_V2.2/screens/shared/map_markers.py:78-96 | one more row places its marker at the next handle |
| MapMarkers.AddMarkerKeeps | Jetlag_Map_Maker_V2.2/screens/shared/map_markers.py:81-96 | adding a stop marker under a fresh handle keeps the single label and the marker lists sound |
| MapMarkers.MarkerStore.constructor | Jetlag_Map_Maker_V2.2/screens/shared/map_markers.py:4-16 | four empty marker lists, no label and nothing waiting |
| MapMarkers.MarkerStore.DeleteLabelMarker | Jetlag_Map_Maker_V2.2/screens/shared/map_markers.py:18-24 | the label, if any, leaves the map; the slot is empty and nothing else changes |
| MapMarkers.MarkerStore.ScheduleClearLabel | Jetlag_Map_Maker_V2.2/screens/shared/map_markers.py:26-33 | a waiting callback is replaced by the one clearing the label |
| MapMarkers.MarkerStore.ScheduleShowLabel | Jetlag_Map_Maker_V2.2/screens/shared/map_markers.py:35-54 | a waiting callback is replaced by the one showing this stop's label |
| MapMarkers.MarkerStore.ClickMarker | Jetlag_Map_Maker_V2.2/screens/shared/map_markers.py:64-67 | clicking a stop marker schedules that stop's label; clicking anything else changes nothing |
| MapMarkers.MarkerStore.RunPending | Jetlag_Map_Maker_V2.2/screens/shared/map_markers.py:43-54 | showing replaces the old label with one new label at the offset position; clearing leaves no label; nothing waiting changes nothing |
| MapMarkers.MarkerStore.ClearMarkers | Jetlag_Map_Maker_V2.2/screens/shared/map_markers.py:56-62 | the type's markers leave the map and its list is emptied; an unknown type gets an empty list |
| MapMarkers.MarkerStore.PlotPoints | Jetlag_Map_Maker_V2.2/screens/shared/map_markers.py:69-99 | after clearing the type, its list is the new handles of PlotCount markers placed in row order; a missing or empty table places none |
| MapMarkers.MarkerStore.AddStopMarker | Jetlag_Map_Maker_V2.2/screens/shared/map_markers.py:79-96 | one marker at the next handle, appended to the type's list |
| MapMarkers.MarkerStore.AddStopMarkers | Jetlag_Map_Maker_V2.2/screens/shared/map_markers.py:77-99 | the row loop places exactly PlotCount markers in row order |
| GeoAreaHelpers.AreaKeySameIds | Jetlag_Map_Maker_V2.2/screens/shared/geo_area_helpers.py:50-51 | entries with the same OSM type and id share a key |
| GeoAreaHelpers.AreaKeyShape | Jetlag_Map_Maker_V2.2/screens/shared/geo_area_helpers.py:50-51 | the key is the shown OSM type, a colon, then the shown OSM id |
| GeoAreaHelpers.AreaKeyInjective | Jetlag_Map_Maker_V2.2/screens/shared/geo_area_helpers.py:50-51 | when the type holds no colon, equal keys mean equal type and id |
| GeoAreaHelpers.AddedAreasFacts | Jetlag_Map_Maker_V2.2/screens/shared/geo_area_helpers.py:294-303 | adding selects the item, keeps keys distinct, keeps the earlier entries, adds one entry exactly when the item was not selected, and a second add changes nothing |
| GeoAreaHelpers.RemainingAreas | Jetlag_Map_Maker_V2.2/screens/shared/geo_area_helpers.py:335 | the filter never lengthens the list |
| GeoAreaHelpers.RemainingAreasCount | Jetlag_Map_Maker_V2.2/screens/shared/geo_area_helpers.py:335 | each entry with another key stays as often as it was there; none with the removed key stays |
| GeoAreaHelpers.RemainingAreasMembers | Jetlag_Map_Maker_V2.2/screens/shared/geo_area_helpers.py:335 | exactly the entries with another key remain, with their multiplicities |
| GeoAreaHelpers.RemainingAreasUnselected | Jetlag_Map_Maker_V2.2/screens/shared/geo_area_helpers.py:266-268 | after the removal the item is not selected, and distinct keys stay distinct |
| GeoAreaHelpers.RemainingKeepsDistinct | Jetlag_Map_Maker_V2.2/screens/shared/geo_area_helpers.py:335 | filtering keeps the keys distinct |
| GeoAreaHelpers.DistinctSnoc | Jetlag_Map_Maker_V2.2/screens/shared/geo_area_helpers.py:294-303 | appending an entry with a new key keeps the keys distinct |
| GeoAreaHelpers.RemoveAfterAdd | Jetlag_Map_Maker_V2.2/screens/shared/geo_area_helpers.py:284-338 | removing an item right after adding it leaves the other entries as they were |
| GeoAreaHelpers.RemainingUnselected | Jetlag_Map_Maker_V2.2/screens/shared/geo_area_helpers.py:335 | removing an item that is not selected leaves the list as it is |
| GeoAreaHelpers.FirstNames | Jetlag_Map_Maker_V2.2/screens/shared/geo_area_helpers.py:277 | the first min(n, 3) entries' names, in order, "Unnamed" where there is none |
| GeoAreaHelpers.SelectedSummaryFacts | Jetlag_Map_Maker_V2.2/screens/shared/geo_area_helpers.py:270-282 | no selection disables the button and says so; otherwise the count and the first three names, an extra count exactly when there are more than three, and the button enabled unless the hiding zone is locked |
| GeoAreaHelpers.SelectedSummary | Jetlag_Map_Maker_V2.2/screens/shared/geo_area_helpers.py:270-282 | the button is disabled exactly when nothing is selected; otherwise it is enabled, or left as it is while the hiding zone is locked |
| GeoAreaHelpers.SelectedSummaryAsWritten | Jetlag_Map_Maker_V2.2/screens/shared/geo_area_helpers.py:277-279 | when the line is built it is the corrected one; it is built whenever every entry has a display name, and not when the first entry lacks one |
| GeoAreaHelpers.SummaryRaisesWithoutName | Jetlag_Map_Maker_V2.2/screens/shared/geo_area_helpers.py:277-279 | as written, an entry stored without a display name makes the summary raise, where "Unnamed" was intended |
| GeoAreaHelpers.SummaryAgreesWithNames | Jetlag_Map_Maker_V2.2/screens/shared/geo_area_helpers.py:270-282 | whenever every entry has a name, the code as written agrees with the corrected summary |
| GeoAreaHelpers.DoSearch | Jetlag_Map_Maker_V2.2/screens/shared/geo_area_helpers.py:404-415 | a locked search is refused; a search runs only on the stripped, non-empty query |
| GeoAreaHelpers.WithRank | Jetlag_Map_Maker_V2.2/screens/shared/geo_area_helpers.py:431 | the results with one sort key, each as often as in the input |
| GeoAreaHelpers.SortResultsPermutation | Jetlag_Map_Maker_V2.2/screens/shared/geo_area_helpers.py:431 | sorting the results is a permutation |
| GeoAreaHelpers.SortResultsOrdered | Jetlag_Map_Maker_V2.2/screens/shared/geo_area_helpers.py:431 | boundaries and places come first, then the other results |
| GeoAreaHelpers.RankIndicesExact | Jetlag_Map_Maker_V2.2/screens/shared/geo_area_helpers.py:431 | the positions of one sort key are increasing positions of the results, exactly those with that key |
| GeoAreaHelpers.WithRankAt | Jetlag_Map_Maker_V2.2/screens/shared/geo_area_helpers.py:431 | the results with one sort key are the input read at those positions, in order |
| GeoAreaHelpers.MergedRanks | Jetlag_Map_Maker_V2.2/screens/shared/geo_area_helpers.py:431 | the two key groups, each read at increasing positions, put together use every position once and keep the input order within a group |
| GeoAreaHelpers.SortResultsStable | Jetlag_Map_Maker_V2.2/screens/shared/geo_area_helpers.py:431 | the sort is stable: the sorted results are the input at a rearrangement of its positions, and results with equal key keep their Nominatim order |
| GeoAreaHelpers.NominatimBox | Jetlag_Map_Maker_V2.2/screens/shared/geo_area_helpers.py:121-125 | a box exactly when the first four entries all read as numbers, and then they are south, north, west, east in that order |
| GeoAreaHelpers.ZoomCalls | Jetlag_Map_Maker_V2.2/screens/shared/geo_area_helpers.py:121-131 | view calls exactly when the first four entries read as numbers; they are the fit-or-centre calls of the box south, west, north, east read from them |
| GeoAreaHelpers.GeomOf | Jetlag_Map_Maker_V2.2/screens/shared/geo_area_helpers.py:61-67 | a geometry exactly when there is GeoJSON with a type that shapely accepts |
| GeoAreaHelpers.GeoSession.constructor | Jetlag_Map_Maker_V2.2/screens/shared/geo_area_helpers.py:27-39 | an empty cache, no combined geometry, unlocked; the game-area list is created only when missing |
| GeoAreaHelpers.GeoSession.AddToGameArea | Jetlag_Map_Maker_V2.2/screens/shared/geo_area_helpers.py:284-316 | fails with nothing changed exactly when the region has no geometry; otherwise the geometry is cached, the item is added once, and the combined area becomes the geometry or its union with it |
| GeoAreaHelpers.GeoSession.RemoveFromGameArea | Jetlag_Map_Maker_V2.2/screens/shared/geo_area_helpers.py:318-338 | no geometry: nothing but the cache is kept; an empty combined area: nothing removed; otherwise the combined area loses the region and every entry with its key is dropped |
| GameAreaSection.CornerSplit | Jetlag_Map_Maker_V2.2/screens/shared/game_area_section.py:22-29 | a corner's text splits at its comma into the two printed fields |
| GameAreaSection.FormatStripped | Jetlag_Map_Maker_V2.2/screens/shared/game_area_section.py:28-29 | a printed number has no blank at either end |
| GameAreaSection.ParseSpacedText | Jetlag_Map_Maker_V2.2/screens/shared/game_area_section.py:28-29 | the blank after the comma does not change how the second field reads |
| GameAreaSection.ParseSpaced | Jetlag_Map_Maker_V2.2/screens/shared/game_area_section.py:28-29 | a printed number after a blank reads back as itself |
| GameAreaSection.ParsePointOfCorner | Jetlag_Map_Maker_V2.2/screens/shared/game_area_section.py:28-29 | a printed corner reads back as the corner |
| GameAreaSection.ProxyRoundTrip | Jetlag_Map_Maker_V2.2/screens/shared/game_area_section.py:18-29 | saving the two proxies' texts stores the same ordered box again |
| GameAreaSection.ProxyWithoutBox | Jetlag_Map_Maker_V2.2/screens/shared/game_area_section.py:23-25 | without a box both proxies read empty and no box is saved |
| GameAreaSection.ProxySaved | Jetlag_Map_Maker_V2.2/screens/shared/game_area_section.py:18-29 | whatever the stored box, or none, the proxies store it again |
| GameAreaSection.EntryText | Jetlag_Map_Maker_V2.2/screens/shared/game_area_section.py:22-29 | "" without a box; proxy 1 reads back as the south-west corner and any other as the north-east corner |
| GameAreaSection.StopsCountIsStopsUpTo | Jetlag_Map_Maker_V2.2/screens/shared/game_area_section.py:238-241 | the exported stop count is the number of stops the hiding zones are made for |
| GameAreaSection.StopsCountBoundsZones | Jetlag_Map_Maker_V2.2/screens/shared/game_area_section.py:238-245 | the export never reports more zones than stops |
| GameAreaSection.StopsCount | Jetlag_Map_Maker_V2.2/screens/shared/game_area_section.py:238-241 | at least the size of each category table, and 0 exactly when all four are empty |
| GameAreaSection.Redraw | Jetlag_Map_Maker_V2.2/screens/shared/game_area_section.py:117-126 | the type's old markers are deleted from the map, then its rows' stop markers are placed in row order at fresh consecutive handles, up to the limit (none for an empty or missing table); the type's list becomes those handles and no other object changes |
| GameAreaSection.FetchSuccess | Jetlag_Map_Maker_V2.2/screens/shared/game_area_section.py:117-126 | the fetched table is stored whatever it is; the type's old markers are deleted and one stop marker per row (up to the limit) is placed in row order, as `Redraw` states |
| GameAreaSection.FetchOnProxies | Jetlag_Map_Maker_V2.2/screens/shared/game_area_section.py:107-115 | the fetch reads the stored box through the proxies and leaves it unchanged; without a box no mirror is tried; a table is stored exactly when one came back |
| GameAreaSection.FetchWithProxies | Jetlag_Map_Maker_V2.2/screens/shared/game_area_section.py:102-135 | the fetch button with a working status sink: the stored box is kept, the stored box's result is stored, and the type's marker list and the map are redrawn from it as `Redraw` states |
| GameAreaSection.GameAreaFetchRaises | Jetlag_Map_Maker_V2.2/screens/shared/game_area_section.py:110-114 | as written, passing the progress function as the status label makes every fetch raise, where returning the stored box's table was intended |
| GameAreaSection.FetchEndAsWritten | Jetlag_Map_Maker_V2.2/osm_fetcher.py:53-111 | with a status label the call returns the stored box's result, or None without a valid box; with a plain function it raises at line 61, 107 or 110, and at 107 whenever a box and a mirror exist |
| GameAreaSection.RunDedup | Jetlag_Map_Maker_V2.2/screens/shared/game_area_section.py:167-185 | the tables become the deduplicated ones and the total is the sum of the per-type counts; each category's list is fresh consecutive handles from `RedrawStart`, and the map is `RedrawnCanvas` of the old one: every new handle holds its deduplicated stop's marker, no old marker of the four categories is left, every other object is untouched and nothing else appears; other types keep their lists |
| GameAreaSection.RedrawStart | Jetlag_Map_Maker_V2.2/screens/shared/game_area_section.py:170-175 | the categories are redrawn in order, so a category's first handle is never below the counter before the redraw |
| GameAreaSection.RedrawnCanvasFacts | Jetlag_Map_Maker_V2.2/screens/shared/game_area_section.py:170-175 | redrawing the first c categories one after another places every row's marker at its handle, deletes every old marker of those categories, keeps every other object and adds nothing else, provided every handle was handed out before |
| GameAreaSection.SaveToKml | Jetlag_Map_Maker_V2.2/screens/shared/game_area_section.py:218-246 | an empty path does nothing; otherwise the path is recorded, the box copied to the saved box, and the stop count is that of the four categories |
| BboxScreen.BoxPanel.constructor | Jetlag_Map_Maker_V2.2/screens/bbox_screen.py:47-48 | no outline, unlocked entries and no view calls yet |
| BboxScreen.BoxPanel.SetBoundingBox | Jetlag_Map_Maker_V2.2/screens/bbox_screen.py:361-405 | succeeds exactly when both entries read as "lat, lon": then the box is [min lat, min lon, max lat, max lon] and is outlined; otherwise nothing changes |
| BboxScreen.BoxPanel.ShowBox | Jetlag_Map_Maker_V2.2/screens/bbox_screen.py:375-405 | the entries are locked, the view is fitted to the box, and the one outline drawn replaces the old one |
| BboxScreen.OutlineOfSetBox | Jetlag_Map_Maker_V2.2/screens/bbox_screen.py:366-403 | the box is ordered whichever entry holds which corner, and its outline is the five corners, closed at north-west |
| BboxScreen.FetchAndPlot | Jetlag_Map_Maker_V2.2/screens/bbox_screen.py:226-229 | the box is stored whenever both entries read and kept otherwise; the fetch returns the entries' box result; with a table it is stored, dedup is invalidated and the type's old markers are replaced by one stop marker per row in row order up to the limit; without one the tables, the marker lists and the map stay as they were |
| BboxScreen.ZonesUpToRadius | Jetlag_Map_Maker_V2.2/screens/bbox_screen.py:529-541 | every zone has the radius chosen for its own stop |
| BboxScreen.UniformZonesFacts | Jetlag_Map_Maker_V2.2/screens/bbox_screen.py:522-541 | no zone for a radius of 0 or less; otherwise every zone has the slider radius, there is at most one per stop, and they are the shared builder's zones with smaller zones off |
| BboxScreen.CreateUniformZones | Jetlag_Map_Maker_V2.2/screens/bbox_screen.py:522-541 | the old zones are always cleared first, and the zone data afterwards is exactly the specified zones |
| BboxScreen.StopTitleParts | Jetlag_Map_Maker_V2.2/screens/bbox_screen.py:300-305 | a stop's title is its type, a colon and its name, "Unnamed" when the name is empty |
| BboxScreen.StopMarks | Jetlag_Map_Maker_V2.2/screens/bbox_screen.py:299-308 | one placemark per row |
| BboxScreen.StopMarksUpToStops | Jetlag_Map_Maker_V2.2/screens/bbox_screen.py:294-308 | one point placemark per stop, in category order, each at the stop with longitude first |
| BboxScreen.ZoneRingClosed | Jetlag_Map_Maker_V2.2/screens/bbox_screen.py:316-318 | every zone ring is closed and starts with the circle's points, longitude first |
| BboxScreen.ZoneMarks | Jetlag_Map_Maker_V2.2/screens/bbox_screen.py:311-322 | at most one placemark per zone |
| BboxScreen.ZoneMarksClosed | Jetlag_Map_Maker_V2.2/screens/bbox_screen.py:311-322 | every zone placemark has a closed ring of 37 or 38 positions |
| BboxScreen.ZoneMarksAll | Jetlag_Map_Maker_V2.2/screens/bbox_screen.py:311-314 | every zone gets a placemark when each circle can be drawn |
| BboxScreen.CategoryMarks | Jetlag_Map_Maker_V2.2/screens/bbox_screen.py:299-308 | the row loop makes exactly the specified placemarks |
| BboxScreen.ExportZones | Jetlag_Map_Maker_V2.2/screens/bbox_screen.py:311-322 | the zone loop makes exactly the specified placemarks, numbered over every zone |
| BboxScreen.SaveToKml | Jetlag_Map_Maker_V2.2/screens/bbox_screen.py:279-331 | nothing without a path; otherwise the stops of the four categories in order, then the zones |
| BboxScreen.ExportShape | Jetlag_Map_Maker_V2.2/screens/bbox_screen.py:294-322 | the export has one point placemark per stop and at most one zone placemark per zone |
| PointsOfInterest.PolyTokens | Jetlag_Map_Maker_V2.2/screens/points_of_interest.py:88-93 | the tokens are read in whole pairs, a last odd one ignored |
| PointsOfInterest.TokensRing | Jetlag_Map_Maker_V2.2/screens/points_of_interest.py:90-98 | a polygon read from tokens comes from three or more (lat, lon) pairs and is a closed (lon, lat) ring |
| PointsOfInterest.BoundaryFallback | Jetlag_Map_Maker_V2.2/screens/points_of_interest.py:85-105 | without a polygon string the box is used, bound_box before saved_bound_box, and no boundary without either; fewer than three pairs fall back to the box; a token that is not a number, or a ring too short for a polygon, raises |
| PointsOfInterest.BoundaryOf | Jetlag_Map_Maker_V2.2/screens/points_of_interest.py:85-105 | only a polygon string can raise; no boundary only without both boxes; a box polygon only from one of the boxes; a ring only from a polygon string, and it is closed |
| PointsOfInterest.LonLatRingAt | Jetlag_Map_Maker_V2.2/screens/points_of_interest.py:90-97 | ring position k is pair k with longitude first, and the ring is closed |
| PointsOfInterest.BoundaryRing | Jetlag_Map_Maker_V2.2/screens/points_of_interest.py:85-98 | a polygon boundary is the closed ring of three or more pairs read from the string |
| PointsOfInterest.LongPieces | Jetlag_Map_Maker_V2.2/screens/points_of_interest.py:121-124 | only pieces of two or more points are kept, never more than there were |
| PointsOfInterest.LongPiecesKept | Jetlag_Map_Maker_V2.2/screens/points_of_interest.py:121-140 | the pieces kept are exactly those of two or more points |
| PointsOfInterest.ClipPath | Jetlag_Map_Maker_V2.2/screens/points_of_interest.py:107-142 | the whole path without a boundary; nothing for a path of fewer than two points; otherwise only pieces of two or more points |
| PointsOfInterest.LineDrawings | Jetlag_Map_Maker_V2.2/screens/points_of_interest.py:244-246 | one water line of width 3 and colour #66ccff per clipped segment |
| PointsOfInterest.RowDrawingsAllowed | Jetlag_Map_Maker_V2.2/screens/points_of_interest.py:233-319 | every marker of a row is allowed for its route, sits at the row's position, toggles its label and carries the trimmed name; every line is a water line |
| PointsOfInterest.RouteOf | Jetlag_Map_Maker_V2.2/screens/points_of_interest.py:233-295 | coastline lines only for a coastline table with geometry; Kind rows only with a kind column, and always with one outside coastline tables; ordinary rows only without one |
| PointsOfInterest.RowDrawings | Jetlag_Map_Maker_V2.2/screens/points_of_interest.py:238-319 | an allowed row, with the marker call and (for Kind tables) the lat/lon columns present, gets exactly its one marker; without the marker call only lines are drawn |
| PointsOfInterest.MarkerAllowed | Jetlag_Map_Maker_V2.2/screens/points_of_interest.py:264-306 | no marker in a coastline table or without a position, none for running water in a Kind table, none for an unnamed row in an ordinary table |
| PointsOfInterest.DrawingsSnoc | Jetlag_Map_Maker_V2.2/screens/points_of_interest.py:238-319 | drawing one more row appends its drawings |
| PointsOfInterest.TableMarkersAllowed | Jetlag_Map_Maker_V2.2/screens/points_of_interest.py:259-319 | every marker of a table comes from a row its route allows: never a coastline row, never running water in a Kind table, only named rows otherwise |
| PointsOfInterest.CoastlineOnlyLines | Jetlag_Map_Maker_V2.2/screens/points_of_interest.py:233-249 | a coastline table draws lines only, no marker |
| PointsOfInterest.PlaceAllAt | Jetlag_Map_Maker_V2.2/screens/points_of_interest.py:248-321 | drawing k sits at handle start + k, and every other object stays as it was |
| PointsOfInterest.PlaceAllAppend | Jetlag_Map_Maker_V2.2/screens/points_of_interest.py:248-321 | placing two lists in turn is placing their concatenation |
| PointsOfInterest.LabelsAllAppend | Jetlag_Map_Maker_V2.2/screens/points_of_interest.py:288-318 | storing two lists' labels in turn is storing those of their concatenation |
| PointsOfInterest.Flipped | Jetlag_Map_Maker_V2.2/screens/points_of_interest.py:202-211 | the marker's membership flips and every other marker's stays |
| PointsOfInterest.PoiScreen.constructor | Jetlag_Map_Maker_V2.2/screens/points_of_interest.py:59-200 | empty icon cache, marker lists and label maps |
| PointsOfInterest.PoiScreen.GetPoiIcon | Jetlag_Map_Maker_V2.2/screens/points_of_interest.py:61-78 | the icon is cached, a missing file's None included, so asking again gives the same answer |
| PointsOfInterest.PoiScreen.ToggleMarkerLabel | Jetlag_Map_Maker_V2.2/screens/points_of_interest.py:202-211 | a marker showing its label is blanked and leaves the set; any other gets its stored name, "" if none, and joins it |
| PointsOfInterest.PoiScreen.ClearType | Jetlag_Map_Maker_V2.2/screens/points_of_interest.py:219-226 | every marker of the type leaves the map and both label maps, and its list is emptied |
| PointsOfInterest.PoiScreen.ClearAll | Jetlag_Map_Maker_V2.2/screens/points_of_interest.py:213-217 | every type listed is emptied, and all their markers leave the map and both label maps |
| PointsOfInterest.PoiScreen.ClearNext | Jetlag_Map_Maker_V2.2/screens/points_of_interest.py:215-216 | clearing one more type removes its handles too |
| PointsOfInterest.PoiScreen.GetBoundaryPolygon | Jetlag_Map_Maker_V2.2/screens/points_of_interest.py:85-105 | the pair loop reads exactly the specified boundary |
| PointsOfInterest.PoiScreen.AddDrawings | Jetlag_Map_Maker_V2.2/screens/points_of_interest.py:280-289 | the drawings take consecutive handles in order, and each marker's label is stored |
| PointsOfInterest.PoiScreen.DrawRows | Jetlag_Map_Maker_V2.2/screens/points_of_interest.py:238-319 | the row loop places every row's drawings in row order |
| PointsOfInterest.PoiScreen.DrawTable | Jetlag_Map_Maker_V2.2/screens/points_of_interest.py:248-321 | the handles of the table's drawings become the type's markers |
| PointsOfInterest.PoiScreen.SetupBoundary | Jetlag_Map_Maker_V2.2/screens/points_of_interest.py:236-256 | the boundary is read only for coastline and Kind tables |
| PointsOfInterest.PoiScreen.PlotSetup | Jetlag_Map_Maker_V2.2/screens/points_of_interest.py:252-301 | the icon is looked up for Kind and ordinary tables, not for coastlines |
| PointsOfInterest.PoiScreen.PlotRows | Jetlag_Map_Maker_V2.2/screens/points_of_interest.py:230-321 | an empty table or a raising set-up changes nothing; otherwise the rows are drawn and their handles are the type's markers |
| PointsOfInterest.PoiScreen.PlotTable | Jetlag_Map_Maker_V2.2/screens/points_of_interest.py:252-321 | after a set-up that does not raise the rows are drawn and become the type's markers |
| PointsOfInterest.PoiScreen.PlotDf | Jetlag_Map_Maker_V2.2/screens/points_of_interest.py:228-321 | the type is cleared first; then an empty table or a raising boundary read leaves it empty, and otherwise the table's drawings become its markers, routed by coastline, Kind column or name |
| PointsOfInterest.ClearedTypes | Jetlag_Map_Maker_V2.2/screens/points_of_interest.py:213-226 | the same types, those cleared now empty and the others unchanged |

## Left out

- Network I/O is not modelled. The Overpass `query` and the Nominatim request in `search_osm_regions` (screens/shared/osm_regions.py) are a parameter that answers each attempt. `time.sleep` is not modelled; only the backoff index chosen is kept.
- Threads and timeouts are not modelled (`run_with_timeout`, `_run_with_timeout`, `_run_in_background`, the search and fetch workers). They only move work off the Tk thread. The model runs the work and then its success handler.
- The haversine distance is a function parameter, as is the dedup grid's `cell_key`. A point is too close when some kept point lies in a neighbouring cell within the threshold, which is what the 3-by-3 grid lookup computes. Floating-point trigonometry is not modelled.
- HidingZones.CirclePts: the coordinates of the circle points come from an abstract circle function. Only the number of points and when there are none are stated, because the sine and cosine values are floating point.
- `random.shuffle` is replaced by a list the caller passes in. A `requires` makes it a permutation of the mirror list.
- Shapely is kept symbolic. The following are opaque values or parameters: `shape(gj)`, `union`, `difference`, `is_empty`, `line.intersection` and the area maximisation of `geom_to_overpass_poly`. Drawing the combined game area (`draw_combined`) and converting shapely rings are not modelled.
- Tk widgets, layout, message boxes, status text and print logging are not modelled, except where an outcome is named by its text. Icons are named by their file path. The image loading in `get_poi_icon` is not modelled.
- Decimal.ParseNumber: Python's `float` also accepts exponents, `inf`, `nan` and underscores. The model reads only optionally signed decimal numbers with optional surrounding whitespace. Whitespace and case folding are ASCII only.
- Floats are exact decimals. Rounding to binary floating point is not modelled, and neither is the shortest-repr printing of `str(float)` beyond what exact decimals print.
- pandas tables are sequences of records. A missing column is modelled as a row field that no row sets. The normal-POI branch of `plot_df` (screens/points_of_interest.py:306-307) calls `float(row["Latitude"])` with no NaN guard, so a named row without a position would get a marker at NaN (or a `KeyError` when no row has the column); the model gives such a row no marker. The modelled fetches always give a row a position, so this case does not arise from them.
- OverpassRows.Resolve: a way is given as its list of node ids, and an id missing from the node map is skipped, as `if ll:` does (poi/overpass_fetch.py:494-496 and 649-651). In the source the ids come from overpy's `Way.nodes`, which raises `DataIncomplete` when a node is absent from the answer; `getattr`'s default does not catch that, so the mirror attempt fails instead. The skip the model keeps is reached only for a node that is in the answer but whose coordinates `float` cannot read. overpy is not part of this model.
- The `all_data`-missing branch of `init_geo_state` (screens/shared/geo_area_helpers.py:31-32) is not modelled. config.py always defines `all_data`, and `GeoAreaHelpers.GeoSession.constructor` models the `game_areas` branch.
- `fetch_water_lines` has an `if not rows: return None` after its stages are merged. It is unreachable because the first stage is non-empty at that point, so it is not modelled.
- `build_icons`, `build_search_ui`, `populate_results`, `refresh_buttons`, `redraw_boundary` and `draw_combined` are not modelled. They only build and lay out widgets and draw the selection. `zoom_to_bbox` is modelled by `GeoAreaHelpers.NominatimBox` (the box reading) and `GeoAreaHelpers.ZoomCalls` (the view calls).
- `OverpassFetch.PoiQuery`, `OverpassFetch.WaterPointsQuery`, `OverpassFetch.LinesQuery` and `OverpassFetch.CoastlineQuery` build the Overpass QL texts as the source writes them, but no property of the text is promised. The network oracle receives the text as it is, and nothing in the model reads it back.
- The private copies in screens/bbox_screen.py are modelled once, in the shared modules. These are its label and marker helpers (lines 57-144, the same code as `MapMarkers`), its `deduplicate_all_by_priority` (lines 146-224, the same code as screens/shared/dedup.py) and its `draw_hiding_zone` (lines 241-277, the same code as screens/shared/hiding_zones.py). `BboxScreen` uses those modules. Its `run_dedup` (lines 456-467) matches `GameAreaSection.RunDedup` apart from the removed-count label.
- The KML library calls are not modelled: simplekml, the whole of screens/shared/kml_export.py, and ElementTree parsing and writing. The KML export is modelled as its list of placemarks.
- `lock_hiding_zone` in screens/geo_screen.py only copies shapely bounds into the configuration, so it is not modelled. The pure UI files are not part of this model: ui_layout.py, map_utils.py, image_loader.py, main_menu.py, kml_screen.py, the launcher and the root points_of_intrest.py.

## Findings

| source | as written | input that shows it | evidently intended | confidence | as-written member | corrected member |
|---|---|---|---|---|---|---|
| Jetlag_Map_Maker_V2.2/screens/shared/geo_area_helpers.py:277-279 | `add_to_game_area` stores `item.get("display_name")`, which is `None` for a result without a name. `a.get("display_name", "Unnamed")` then returns that `None`, and `"; ".join(names)` raises `TypeError`. | A search result with no `display_name` and osm_type "relation", osm_id "1", added to an empty game area | such an entry is listed as "Unnamed" | not executed | GeoAreaHelpers.SummaryRaisesWithoutName | GeoAreaHelpers.SelectedSummaryFacts |
| Jetlag_Map_Maker_V2.2/screens/shared/game_area_section.py:110-114 | The fetch buttons pass the `progress` function where `fetch_osm_data` expects a status label. Its `status_label.config(...)` raises `AttributeError` at osm_fetcher.py line 61 (no box), 107 (the first mirror's handler) or 110 (no mirror), so no fetch ever returns a table. | Any fetch button press, with or without a stored box | the fetch returns the stored box's table, stores it and plots it | not executed | GameAreaSection.GameAreaFetchRaises | GameAreaSection.FetchWithProxies |
