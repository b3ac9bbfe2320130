/**
 * Per-category exclusion tables and the hospital clustering of poi/filters.py.
 * Each table looks at tags through `NormTag` and at the name through `NormStr`.
 */
module PoiFilters {
  import opened Common
  import opened Text
  import opened Decimal
  import opened Tables
  import opened PoiUtils

  /** `is_excluded_park` on the normalised `amenity`, `landuse`, `cemetery`, `historic`
      and `leisure` tags and the normalised name: burial grounds, churchyards and gardens
      are not parks. */
  function ParkRule(amenity: string, landuse: string, cemetery: string, historic: string,
                    leisure: string, nameL: string): (r: bool)
    ensures amenity == "grave_yard" || amenity == "cemetery" ==> r
    ensures ((landuse == "cemetery" || landuse == "religious")
             && (cemetery == "graveyard" || Contains(nameL, "church"))) ==> r
    ensures cemetery == "churchyard" || historic == "churchyard" ==> r
    ensures Contains(nameL, "churchyard") || Contains(nameL, "graveyard") || Contains(nameL, "cemetery") ==> r
    ensures Contains(nameL, " garden") || Contains(nameL, " gardens") ==> r
    ensures leisure == "garden" ==> r
  {
    if amenity in ["grave_yard", "cemetery"] then true
    else if landuse in ["cemetery", "religious"]
         && (cemetery in ["churchyard", "graveyard"] || Contains(nameL, "church")) then true
    else if landuse in ["cemetery", "religious"]
         && (Contains(nameL, "cemetery") || Contains(nameL, "graveyard") || Contains(nameL, "churchyard")) then true
    else if cemetery == "churchyard" then true
    else if historic == "churchyard" then true
    else if Contains(nameL, "churchyard") || Contains(nameL, "graveyard") || Contains(nameL, "cemetery") then true
    else if leisure == "garden" then true
    else if Contains(nameL, " garden") || EndsWith(nameL, " garden") || Contains(nameL, " gardens") then true
    else false
  }

  /** `is_excluded_park` reads its tags and the name through `norm_str`. */
  function IsExcludedPark(tags: Tags, name: string): (r: bool)
    ensures NormTag(tags, "amenity") in ["grave_yard", "cemetery"] ==> r
    ensures NormTag(tags, "cemetery") == "churchyard" || NormTag(tags, "historic") == "churchyard" ==> r
    ensures NormTag(tags, "leisure") == "garden" ==> r
    ensures var nameL := NormStr(Some(name)); var landuse := NormTag(tags, "landuse");
      ((landuse == "cemetery" || landuse == "religious")
       && (NormTag(tags, "cemetery") == "graveyard" || Contains(nameL, "church"))) ==> r
    ensures var nameL := NormStr(Some(name));
      Contains(nameL, "churchyard") || Contains(nameL, "graveyard") || Contains(nameL, "cemetery") ==> r
    ensures var nameL := NormStr(Some(name));
      Contains(nameL, " garden") || Contains(nameL, " gardens") ==> r
    ensures var nameL := NormStr(Some(name)); var landuse := NormTag(tags, "landuse");
      r ==> NormTag(tags, "amenity") in ["grave_yard", "cemetery"]
            || ((landuse == "cemetery" || landuse == "religious")
                && (NormTag(tags, "cemetery") == "graveyard" || Contains(nameL, "church")))
            || NormTag(tags, "cemetery") == "churchyard" || NormTag(tags, "historic") == "churchyard"
            || Contains(nameL, "churchyard") || Contains(nameL, "graveyard") || Contains(nameL, "cemetery")
            || NormTag(tags, "leisure") == "garden" || Contains(nameL, " garden")
  {
    ParkExclusionReasons(NormTag(tags, "amenity"), NormTag(tags, "landuse"), NormTag(tags, "cemetery"),
                         NormTag(tags, "historic"), NormTag(tags, "leisure"), NormStr(Some(name)));
    ParkRule(NormTag(tags, "amenity"), NormTag(tags, "landuse"), NormTag(tags, "cemetery"),
             NormTag(tags, "historic"), NormTag(tags, "leisure"), NormStr(Some(name)))
  }

  /** A park is excluded only for one of those reasons, or as consecrated land whose
      `cemetery` tag says graveyard or whose name mentions a church. */
  lemma ParkExclusionReasons(amenity: string, landuse: string, cemetery: string, historic: string,
                             leisure: string, nameL: string)
    ensures ParkRule(amenity, landuse, cemetery, historic, leisure, nameL) ==>
      amenity == "grave_yard" || amenity == "cemetery"
      || ((landuse == "cemetery" || landuse == "religious")
          && (cemetery == "graveyard" || Contains(nameL, "church")))
      || cemetery == "churchyard" || historic == "churchyard"
      || Contains(nameL, "churchyard") || Contains(nameL, "graveyard") || Contains(nameL, "cemetery")
      || Contains(nameL, " garden") || leisure == "garden"
  {
    if EndsWith(nameL, " garden") {
      EndsWithContains(nameL, " garden");
    }
    if Contains(nameL, " gardens") {
      assert OccursAt(" gardens", " garden", 0);
      ContainsTrans(nameL, " gardens", " garden");
    }
  }

  const OutdoorWords: seq<string> := ["open air", "open-air", "heritage site", "outdoor"]

  lemma OutdoorWordsAny(s: string)
    ensures ContainsAny(s, OutdoorWords) <==>
      Contains(s, "open air") || Contains(s, "open-air") || Contains(s, "heritage site") || Contains(s, "outdoor")
  {
    ContainsAnyCons(s, "outdoor", []);
    ContainsAnyCons(s, "heritage site", ["outdoor"]);
    ContainsAnyCons(s, "open-air", ["heritage site", "outdoor"]);
    ContainsAnyCons(s, "open air", ["open-air", "heritage site", "outdoor"]);
  }

  /** `is_non_building_museum`: open-air sites and heritage places are not museum buildings. */
  function IsNonBuildingMuseum(tags: Tags, name: string): (r: bool)
    ensures NormTag(tags, "museum") == "open_air" ==> r
    ensures NormTag(tags, "heritage") != "" && NormTag(tags, "heritage") != "yes" ==> r
    ensures ContainsAny(NormStr(Some(name)), OutdoorWords) ==> r
    ensures NormTag(tags, "tourism") == "archaeological_site" ==> r
    ensures NormTag(tags, "tourism") == "attraction" && Contains(NormStr(Some(name)), "museum") ==> r
    ensures NormTag(tags, "amenity") == "museum" && NormTag(tags, "building") in ["no", "roof", "tent"] ==> r
    ensures r ==>
      NormTag(tags, "museum") == "open_air"
      || (NormTag(tags, "tourism") == "attraction" && Contains(NormStr(Some(name)), "museum"))
      || NormTag(tags, "tourism") == "archaeological_site"
      || (NormTag(tags, "heritage") != "" && NormTag(tags, "heritage") != "yes")
      || ContainsAny(NormStr(Some(name)), OutdoorWords)
      || (NormTag(tags, "amenity") == "museum" && NormTag(tags, "building") in ["no", "roof", "tent"])
  {
    var nameL := NormStr(Some(name));
    var tourism := NormTag(tags, "tourism");
    var heritage := NormTag(tags, "heritage");
    OutdoorWordsAny(nameL);
    if NormTag(tags, "museum") == "open_air" then true
    else if tourism == "attraction" && Contains(nameL, "museum") then true
    else if tourism == "archaeological_site" then true
    else if heritage != "" && heritage != "yes" then true
    else if Contains(nameL, "open air") || Contains(nameL, "open-air") then true
    else if Contains(nameL, "heritage site") then true
    else if Contains(nameL, "outdoor") then true
    else if NormTag(tags, "amenity") == "museum" && NormTag(tags, "building") in ["no", "roof", "tent"] then true
    else false
  }

  const PracticeGolf: seq<string> := ["driving_range", "practice"]
  const MiniGolf: seq<string> := ["miniature", "miniature_golf", "minigolf"]
  const PitchAndPuttGolf: seq<string> := ["pitch_and_putt", "pitch_putt", "par3", "par_3", "par3_course", "par_3_course"]
  const ShortCourse: seq<string> := ["pitch_and_putt", "par3", "par_3"]
  const SmallCourseWords: seq<string> := ["pitch and putt", "pitch & putt", "par 3", "par-3", "mini golf", "minigolf"]

  lemma SmallCourseWordsAny(s: string)
    ensures ContainsAny(s, SmallCourseWords) <==>
      Contains(s, "pitch and putt") || Contains(s, "pitch & putt") || Contains(s, "par 3") || Contains(s, "par-3")
      || Contains(s, "mini golf") || Contains(s, "minigolf")
  {
    ContainsAnyCons(s, "minigolf", []);
    ContainsAnyCons(s, "mini golf", ["minigolf"]);
    ContainsAnyCons(s, "par-3", ["mini golf", "minigolf"]);
    ContainsAnyCons(s, "par 3", ["par-3", "mini golf", "minigolf"]);
    ContainsAnyCons(s, "pitch & putt", ["par 3", "par-3", "mini golf", "minigolf"]);
    ContainsAnyCons(s, "pitch and putt", ["pitch & putt", "par 3", "par-3", "mini golf", "minigolf"]);
  }

  /** The hole count `is_excluded_golf_course` reads: `holes`, or `golf:holes` when that is 0. */
  function GolfHoles(tags: Tags): int {
    OrInt(ParseIntTag(tags, "holes"), ParseIntTag(tags, "golf:holes"))
  }

  /** `is_excluded_golf_course`: practice ranges, mini golf, pitch-and-putt and short courses. */
  function IsExcludedGolfCourse(tags: Tags, name: string): (r: bool)
    ensures NormTag(tags, "golf") in PracticeGolf + MiniGolf + PitchAndPuttGolf ==> r
    ensures NormTag(tags, "leisure") == "miniature_golf" ==> r
    ensures NormTag(tags, "course") in ShortCourse || NormTag(tags, "course:type") in ShortCourse ==> r
    ensures 1 <= GolfHoles(tags) <= 17 ==> r
    ensures ContainsAny(NormStr(Some(name)), SmallCourseWords) ==> r
    ensures r ==>
      NormTag(tags, "golf") in PracticeGolf + MiniGolf + PitchAndPuttGolf
      || NormTag(tags, "leisure") == "miniature_golf"
      || NormTag(tags, "course") in ShortCourse || NormTag(tags, "course:type") in ShortCourse
      || 1 <= GolfHoles(tags) <= 17
      || ContainsAny(NormStr(Some(name)), SmallCourseWords)
  {
    var nameL := NormStr(Some(name));
    var golf := NormTag(tags, "golf");
    var holes := GolfHoles(tags);
    SmallCourseWordsAny(nameL);
    if golf in PracticeGolf then true
    else if NormTag(tags, "leisure") == "miniature_golf" then true
    else if golf in MiniGolf then true
    else if golf in PitchAndPuttGolf then true
    else if NormTag(tags, "course") in ShortCourse || NormTag(tags, "course:type") in ShortCourse then true
    else if holes > 0 && holes < 18 then true
    else if Contains(nameL, "pitch and putt") then true
    else if Contains(nameL, "pitch & putt") then true
    else if Contains(nameL, "par 3") || Contains(nameL, "par-3") then true
    else if Contains(nameL, "mini golf") || Contains(nameL, "minigolf") then true
    else false
  }

  /** `is_private_hospital`: exactly when operator:type, ownership or access is "private". */
  function IsPrivateHospital(tags: Tags): (r: bool)
    ensures r <==> NormTag(tags, "operator:type") == "private" || NormTag(tags, "ownership") == "private"
                   || NormTag(tags, "access") == "private"
  {
    if NormTag(tags, "operator:type") == "private" then true
    else if NormTag(tags, "ownership") == "private" then true
    else if NormTag(tags, "access") == "private" then true
    else false
  }

  const HospiceFlags: seq<string> := ["yes", "true", "1"]
  const TherapyKinds: seq<string> := ["rehabilitation", "physiotherapy", "occupational_therapy"]
  const DayCareKinds: seq<string> := ["day_care", "outpatient", "clinic"]

  /** `is_excluded_hospital`: hospices, research and resource centres, rehabilitation
      and day units are not hospitals. */
  function IsExcludedHospital(tags: Tags, name: string): (r: bool)
    ensures r <==>
      NormTag(tags, "amenity") in ["hospice", "research_institute", "social_facility", "community_centre"]
      || NormTag(tags, "healthcare") in ["hospice"] + TherapyKinds + DayCareKinds
      || NormTag(tags, "hospice") in HospiceFlags
      || NormTag(tags, "healthcare:speciality") in TherapyKinds
      || Contains(NormStr(Some(name)), "hospice")
      || Contains(NormStr(Some(name)), "research centre") || Contains(NormStr(Some(name)), "research center")
      || Contains(NormStr(Some(name)), "research institute")
      || Contains(NormStr(Some(name)), "resource centre") || Contains(NormStr(Some(name)), "resource center")
      || Contains(NormStr(Some(name)), "resource unit")
      || Contains(NormStr(Some(name)), "day hospital") || Contains(NormStr(Some(name)), "day unit")
      || Contains(NormStr(Some(name)), "outpatient") || Contains(NormStr(Some(name)), "out-patient")
  {
    var amenity := NormTag(tags, "amenity");
    var healthcare := NormTag(tags, "healthcare");
    var speciality := NormTag(tags, "healthcare:speciality");
    var nameL := NormStr(Some(name));
    if amenity == "hospice" || healthcare == "hospice" then true
    else if NormTag(tags, "hospice") in HospiceFlags then true
    else if Contains(nameL, "hospice") then true
    else if amenity == "research_institute" then true
    else if Contains(nameL, "research centre") || Contains(nameL, "research center") then true
    else if Contains(nameL, "research institute") then true
    else if Contains(nameL, "resource centre") || Contains(nameL, "resource center") then true
    else if Contains(nameL, "resource unit") then true
    else if amenity in ["social_facility", "community_centre"] then true
    else if healthcare in TherapyKinds then true
    else if speciality in TherapyKinds then true
    else if Contains(nameL, "day hospital") then true
    else if Contains(nameL, "day unit") then true
    else if Contains(nameL, "outpatient") || Contains(nameL, "out-patient") then true
    else if healthcare in DayCareKinds then true
    else false
  }

  /** The name-based tables read the name only through its normal form, so
      case and surrounding whitespace never change a decision. */
  lemma ParkSeesNormalisedName(tags: Tags, name: string)
    ensures IsExcludedPark(tags, name) == IsExcludedPark(tags, NormStr(Some(name)))
  {
    NormStrIdempotent(Some(name));
  }

  lemma MuseumSeesNormalisedName(tags: Tags, name: string)
    ensures IsNonBuildingMuseum(tags, name) == IsNonBuildingMuseum(tags, NormStr(Some(name)))
  {
    NormStrIdempotent(Some(name));
  }

  lemma GolfSeesNormalisedName(tags: Tags, name: string)
    ensures IsExcludedGolfCourse(tags, name) == IsExcludedGolfCourse(tags, NormStr(Some(name)))
  {
    NormStrIdempotent(Some(name));
  }

  lemma HospitalSeesNormalisedName(tags: Tags, name: string)
    ensures IsExcludedHospital(tags, name) == IsExcludedHospital(tags, NormStr(Some(name)))
  {
    NormStrIdempotent(Some(name));
  }

  // ---------------------------------------------------------------------------
  // merge_nearby_hospitals
  // ---------------------------------------------------------------------------

  /** Beds as the merge reads them: a missing or non-numeric value is 0. */
  function BedsOf(r: Row): int {
    r.beds.GetOr(0)
  }

  function WithBeds(r: Row): Row {
    r.(beds := Some(BedsOf(r)))
  }

  /** `x` sorts no later than `y`: more beds first, then name ascending. */
  predicate RankLe(x: Row, y: Row) {
    BedsOf(x) > BedsOf(y) || (BedsOf(x) == BedsOf(y) && StrLe(x.name, y.name))
  }

  lemma RankLeTotal(x: Row, y: Row)
    ensures RankLe(x, y) || RankLe(y, x)
  {
    StrLeTotal(x.name, y.name);
  }

  lemma RankLeTrans(x: Row, y: Row, z: Row)
    requires RankLe(x, y) && RankLe(y, z)
    ensures RankLe(x, z)
  {
    if BedsOf(x) == BedsOf(y) == BedsOf(z) {
      StrLeTrans(x.name, y.name, z.name);
    }
  }

  predicate SortedByRank(s: seq<Row>) {
    forall i, j :: 0 <= i < j < |s| ==> RankLe(s[i], s[j])
  }

  /** A row ranked no later than the head of a sorted table may go in front of it. */
  lemma SortedInFront(x: Row, s: seq<Row>)
    requires SortedByRank(s) && (s == [] || RankLe(x, s[0]))
    ensures SortedByRank([x] + s)
  {
    forall i, j | 0 <= i < j < |s| + 1 ensures RankLe(([x] + s)[i], ([x] + s)[j]) {
      if i == 0 && j > 1 {
        RankLeTrans(x, s[0], s[j - 1]);
      }
    }
  }

  /** The head of a sorted table stays in front when `x`, ranked after it, joins the rest. */
  lemma SortedKeepsHead(h: Row, tail: seq<Row>, x: Row, rest: seq<Row>)
    requires SortedByRank([h] + tail) && SortedByRank(rest) && RankLe(h, x)
    requires multiset(rest) == multiset(tail) + multiset{x}
    ensures SortedByRank([h] + rest)
  {
    forall j | 0 <= j < |rest| ensures RankLe(h, rest[j]) {
      assert rest[j] in multiset(rest);
      if rest[j] != x {
        assert rest[j] in multiset(tail);
        var k :| 0 <= k < |tail| && tail[k] == rest[j];
        assert ([h] + tail)[0] == h && ([h] + tail)[k + 1] == rest[j];
      }
    }
    forall i, j | 0 <= i < j < |rest| + 1 ensures RankLe(([h] + rest)[i], ([h] + rest)[j]) {
      if i > 0 {
        assert ([h] + rest)[i] == rest[i - 1];
      }
    }
  }

  /** Inserts `x` in front of the first row it ranks no later than. */
  function InsertByRank(x: Row, s: seq<Row>): (r: seq<Row>)
    ensures multiset(r) == multiset(s) + multiset{x}
    ensures SortedByRank(s) ==> SortedByRank(r)
  {
    if s == [] || RankLe(x, s[0]) then
      if SortedByRank(s) then SortedInFront(x, s); [x] + s
      else [x] + s
    else
      var rest := InsertByRank(x, s[1..]);
      assert s == [s[0]] + s[1..];
      RankLeTotal(x, s[0]);
      if SortedByRank(s) then
        assert SortedByRank(s[1..]);
        SortedKeepsHead(s[0], s[1..], x, rest);
        [s[0]] + rest
      else [s[0]] + rest
  }

  /** The table ordered by beds descending, then name ascending. */
  function SortByRank(s: seq<Row>): (r: seq<Row>)
    ensures multiset(r) == multiset(s)
    ensures SortedByRank(r)
  {
    if s == [] then []
    else
      assert s == [s[0]] + s[1..];
      InsertByRank(s[0], SortByRank(s[1..]))
  }

  /** The table with every missing beds value read as 0. */
  function BedsFilled(df: seq<Row>): (r: seq<Row>)
    ensures |r| == |df| && forall i :: 0 <= i < |df| ==> r[i] == WithBeds(df[i])
  {
    seq(|df|, i requires 0 <= i < |df| => WithBeds(df[i]))
  }

  /** The working copy of the table: beds filled in, then sorted. */
  function RankedWork(df: seq<Row>): (w: seq<Row>)
    ensures |w| == |df|
    ensures multiset(w) == multiset(BedsFilled(df))
    ensures SortedByRank(w)
  {
    var filled := BedsFilled(df);
    var w := SortByRank(filled);
    assert |w| == |multiset(w)| == |multiset(filled)| == |df|;
    w
  }

  /** The inner loop of `merge_nearby_hospitals`: anchor `i` removes every later
      row within `radius` of it; earlier flags are left alone. */
  method RemoveNear(work: seq<Row>, i: nat, removed: seq<bool>, radius: real, dist: Distance)
    returns (removed': seq<bool>)
    requires |removed| == |work| && i < |work|
    ensures |removed'| == |work|
    ensures forall j :: 0 <= j < |work| ==>
      (removed'[j] <==> removed[j] || (i < j && Near(work[i].pos, work[j].pos, radius, dist)))
  {
    removed' := removed;
    var j := i + 1;
    while j < |work|
      invariant i + 1 <= j <= |work| && |removed'| == |work|
      invariant forall k :: 0 <= k < |work| ==>
        (removed'[k] <==> removed[k] || (i < k < j && Near(work[i].pos, work[k].pos, radius, dist)))
    {
      if !removed'[j] && Near(work[i].pos, work[j].pos, radius, dist) {
        removed' := removed'[j := true];
      }
      j := j + 1;
    }
  }

  /** The anchors kept so far explain every removal and are far from every survivor. */
  ghost predicate MergeInvariant(work: seq<Row>, removed: seq<bool>, kept: seq<nat>, i: nat, radius: real, dist: Distance)
    requires |removed| == |work| && i <= |work|
  {
    StrictlyIncreasing(kept, i)
    && (forall k :: 0 <= k < i ==> (k in kept <==> !removed[k]))
    && (forall j :: 0 <= j < |work| && removed[j] ==>
          exists m :: 0 <= m < |kept| && kept[m] < j && Near(work[kept[m]].pos, work[j].pos, radius, dist))
    && (forall m, j :: 0 <= m < |kept| && kept[m] < j < |work| && !removed[j] ==>
          !Near(work[kept[m]].pos, work[j].pos, radius, dist))
  }

  lemma MergeStep(work: seq<Row>, removed: seq<bool>, removed': seq<bool>, kept: seq<nat>, i: nat,
                  radius: real, dist: Distance)
    requires |removed| == |work| == |removed'| && i < |work| && !removed[i]
    requires MergeInvariant(work, removed, kept, i, radius, dist)
    requires forall j :: 0 <= j < |work| ==>
      (removed'[j] <==> removed[j] || (i < j && Near(work[i].pos, work[j].pos, radius, dist)))
    ensures MergeInvariant(work, removed', kept + [i], i + 1, radius, dist)
  {
    var kept' := kept + [i];
    forall j | 0 <= j < |work| && removed'[j]
      ensures exists m :: 0 <= m < |kept'| && kept'[m] < j && Near(work[kept'[m]].pos, work[j].pos, radius, dist)
    {
      if removed[j] {
        var m :| 0 <= m < |kept| && kept[m] < j && Near(work[kept[m]].pos, work[j].pos, radius, dist);
        assert kept'[m] == kept[m];
      } else {
        assert kept'[|kept|] == i;
      }
    }
    forall m, j | 0 <= m < |kept'| && kept'[m] < j < |work| && !removed'[j]
      ensures !Near(work[kept'[m]].pos, work[j].pos, radius, dist)
    {
      if m < |kept| {
        assert kept'[m] == kept[m];
      }
    }
    forall k | 0 <= k < i + 1
      ensures k in kept' <==> !removed'[k]
    {
      if k < i {
        assert k in kept' <==> k in kept;
      }
    }
  }

  lemma MergeSkip(work: seq<Row>, removed: seq<bool>, kept: seq<nat>, i: nat, radius: real, dist: Distance)
    requires |removed| == |work| && i < |work| && removed[i]
    requires MergeInvariant(work, removed, kept, i, radius, dist)
    ensures MergeInvariant(work, removed, kept, i + 1, radius, dist)
  {
    assert i !in kept;
  }

  /** `merge_nearby_hospitals`: walk the ranked table; every row not yet removed
      becomes an anchor and removes each later row within `radius` of it. */
  method MergeNearbyHospitals(df: Option<seq<Row>>, radius: real, dist: Distance)
    returns (out: Option<seq<Row>>, ghost kept: seq<nat>)
    ensures df.None? || df.value == [] ==> out == df
    ensures df.Some? && df.value != [] ==>
      var work := RankedWork(df.value);
      out.Some? && StrictlyIncreasing(kept, |work|)
      && |out.value| == |kept|
      && (forall m :: 0 <= m < |kept| ==> out.value[m] == work[kept[m]])
      && kept != [] && kept[0] == 0
    ensures df.Some? && df.value != [] ==>
      var work := RankedWork(df.value);
      forall m, m' :: 0 <= m < m' < |kept| ==> !Near(work[kept[m]].pos, work[kept[m']].pos, radius, dist)
    ensures df.Some? && df.value != [] ==>
      var work := RankedWork(df.value);
      forall j :: 0 <= j < |work| && j !in kept ==>
        exists m :: 0 <= m < |kept| && kept[m] < j && Near(work[kept[m]].pos, work[j].pos, radius, dist)
  {
    kept := [];
    if df.None? || df.value == [] {
      return df, [];
    }
    var work := RankedWork(df.value);
    var rows;
    var removed;
    rows, kept, removed := MergeAnchors(work, radius, dist);
    out := Some(rows);
    MergeDone(work, removed, kept, radius, dist);
  }

  /** `rows` are the rows of `work` at the indices `kept`, in order. */
  ghost predicate Picked(rows: seq<Row>, work: seq<Row>, kept: seq<nat>) {
    |rows| == |kept| && forall m :: 0 <= m < |kept| ==> kept[m] < |work| && rows[m] == work[kept[m]]
  }

  lemma PickedAppend(rows: seq<Row>, work: seq<Row>, kept: seq<nat>, i: nat)
    requires Picked(rows, work, kept) && i < |work|
    ensures Picked(rows + [work[i]], work, kept + [i])
  {
  }

  /** The loop of `merge_nearby_hospitals` over the ranked table. */
  method MergeAnchors(work: seq<Row>, radius: real, dist: Distance)
    returns (rows: seq<Row>, ghost kept: seq<nat>, removed: seq<bool>)
    ensures |removed| == |work| && MergeInvariant(work, removed, kept, |work|, radius, dist)
    ensures |rows| == |kept| && forall m :: 0 <= m < |kept| ==> rows[m] == work[kept[m]]
  {
    kept := [];
    var n := |work|;
    removed := seq(n, _ => false);
    rows := [];
    var i := 0;
    while i < n
      invariant 0 <= i <= n && |removed| == n
      invariant MergeInvariant(work, removed, kept, i, radius, dist)
      invariant Picked(rows, work, kept)
    {
      if removed[i] {
        MergeSkip(work, removed, kept, i, radius, dist);
      } else {
        var removed' := RemoveNear(work, i, removed, radius, dist);
        MergeStep(work, removed, removed', kept, i, radius, dist);
        PickedAppend(rows, work, kept, i);
        kept := kept + [i];
        rows := rows + [work[i]];
        removed := removed';
      }
      i := i + 1;
    }
  }

  /** At the end of the walk the first row is an anchor, the anchors are pairwise far
      apart, and every other row lies near an earlier anchor. */
  lemma MergeDone(work: seq<Row>, removed: seq<bool>, kept: seq<nat>, radius: real, dist: Distance)
    requires work != [] && |removed| == |work|
    requires MergeInvariant(work, removed, kept, |work|, radius, dist)
    ensures StrictlyIncreasing(kept, |work|) && kept != [] && kept[0] == 0
    ensures forall m, m' :: 0 <= m < m' < |kept| ==> !Near(work[kept[m]].pos, work[kept[m']].pos, radius, dist)
    ensures forall j :: 0 <= j < |work| && j !in kept ==>
      exists m :: 0 <= m < |kept| && kept[m] < j && Near(work[kept[m]].pos, work[j].pos, radius, dist)
  {
    assert !removed[0];
    assert 0 in kept;
    forall m, m' | 0 <= m < m' < |kept|
      ensures !Near(work[kept[m]].pos, work[kept[m']].pos, radius, dist)
    {
      assert kept[m'] in kept;
    }
  }
}
