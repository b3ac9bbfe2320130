/**
 * poi/kml_merge.py: the edits the merge makes to the Document element of an existing
 * KML file. A Document is a list of child elements; the merge drops the old
 * point-of-interest folder, makes sure the shared line style exists, and appends one
 * top folder holding a folder per non-empty table.
 */
module KmlMerge {
  import opened Common
  import opened Text
  import opened Decimal
  import opened Tables
  import opened OverpassRows

  // ---------------------------------------------------------------------------
  // Colours
  // ---------------------------------------------------------------------------

  predicate IsHex(c: char) {
    ('0' <= c <= '9') || ('a' <= c <= 'f') || ('A' <= c <= 'F')
  }

  function HexVal(c: char): (v: nat)
    requires IsHex(c)
    ensures v < 16
  {
    if '0' <= c <= '9' then c as int - '0' as int
    else if 'a' <= c <= 'f' then c as int - 'a' as int + 10
    else c as int - 'A' as int + 10
  }

  /** The lower-case hex digit of `v`. */
  function HexChar(v: nat): char
    requires v < 16
  {
    "0123456789abcdef"[v]
  }

  /** The lower-case hex digits of `n`, without leading zeros. */
  function HexNat(n: nat): (s: string)
    ensures |s| >= 1
    ensures n >= 16 ==> |s| >= 2
  {
    if n < 16 then [HexChar(n)] else HexNat(n / 16) + [HexChar(n % 16)]
  }

  /** `f"{v:02x}"`: hex, zero-padded to two characters after the sign. */
  function FormatHex2(v: int): string {
    if v < 0 then "-" + HexNat(-v)
    else if v < 16 then "0" + HexNat(v)
    else HexNat(v)
  }

  /** `int(s, 16)` on a two-character slice: digits, one digit after a sign, or one
      digit with whitespace around it; `None` where it raises. */
  function HexPair(s: string): (r: Option<int>)
    requires |s| == 2
    ensures r.Some? ==> -15 <= r.value < 256
  {
    if IsHex(s[0]) && IsHex(s[1]) then Some(16 * HexVal(s[0]) + HexVal(s[1]))
    else if IsHex(s[1]) && (s[0] == '+' || IsSpace(s[0])) then Some(HexVal(s[1]))
    else if IsHex(s[1]) && s[0] == '-' then Some(-(HexVal(s[1]) as int))
    else if IsHex(s[0]) && IsSpace(s[1]) then Some(HexVal(s[0]))
    else None
  }

  /** The first index from `i` on that does not hold `c`. */
  function CharsEnd(s: string, c: char, i: nat): (j: nat)
    requires i <= |s|
    decreases |s| - i
    ensures i <= j <= |s|
    ensures forall k :: i <= k < j ==> s[k] == c
    ensures j < |s| ==> s[j] != c
  {
    if i < |s| && s[i] == c then CharsEnd(s, c, i + 1) else i
  }

  /** `str.lstrip(c)`: what follows the leading run of `c`. */
  function TrimLeftChar(s: string, c: char): string {
    s[CharsEnd(s, c, 0)..]
  }

  /** `lstrip` leaves a suffix with no leading `c`, and drops only `c`s. */
  lemma TrimLeftCharFacts(s: string, c: char)
    ensures var r := TrimLeftChar(s, c);
      |r| <= |s| && (r != [] ==> r[0] != c)
      && forall k :: 0 <= k < |s| - |r| ==> s[k] == c
  {
  }

  /** `_kml_color_from_hex_rgb`: "#RRGGBB" becomes "AABBGGRR"; `None` where `int` raises. */
  function KmlColor(rgb: string, alpha: nat): (r: Option<string>)
    ensures r.None? ==> |TrimLeftChar(Strip(rgb), '#')| == 6
    ensures alpha < 256 && r.Some? ==> |r.value| == 8
  {
    ColorOfTrimmed(TrimLeftChar(Strip(rgb), '#'), alpha)
  }

  /** The conversion once the text is trimmed and its leading '#' are gone. */
  function ColorOfTrimmed(s: string, alpha: nat): (c: Option<string>)
    ensures c.None? ==> |s| == 6
    ensures alpha < 256 && c.Some? ==> |c.value| == 8
  {
    if |s| != 6 then Some("ff0000ff")
    else
      match (HexPair(s[0..2]), HexPair(s[2..4]), HexPair(s[4..6]))
      case (Some(r), Some(g), Some(b)) =>
        FormatHex2Length(r);
        FormatHex2Length(g);
        FormatHex2Length(b);
        FormatHex2Length(alpha);
        Some(FormatHex2(alpha) + FormatHex2(b) + FormatHex2(g) + FormatHex2(r))
      case _ => None
  }

  /** A value `int(..., 16)` can read from two characters, or an alpha byte, prints as
      two characters. */
  lemma FormatHex2Length(v: int)
    ensures -15 <= v < 256 ==> |FormatHex2(v)| == 2
  {
    if 16 <= v < 256 {
      assert HexNat(v) == HexNat(v / 16) + [HexChar(v % 16)];
    }
  }

  /** A hex digit written back is the digit lower-cased. */
  lemma HexCharLower(c: char)
    requires IsHex(c)
    ensures HexChar(HexVal(c)) == LowerChar(c)
  {
  }

  /** Two hex digits: `v / 16` and `v % 16` of their value are the digits' values. */
  lemma HexPairDigits(x: nat, y: nat)
    requires x < 16 && y < 16
    ensures FormatHex2(16 * x + y) == [HexChar(x), HexChar(y)]
  {
    var v := 16 * x + y;
    if x == 0 {
      assert v == y;
    } else {
      assert v / 16 == x && v % 16 == y;
      assert HexNat(v) == HexNat(x) + [HexChar(y)];
    }
  }

  /** Formatting a byte read from two hex digits gives the digits back, lower-cased. */
  lemma HexByteRoundTrip(a: char, b: char)
    requires IsHex(a) && IsHex(b)
    ensures FormatHex2(16 * HexVal(a) + HexVal(b)) == Lower([a, b])
  {
    HexPairDigits(HexVal(a), HexVal(b));
    HexCharLower(a);
    HexCharLower(b);
  }

  /** Two hex digits at `i` read as a byte that formats back as the digits, lower-cased. */
  lemma HexSliceRoundTrip(s: string, i: nat)
    requires i + 2 <= |s| && IsHex(s[i]) && IsHex(s[i + 1])
    ensures HexPair(s[i..i + 2]).Some? && FormatHex2(HexPair(s[i..i + 2]).value) == Lower(s[i..i + 2])
  {
    assert s[i..i + 2] == [s[i], s[i + 1]];
    HexByteRoundTrip(s[i], s[i + 1]);
  }

  /** Text that is not six characters long once trimmed and stripped of leading '#'
      falls back to opaque red. */
  lemma KmlColorFallback(rgb: string, alpha: nat)
    requires |TrimLeftChar(Strip(rgb), '#')| != 6
    ensures KmlColor(rgb, alpha) == Some("ff0000ff")
  {
  }

  /** Six hex digits "RRGGBB" become the alpha followed by BB, GG and RR, lower-cased. */
  lemma TrimmedColorDigits(s: string, alpha: nat)
    requires |s| == 6 && forall i :: 0 <= i < 6 ==> IsHex(s[i])
    ensures ColorOfTrimmed(s, alpha) == Some(FormatHex2(alpha) + Lower(s[4..6]) + Lower(s[2..4]) + Lower(s[0..2]))
  {
    assert IsHex(s[0]) && IsHex(s[1]);
    assert IsHex(s[2]) && IsHex(s[3]);
    assert IsHex(s[4]) && IsHex(s[5]);
    HexSliceRoundTrip(s, 0);
    HexSliceRoundTrip(s, 2);
    HexSliceRoundTrip(s, 4);
  }

  /** Six hex digits "RRGGBB" become the alpha followed by BB, GG and RR, lower-cased. */
  lemma KmlColorDigits(rgb: string, alpha: nat)
    requires var s := TrimLeftChar(Strip(rgb), '#');
      |s| == 6 && forall i :: 0 <= i < 6 ==> IsHex(s[i])
    ensures var s := TrimLeftChar(Strip(rgb), '#');
      KmlColor(rgb, alpha) == Some(FormatHex2(alpha) + Lower(s[4..6]) + Lower(s[2..4]) + Lower(s[0..2]))
  {
    TrimmedColorDigits(TrimLeftChar(Strip(rgb), '#'), alpha);
  }

  // ---------------------------------------------------------------------------
  // The document tree
  // ---------------------------------------------------------------------------

  /** The body of a Style element the merge writes. */
  datatype StyleBody = IconStyle(scale: string, href: string) | LineStyle(color: string, width: string)

  /** The geometry of a placemark: a <Point>, or a tessellated <LineString>. Its
      <coordinates> text is `CoordinatesText`. */
  datatype Geometry = PointAt(pos: LatLon) | LineAlong(path: seq<LatLon>)

  /** A child element of a Document or Folder. A Folder's `name` is the text of its
      <name> child ("" for an empty one), `None` without one; a Style read from the file
      may hold anything (`body == None`). */
  datatype Elem =
    | Folder(name: Option<string>, items: seq<Elem>)
    | Style(id: Option<string>, body: Option<StyleBody>)
    | Placemark(title: string, styleUrl: Option<string>, geom: Geometry)
    | OtherElem(tag: string)

  /** A top-level folder `_remove_existing_folder` removes. */
  predicate IsNamedFolder(e: Elem, folderName: string) {
    e.Folder? && e.name.Some? && Strip(e.name.value) == folderName
  }

  /** The children with every folder of that (trimmed) name removed. */
  function WithoutFolder(children: seq<Elem>, folderName: string): (r: seq<Elem>)
    ensures |r| <= |children|
    decreases |children|
  {
    if children == [] then []
    else
      var init := WithoutFolder(children[..|children| - 1], folderName);
      var last := children[|children| - 1];
      if IsNamedFolder(last, folderName) then init else init + [last]
  }

  /** Exactly the matching folders go: every other child stays, and none that matches does. */
  lemma {:induction false} WithoutFolderMembers(children: seq<Elem>, folderName: string)
    ensures forall e :: e in WithoutFolder(children, folderName) <==> e in children && !IsNamedFolder(e, folderName)
    decreases |children|
  {
    if children != [] {
      var init := children[..|children| - 1];
      WithoutFolderMembers(init, folderName);
      assert children == init + [children[|children| - 1]];
    }
  }

  /** A document without such a folder is left as it is, order included. */
  lemma {:induction false} WithoutFolderNone(children: seq<Elem>, folderName: string)
    requires forall i :: 0 <= i < |children| ==> !IsNamedFolder(children[i], folderName)
    ensures WithoutFolder(children, folderName) == children
    decreases |children|
  {
    if children != [] {
      var init := children[..|children| - 1];
      WithoutFolderNone(init, folderName);
      assert children == init + [children[|children| - 1]];
    }
  }

  /** Some Style child has exactly this id. */
  predicate HasStyle(children: seq<Elem>, styleId: string) {
    exists i :: 0 <= i < |children| && children[i].Style? && children[i].id == Some(styleId)
  }

  /** The number of Style children with this id. */
  function StyleCount(children: seq<Elem>, styleId: string): nat
    decreases |children|
  {
    if children == [] then 0
    else
      var last := children[|children| - 1];
      StyleCount(children[..|children| - 1], styleId) + (if last.Style? && last.id == Some(styleId) then 1 else 0)
  }

  lemma {:induction false} StyleCountPositive(children: seq<Elem>, styleId: string)
    ensures StyleCount(children, styleId) > 0 <==> HasStyle(children, styleId)
    decreases |children|
  {
    if children != [] {
      var init := children[..|children| - 1];
      StyleCountPositive(init, styleId);
      if HasStyle(init, styleId) {
        var i :| 0 <= i < |init| && init[i].Style? && init[i].id == Some(styleId);
        assert children[i] == init[i];
      }
      if HasStyle(children, styleId) && !HasStyle(init, styleId) {
        var i :| 0 <= i < |children| && children[i].Style? && children[i].id == Some(styleId);
      }
    }
  }

  /** The children after `_ensure_style_*`: unchanged when the id exists, else the style appended. */
  function WithStyle(children: seq<Elem>, styleId: string, body: StyleBody): seq<Elem> {
    if HasStyle(children, styleId) then children else children + [Style(Some(styleId), Some(body))]
  }

  /** Ensuring a style twice is ensuring it once, and a style id is never added twice:
      afterwards it is present, and there are as many of it as before, or one. */
  lemma WithStyleOnce(children: seq<Elem>, styleId: string, body: StyleBody, body2: StyleBody)
    ensures WithStyle(WithStyle(children, styleId, body), styleId, body2) == WithStyle(children, styleId, body)
    ensures HasStyle(WithStyle(children, styleId, body), styleId)
    ensures StyleCount(WithStyle(children, styleId, body), styleId)
         == if HasStyle(children, styleId) then StyleCount(children, styleId) else 1
  {
    var c2 := WithStyle(children, styleId, body);
    StyleCountPositive(children, styleId);
    if !HasStyle(children, styleId) {
      assert c2[..|c2| - 1] == children;
      assert c2[|children|].Style? && c2[|children|].id == Some(styleId);
    }
  }

  // ---------------------------------------------------------------------------
  // Placemarks
  // ---------------------------------------------------------------------------

  /** `if style_url:` keeps only a non-empty URL. */
  function StyleOf(url: Option<string>): Option<string> {
    if url.Some? && url.value != "" then url else None
  }

  /** `f"{lon},{lat},0"`. */
  function CoordText(p: LatLon): string {
    Format(p.lon) + "," + Format(p.lat) + ",0"
  }

  function CoordTexts(path: seq<LatLon>): (r: seq<string>)
    ensures |r| == |path| && forall k :: 0 <= k < |path| ==> r[k] == CoordText(path[k])
  {
    seq(|path|, k requires 0 <= k < |path| => CoordText(path[k]))
  }

  /** The <coordinates> text: one "lon,lat,0" per point, space-joined in path order. */
  function CoordinatesText(g: Geometry): string {
    match g
    case PointAt(p) => CoordText(p)
    case LineAlong(path) => Join(CoordTexts(path), " ")
  }

  /** `_add_point`. */
  function PointPlacemark(name: string, p: LatLon, url: Option<string>): Elem {
    Placemark(name, StyleOf(url), PointAt(p))
  }

  /** `_add_line`: no placemark for fewer than two points. */
  function LinePlacemark(name: string, path: seq<LatLon>, url: Option<string>): (r: Option<Elem>)
    ensures r.Some? <==> |path| >= 2
    ensures r.Some? ==> r.value.Placemark? && r.value.geom == LineAlong(path) && r.value.title == name
  {
    if |path| < 2 then None else Some(Placemark(name, StyleOf(url), LineAlong(path)))
  }

  /** How a KML reader takes one "lon,lat,0" entry apart. */
  function ReadCoord(s: string): Option<LatLon> {
    var ps := SplitOn(s, ',');
    if |ps| != 3 || ps[2] != "0" then None
    else
      match (ParseNumber(ps[0]), ParseNumber(ps[1]))
      case (Some(lon), Some(lat)) => Some(LatLon(lat, lon))
      case _ => None
  }

  /** All the values, if none is missing. */
  function AllSome(os: seq<Option<LatLon>>): Option<seq<LatLon>>
    decreases |os|
  {
    if os == [] then Some([])
    else
      match (os[0], AllSome(os[1..]))
      case (Some(p), Some(rest)) => Some([p] + rest)
      case _ => None
  }

  /** Every entry read as a point; `None` if any entry does not read. */
  function ReadCoordList(ps: seq<string>): Option<seq<LatLon>> {
    AllSome(ReadEach(ps))
  }

  /** Each entry read on its own. */
  function ReadEach(ps: seq<string>): (os: seq<Option<LatLon>>)
    ensures |os| == |ps|
    decreases |ps|
  {
    if ps == [] then [] else [ReadCoord(ps[0])] + ReadEach(ps[1..])
  }

  lemma {:induction false} ReadEachAt(ps: seq<string>, k: nat)
    requires k < |ps|
    ensures ReadEach(ps)[k] == ReadCoord(ps[k])
    decreases k
  {
    if k > 0 {
      ReadEachAt(ps[1..], k - 1);
    }
  }

  /** Values that are all present give the list of them. */
  lemma {:induction false} AllSomeOf(os: seq<Option<LatLon>>, path: seq<LatLon>)
    requires |os| == |path| && forall k :: 0 <= k < |os| ==> os[k] == Some(path[k])
    ensures AllSome(os) == Some(path)
    decreases |os|
  {
    if os != [] {
      AllSomeOf(os[1..], path[1..]);
      assert [path[0]] + path[1..] == path;
    }
  }

  /** A space-separated coordinates text, read back. */
  function ReadCoords(s: string): Option<seq<LatLon>> {
    ReadCoordList(SplitOn(s, ' '))
  }

  lemma NoSpaceInFormat(n: Num)
    ensures ' ' !in Format(n)
  {
    forall i | 0 <= i < |Format(n)| ensures Format(n)[i] != ' ' {
      FormatAlphabet(n, i);
    }
  }

  lemma SplitCoord(a: string, b: string)
    requires ',' !in a && ',' !in b
    ensures SplitOn(a + "," + b + ",0", ',') == [a, b, "0"]
  {
    var tail := b + [','] + "0";
    assert a + "," + b + ",0" == a + [','] + tail;
    SplitOnFirst(a, ',', tail);
    SplitOnFirst(b, ',', "0");
    SplitOnAbsent("0", ',');
  }

  /** "a,b,0" reads back as (b, a) when neither number text holds a comma. */
  lemma ReadCoordOf(a: string, b: string, lon: Number, lat: Number)
    requires ',' !in a && ',' !in b
    requires ParseNumber(a) == Some(lon) && ParseNumber(b) == Some(lat)
    ensures ReadCoord(a + "," + b + ",0") == Some(LatLon(lat, lon))
  {
    SplitCoord(a, b);
  }

  /** One point's text reads back as the point, and holds no space. */
  lemma CoordTextRoundTrip(p: LatLon)
    ensures ReadCoord(CoordText(p)) == Some(p)
    ensures ' ' !in CoordText(p)
  {
    CoordTextReads(p);
    CoordTextNoSpace(p);
  }

  lemma CoordTextReads(p: LatLon)
    ensures ReadCoord(CoordText(p)) == Some(p)
  {
    NoCommaInFormat(p.lon);
    NoCommaInFormat(p.lat);
    ParseFormat(p.lon);
    ParseFormat(p.lat);
    ReadCoordOf(Format(p.lon), Format(p.lat), p.lon, p.lat);
  }

  lemma CoordTextNoSpace(p: LatLon)
    ensures ' ' !in CoordText(p)
  {
    NoSpaceInFormat(p.lon);
    NoSpaceInFormat(p.lat);
  }

  /** A list of entries that each read back reads back as the list of their points. */
  lemma ReadCoordListAll(ts: seq<string>, path: seq<LatLon>)
    requires |ts| == |path| && forall k :: 0 <= k < |ts| ==> ReadCoord(ts[k]) == Some(path[k])
    ensures ReadCoordList(ts) == Some(path)
  {
    forall k | 0 <= k < |ts| ensures ReadEach(ts)[k] == Some(path[k]) {
      ReadEachAt(ts, k);
    }
    AllSomeOf(ReadEach(ts), path);
  }

  /** The coordinates text of a line reads back as its path, point by point in order. */
  lemma LineCoordsRoundTrip(path: seq<LatLon>)
    requires path != []
    ensures ReadCoords(CoordinatesText(LineAlong(path))) == Some(path)
  {
    var ts := CoordTexts(path);
    forall k | 0 <= k < |path| ensures ' ' !in ts[k] && ReadCoord(ts[k]) == Some(path[k]) {
      CoordTextRoundTrip(path[k]);
    }
    SplitOnJoin(ts, ' ');
    ReadCoordListAll(ts, path);
  }

  // ---------------------------------------------------------------------------
  // Row routing
  // ---------------------------------------------------------------------------

  const LineStyleId := "poi_line_style"

  /** A line's name: the row's name, or "tname kind" trimmed. */
  function LineName(tname: string, row: Row): string {
    var name := Strip(row.name);
    if name != "" then name else Strip(tname + " " + Strip(row.kind.GetOr("")))
  }

  /** A point's name: the row's name, or the table name. */
  function PointName(tname: string, row: Row): string {
    var name := Strip(row.name);
    if name != "" then name else tname
  }

  /** A row with a Geometry of at least two points is a line. */
  predicate IsLineRow(row: Row) {
    row.geometry.Some? && |row.geometry.value| >= 2
  }

  /** The placemark one row becomes (`iterrows` body), if any. */
  function RowPlacemark(tname: string, row: Row, url: Option<string>): Option<Elem> {
    if IsLineRow(row) then LinePlacemark(LineName(tname, row), row.geometry.value, Some("#" + LineStyleId))
    else if row.pos.Some? then Some(PointPlacemark(PointName(tname, row), row.pos.value, url))
    else None
  }

  /** The routing: a line row gives a line in the shared line style that carries its
      geometry; any other row with a position gives a point at that position in the
      table's icon style; a row with neither gives nothing. */
  lemma RowPlacemarkRouting(tname: string, row: Row, url: Option<string>)
    ensures RowPlacemark(tname, row, url).Some? <==> IsLineRow(row) || row.pos.Some?
    ensures IsLineRow(row) ==>
      var pm := RowPlacemark(tname, row, url).value;
      pm.Placemark? && pm.geom == LineAlong(row.geometry.value) && pm.title == LineName(tname, row)
      && pm.styleUrl == Some("#" + LineStyleId)
    ensures !IsLineRow(row) && row.pos.Some? ==>
      var pm := RowPlacemark(tname, row, url).value;
      pm.Placemark? && pm.geom == PointAt(row.pos.value) && pm.title == PointName(tname, row)
      && pm.styleUrl == StyleOf(url)
  {
  }

  /** Every name the merge writes is non-empty when the table name is: a blank row name
      falls back to the table name (points) or "tname kind" (lines). */
  lemma RowNamesNonEmpty(tname: string, row: Row)
    requires Stripped(tname) && tname != ""
    ensures PointName(tname, row) != "" && LineName(tname, row) != ""
  {
    LineNameNonEmpty(tname, row);
  }

  lemma LineNameNonEmpty(tname: string, row: Row)
    requires Stripped(tname) && tname != ""
    ensures LineName(tname, row) != ""
  {
    if Strip(row.name) == "" {
      var full := tname + " " + Strip(row.kind.GetOr(""));
      assert full[0] == tname[0];
      StripNonEmpty(full);
    }
  }

  /** The placemarks of a table's rows, in row order. */
  function TypeItems(tname: string, rows: seq<Row>, url: Option<string>): (items: seq<Elem>)
    ensures |items| <= |rows|
    ensures forall k :: 0 <= k < |items| ==> items[k].Placemark?
    decreases |rows|
  {
    if rows == [] then []
    else
      var init := TypeItems(tname, rows[..|rows| - 1], url);
      match RowPlacemark(tname, rows[|rows| - 1], url)
      case None => init
      case Some(pm) => init + [pm]
  }

  /** `"poi_icon_" + tname` with spaces and slashes replaced by '_'. */
  function StyleIdFor(tname: string): string {
    ReplaceChar(ReplaceChar("poi_icon_" + tname, ' ', '_'), '/', '_')
  }

  /** The style URL of a table's points: its icon style when the table has an icon file. */
  function IconUrl(tname: string, iconHref: string -> Option<string>): Option<string> {
    if iconHref(tname).Some? then Some("#" + StyleIdFor(tname)) else None
  }

  /** A table with rows: `df is not None and not df.empty`. */
  predicate NonEmptyTable(df: Option<seq<Row>>) {
    df.Some? && df.value != []
  }

  /** The type folders of the top folder, one per non-empty table in order. */
  function TopItems(entries: seq<(string, Option<seq<Row>>)>, iconHref: string -> Option<string>): (items: seq<Elem>)
    ensures |items| <= |entries|
    decreases |entries|
  {
    if entries == [] then []
    else
      var init := TopItems(entries[..|entries| - 1], iconHref);
      var (tname, df) := entries[|entries| - 1];
      if NonEmptyTable(df) then init + [Folder(Some(tname), TypeItems(tname, df.value, IconUrl(tname, iconHref)))]
      else init
  }

  /** `e` is the type folder of a non-empty table. */
  predicate TypeFolderOf(e: Elem, entry: (string, Option<seq<Row>>), iconHref: string -> Option<string>) {
    NonEmptyTable(entry.1) && e == Folder(Some(entry.0), TypeItems(entry.0, entry.1.value, IconUrl(entry.0, iconHref)))
  }

  /** Each type folder is named after a non-empty table and holds that table's placemarks:
      a None or empty table gets no folder. */
  lemma {:induction false} TopItemsFrom(entries: seq<(string, Option<seq<Row>>)>, iconHref: string -> Option<string>)
    ensures forall k :: 0 <= k < |TopItems(entries, iconHref)| ==>
      exists i :: 0 <= i < |entries| && TypeFolderOf(TopItems(entries, iconHref)[k], entries[i], iconHref)
    decreases |entries|
  {
    if entries != [] {
      var n := |entries|;
      var pre := entries[..n - 1];
      TopItemsFrom(pre, iconHref);
      var items := TopItems(entries, iconHref);
      var preItems := TopItems(pre, iconHref);
      assert items[..|preItems|] == preItems;
      assert |items| > |preItems| ==> |items| == |preItems| + 1 && TypeFolderOf(items[|preItems|], entries[n - 1], iconHref);
      forall k | 0 <= k < |TopItems(entries, iconHref)|
        ensures exists i :: 0 <= i < |entries| && TypeFolderOf(TopItems(entries, iconHref)[k], entries[i], iconHref)
      {
        if k < |preItems| {
          var i :| 0 <= i < |pre| && TypeFolderOf(preItems[k], pre[i], iconHref);
          assert entries[i] == pre[i] && items[k] == preItems[k];
        } else {
          assert TypeFolderOf(items[k], entries[n - 1], iconHref);
        }
      }
    } else {
      assert TopItems(entries, iconHref) == [];
    }
  }

  /** The folder of a table with rows. */
  function FolderOfTable(entry: (string, Option<seq<Row>>), iconHref: string -> Option<string>): (e: Elem)
    requires NonEmptyTable(entry.1)
    ensures TypeFolderOf(e, entry, iconHref)
  {
    Folder(Some(entry.0), TypeItems(entry.0, entry.1.value, IconUrl(entry.0, iconHref)))
  }

  /** One more table adds its folder when it has rows. */
  lemma TopItemsSnoc(entries: seq<(string, Option<seq<Row>>)>, iconHref: string -> Option<string>)
    requires entries != [] && NonEmptyTable(entries[|entries| - 1].1)
    ensures TopItems(entries, iconHref)
      == TopItems(entries[..|entries| - 1], iconHref) + [FolderOfTable(entries[|entries| - 1], iconHref)]
  {
  }

  /** When every table has rows there is one type folder per table, in order. */
  lemma {:induction false} TopItemsAll(entries: seq<(string, Option<seq<Row>>)>, iconHref: string -> Option<string>)
    requires forall i :: 0 <= i < |entries| ==> NonEmptyTable(entries[i].1)
    ensures |TopItems(entries, iconHref)| == |entries|
    ensures forall i :: 0 <= i < |entries| ==> TypeFolderOf(TopItems(entries, iconHref)[i], entries[i], iconHref)
    decreases |entries|
  {
    if entries != [] {
      var n := |entries|;
      var pre := entries[..n - 1];
      assert forall i :: 0 <= i < |pre| ==> pre[i] == entries[i];
      TopItemsAll(pre, iconHref);
      TopItemsSnoc(entries, iconHref);
      FoldersSnoc(TopItems(pre, iconHref), entries, iconHref);
    }
  }

  /** Folders matching a prefix of the tables, followed by the last table's folder, match
      all of them. */
  lemma FoldersSnoc(preItems: seq<Elem>, entries: seq<(string, Option<seq<Row>>)>, iconHref: string -> Option<string>)
    requires entries != [] && |preItems| == |entries| - 1 && NonEmptyTable(entries[|entries| - 1].1)
    requires forall i :: 0 <= i < |preItems| ==> TypeFolderOf(preItems[i], entries[i], iconHref)
    ensures var items := preItems + [FolderOfTable(entries[|entries| - 1], iconHref)];
      forall i :: 0 <= i < |entries| ==> TypeFolderOf(items[i], entries[i], iconHref)
  {
    var items := preItems + [FolderOfTable(entries[|entries| - 1], iconHref)];
    forall i | 0 <= i < |entries| ensures TypeFolderOf(items[i], entries[i], iconHref) {
      if i < |preItems| {
        assert items[i] == preItems[i];
      }
    }
  }

  // ---------------------------------------------------------------------------
  // The merge
  // ---------------------------------------------------------------------------

  /** The document after one table of the loop: its icon style ensured, its folder
      appended to the top folder at `topIdx`. */
  function AddType(doc: seq<Elem>, topIdx: nat, entry: (string, Option<seq<Row>>), iconHref: string -> Option<string>)
    : (r: seq<Elem>)
    requires topIdx < |doc| && doc[topIdx].Folder?
    ensures |r| >= |doc| && r[topIdx].Folder?
  {
    var (tname, df) := entry;
    if !NonEmptyTable(df) then doc
    else
      var href := iconHref(tname);
      var doc2 := if href.Some? then WithStyle(doc, StyleIdFor(tname), IconStyle("1.0", href.value)) else doc;
      var top := doc2[topIdx];
      doc2[topIdx := Folder(top.name, top.items + [Folder(Some(tname), TypeItems(tname, df.value, IconUrl(tname, iconHref)))])]
  }

  /** The document after the loop over the tables. */
  function AddTypes(doc: seq<Elem>, topIdx: nat, entries: seq<(string, Option<seq<Row>>)>, iconHref: string -> Option<string>)
    : (r: seq<Elem>)
    requires topIdx < |doc| && doc[topIdx].Folder?
    ensures |r| >= |doc| && r[topIdx].Folder?
    decreases |entries|
  {
    if entries == [] then doc
    else AddType(AddTypes(doc, topIdx, entries[..|entries| - 1], iconHref), topIdx, entries[|entries| - 1], iconHref)
  }

  /** `r` keeps what `doc` has before and after the top folder at `topIdx`, including the
      top folder's name, and adds only styles at the end. */
  predicate KeepsAround(doc: seq<Elem>, r: seq<Elem>, topIdx: nat)
    requires topIdx < |doc| && topIdx < |r| && doc[topIdx].Folder? && r[topIdx].Folder?
  {
    && |r| >= |doc| && r[..topIdx] == doc[..topIdx] && r[topIdx].name == doc[topIdx].name
    && (forall i :: |doc| <= i < |r| ==> r[i].Style?)
    && (forall i :: topIdx < i < |doc| ==> r[i] == doc[i])
  }

  /** One table's step touches only the top folder and may append its icon style. */
  lemma AddTypeKeeps(doc: seq<Elem>, topIdx: nat, entry: (string, Option<seq<Row>>), iconHref: string -> Option<string>)
    requires topIdx < |doc| && doc[topIdx].Folder?
    ensures KeepsAround(doc, AddType(doc, topIdx, entry, iconHref), topIdx)
  {
  }

  /** Keeping what is around the top folder survives a further step. */
  lemma KeepsAroundTrans(doc: seq<Elem>, mid: seq<Elem>, r: seq<Elem>, topIdx: nat)
    requires topIdx < |doc| && topIdx < |mid| && topIdx < |r| && doc[topIdx].Folder? && mid[topIdx].Folder? && r[topIdx].Folder?
    requires KeepsAround(doc, mid, topIdx) && KeepsAround(mid, r, topIdx)
    ensures KeepsAround(doc, r, topIdx)
  {
    assert r[..topIdx] == mid[..topIdx];
    forall i | |doc| <= i < |r| ensures r[i].Style? {
      if i < |mid| {
        assert r[i] == mid[i];
      }
    }
  }

  /** The whole loop touches only the top folder and appends only styles. */
  lemma {:induction false} AddTypesKeeps(doc: seq<Elem>, topIdx: nat, entries: seq<(string, Option<seq<Row>>)>,
                                         iconHref: string -> Option<string>)
    requires topIdx < |doc| && doc[topIdx].Folder?
    ensures KeepsAround(doc, AddTypes(doc, topIdx, entries, iconHref), topIdx)
    decreases |entries|
  {
    if entries != [] {
      var mid := AddTypes(doc, topIdx, entries[..|entries| - 1], iconHref);
      AddTypesKeeps(doc, topIdx, entries[..|entries| - 1], iconHref);
      AddTypeKeeps(mid, topIdx, entries[|entries| - 1], iconHref);
      KeepsAroundTrans(doc, mid, AddTypes(doc, topIdx, entries, iconHref), topIdx);
    }
  }

  /** The top folder ends up holding exactly the type folders. */
  lemma {:induction false} AddTypesTop(doc: seq<Elem>, topIdx: nat, entries: seq<(string, Option<seq<Row>>)>,
                                       iconHref: string -> Option<string>)
    requires topIdx < |doc| && doc[topIdx].Folder?
    ensures AddTypes(doc, topIdx, entries, iconHref)[topIdx].items == doc[topIdx].items + TopItems(entries, iconHref)
    decreases |entries|
  {
    if entries != [] {
      AddTypesTop(doc, topIdx, entries[..|entries| - 1], iconHref);
    }
  }

  /** The shared line style the merge adds first; `None` where its colour raises. */
  function LineStyleBody(lineRgb: string): Option<StyleBody> {
    match KmlColor(lineRgb, 255)
    case Some(c) => Some(LineStyle(c, IntToString(3)))
    case None => None
  }

  /** The Document before the type loop: old folder removed, line style ensured, empty top
      folder appended; `None` where the line colour raises. */
  function MergeBase(children: seq<Elem>, topName: string, lineRgb: string): (r: Option<seq<Elem>>)
    ensures r.Some? ==> r.value != [] && r.value[|r.value| - 1] == Folder(Some(topName), [])
  {
    var d1 := WithoutFolder(children, topName);
    if HasStyle(d1, LineStyleId) then Some(d1 + [Folder(Some(topName), [])])
    else
      match LineStyleBody(lineRgb)
      case None => None
      case Some(body) => Some(d1 + [Style(Some(LineStyleId), Some(body))] + [Folder(Some(topName), [])])
  }

  /** The Document before the top folder is appended, once the line style is ensured. */
  lemma MergeBaseIs(children: seq<Elem>, topName: string, lineRgb: string, styled: seq<Elem>)
    requires var d1 := WithoutFolder(children, topName);
      (HasStyle(d1, LineStyleId) && styled == d1)
      || (!HasStyle(d1, LineStyleId) && KmlColor(lineRgb, 255).Some?
          && styled == d1 + [Style(Some(LineStyleId), Some(LineStyle(KmlColor(lineRgb, 255).value, IntToString(3))))])
    ensures MergeBase(children, topName, lineRgb) == Some(styled + [Folder(Some(topName), [])])
  {
  }

  /** Without the line style and with a colour that does not convert, the merge raises. */
  lemma MergeBaseFails(children: seq<Elem>, topName: string, lineRgb: string)
    requires !HasStyle(WithoutFolder(children, topName), LineStyleId) && KmlColor(lineRgb, 255).None?
    ensures MergeBase(children, topName, lineRgb).None?
  {
  }

  /** The Document after `merge_pois_into_existing_kml`, or `None` where it raises. */
  function Merged(children: seq<Elem>, entries: seq<(string, Option<seq<Row>>)>, iconHref: string -> Option<string>,
                  topName: string, lineRgb: string): Option<seq<Elem>>
  {
    match MergeBase(children, topName, lineRgb)
    case None => None
    case Some(base) => Some(AddTypes(base, |base| - 1, entries, iconHref))
  }

  /** The merge runs the type loop on the base Document. */
  lemma MergedIs(children: seq<Elem>, entries: seq<(string, Option<seq<Row>>)>, iconHref: string -> Option<string>,
                 topName: string, lineRgb: string, base: seq<Elem>)
    requires MergeBase(children, topName, lineRgb) == Some(base)
    ensures base != [] && base[|base| - 1].Folder?
    ensures Merged(children, entries, iconHref, topName, lineRgb) == Some(AddTypes(base, |base| - 1, entries, iconHref))
  {
  }

  /** Before the top folder: no folder of that name, the line style, and the old Document
      without its folders of that name. */
  lemma MergeBaseFacts(children: seq<Elem>, topName: string, lineRgb: string)
    requires MergeBase(children, topName, lineRgb).Some?
    ensures var base := MergeBase(children, topName, lineRgb).value;
      var pre := base[..|base| - 1];
      && (forall i :: 0 <= i < |pre| ==> !IsNamedFolder(pre[i], topName))
      && HasStyle(pre, LineStyleId)
      && |WithoutFolder(children, topName)| <= |pre|
      && pre[..|WithoutFolder(children, topName)|] == WithoutFolder(children, topName)
  {
    var base := MergeBase(children, topName, lineRgb).value;
    var pre := base[..|base| - 1];
    var d1 := WithoutFolder(children, topName);
    WithoutFolderMembers(children, topName);
    assert pre[..|d1|] == d1;
    forall i | 0 <= i < |pre| ensures !IsNamedFolder(pre[i], topName) {
      if i < |d1| {
        assert pre[i] == d1[i] && d1[i] in d1;
      }
    }
    if !HasStyle(d1, LineStyleId) {
      assert pre[|d1|].Style? && pre[|d1|].id == Some(LineStyleId);
    } else {
      var i :| 0 <= i < |d1| && d1[i].Style? && d1[i].id == Some(LineStyleId);
      assert pre[i] == d1[i];
    }
  }

  /** A document that keeps a prefix, has the top folder right after it and only styles
      beyond that, holds exactly one folder of the top folder's name. */
  lemma OnlyTopNamed(pre: seq<Elem>, r: seq<Elem>, topName: string, top: Elem)
    requires |r| > |pre| && r[..|pre|] == pre && r[|pre|] == top && IsNamedFolder(top, topName)
    requires forall i :: 0 <= i < |pre| ==> !IsNamedFolder(pre[i], topName)
    requires forall i :: |pre| < i < |r| ==> r[i].Style?
    ensures forall i :: 0 <= i < |r| && IsNamedFolder(r[i], topName) ==> i == |pre|
  {
    forall i | 0 <= i < |pre| ensures !IsNamedFolder(r[i], topName) {
      assert r[i] == pre[i];
    }
  }

  /** The type loop on a base ending in the empty top folder. */
  lemma TypesAfterBase(base: seq<Elem>, topName: string, entries: seq<(string, Option<seq<Row>>)>,
                       iconHref: string -> Option<string>)
    requires base != [] && base[|base| - 1] == Folder(Some(topName), [])
    ensures TopAfter(base[..|base| - 1], AddTypes(base, |base| - 1, entries, iconHref), topName, TopItems(entries, iconHref))
  {
    AddTypesTop(base, |base| - 1, entries, iconHref);
    AddTypesKeeps(base, |base| - 1, entries, iconHref);
    TopAfterOf(base, AddTypes(base, |base| - 1, entries, iconHref), topName, TopItems(entries, iconHref));
  }

  /** A Document that keeps everything around the base's empty top folder, whose top folder
      gained `items`. */
  lemma TopAfterOf(base: seq<Elem>, r: seq<Elem>, topName: string, items: seq<Elem>)
    requires base != [] && base[|base| - 1] == Folder(Some(topName), [])
    requires |base| - 1 < |r| && r[|base| - 1].Folder?
    requires KeepsAround(base, r, |base| - 1)
    requires r[|base| - 1].items == base[|base| - 1].items + items
    ensures TopAfter(base[..|base| - 1], r, topName, items)
  {
    assert r[|base| - 1] == Folder(Some(topName), items);
  }

  /** After the merge exactly one top-level folder has the top folder's name, it holds one
      folder per non-empty table, the shared line style exists, and the Document starts
      with its old children minus the replaced folders, in their old order (see
      `WithoutFolderMembers`). */
  lemma MergedShape(children: seq<Elem>, entries: seq<(string, Option<seq<Row>>)>, iconHref: string -> Option<string>,
                    topName: string, lineRgb: string)
    requires Stripped(topName)
    requires Merged(children, entries, iconHref, topName, lineRgb).Some?
    ensures Merged(children, entries, iconHref, topName, lineRgb).Some?
    ensures TopFolderUnique(Merged(children, entries, iconHref, topName, lineRgb).value, topName, TopItems(entries, iconHref))
    ensures HasStyle(Merged(children, entries, iconHref, topName, lineRgb).value, LineStyleId)
    ensures KeepsPrefix(Merged(children, entries, iconHref, topName, lineRgb).value, WithoutFolder(children, topName))
  {
    var base := MergeBase(children, topName, lineRgb).value;
    var r := AddTypes(base, |base| - 1, entries, iconHref);
    MergedIs(children, entries, iconHref, topName, lineRgb, base);
    StripOfStripped(topName);
    TypesAfterBase(base, topName, entries, iconHref);
    MergeBasePart(children, topName, lineRgb);
    ShapeFromParts(base[..|base| - 1], r, WithoutFolder(children, topName), topName, TopItems(entries, iconHref));
  }

  /** What the base Document before its top folder carries over from the old one. */
  lemma MergeBasePart(children: seq<Elem>, topName: string, lineRgb: string)
    requires MergeBase(children, topName, lineRgb).Some?
    ensures var base := MergeBase(children, topName, lineRgb).value;
      KeptBefore(base[..|base| - 1], WithoutFolder(children, topName), topName)
  {
    MergeBaseFacts(children, topName, lineRgb);
  }

  /** `r` is `pre`, then the top folder, then styles only. */
  predicate TopAfter(pre: seq<Elem>, r: seq<Elem>, topName: string, items: seq<Elem>) {
    && |pre| < |r| && r[..|pre|] == pre && r[|pre|] == Folder(Some(topName), items)
    && (forall i :: |pre| < i < |r| ==> r[i].Style?)
  }

  /** `pre` starts with `kept`, has the line style, and no folder of the top folder's name. */
  predicate KeptBefore(pre: seq<Elem>, kept: seq<Elem>, topName: string) {
    && (forall i :: 0 <= i < |pre| ==> !IsNamedFolder(pre[i], topName))
    && HasStyle(pre, LineStyleId)
    && |kept| <= |pre| && pre[..|kept|] == kept
  }

  /** A Document made of a kept prefix without folders of the top folder's name but with
      the line style, then the top folder, then styles only. */
  predicate DocumentParts(pre: seq<Elem>, r: seq<Elem>, kept: seq<Elem>, topName: string, items: seq<Elem>) {
    Strip(topName) == topName && TopAfter(pre, r, topName, items) && KeptBefore(pre, kept, topName)
  }

  /** The Document holds the folder, and no other folder of its name. */
  predicate TopFolderUnique(r: seq<Elem>, topName: string, items: seq<Elem>) {
    (exists t :: 0 <= t < |r| && r[t] == Folder(Some(topName), items))
    && forall i, j :: 0 <= i < |r| && 0 <= j < |r| && IsNamedFolder(r[i], topName) && IsNamedFolder(r[j], topName) ==> i == j
  }

  /** `r` starts with `kept`. */
  predicate KeepsPrefix(r: seq<Elem>, kept: seq<Elem>) {
    |kept| <= |r| && r[..|kept|] == kept
  }

  /** The shape of a Document made of the base without its last element, the top folder
      and styles. */
  lemma ShapeFromParts(pre: seq<Elem>, r: seq<Elem>, kept: seq<Elem>, topName: string, items: seq<Elem>)
    requires DocumentParts(pre, r, kept, topName, items)
    ensures TopFolderUnique(r, topName, items)
    ensures HasStyle(r, LineStyleId)
    ensures KeepsPrefix(r, kept)
  {
    OnlyTopNamed(pre, r, topName, Folder(Some(topName), items));
    PrefixFacts(pre, r, kept);
  }

  /** What the kept prefix carries over: the line style and the surviving old children. */
  lemma PrefixFacts(pre: seq<Elem>, r: seq<Elem>, kept: seq<Elem>)
    requires |pre| <= |r| && r[..|pre|] == pre
    requires HasStyle(pre, LineStyleId)
    requires |kept| <= |pre| && pre[..|kept|] == kept
    ensures HasStyle(r, LineStyleId)
    ensures r[..|kept|] == kept
  {
    var j :| 0 <= j < |pre| && pre[j].Style? && pre[j].id == Some(LineStyleId);
    assert r[j] == pre[j];
  }

  /** A Document element, edited in place. */
  class KmlDocument {
    var children: seq<Elem>

    constructor (children0: seq<Elem>)
      ensures children == children0
    {
      children := children0;
    }

    /** `_remove_existing_folder`. */
    method RemoveExistingFolder(folderName: string)
      modifies this
      ensures children == WithoutFolder(old(children), folderName)
    {
      var kept: seq<Elem> := [];
      var i := 0;
      while i < |children|
        invariant 0 <= i <= |children|
        invariant kept == WithoutFolder(children[..i], folderName)
      {
        assert children[..i + 1][..i] == children[..i];
        var child := children[i];
        if !(child.Folder? && child.name.Some? && Strip(child.name.value) == folderName) {
          kept := kept + [child];
        }
        i := i + 1;
      }
      assert children[..i] == children;
      children := kept;
    }

    /** The shared body of `_ensure_style_icon` and `_ensure_style_line`. */
    method EnsureStyle(styleId: string, body: StyleBody)
      modifies this
      ensures children == WithStyle(old(children), styleId, body)
    {
      var i := 0;
      while i < |children|
        invariant 0 <= i <= |children|
        invariant forall j :: 0 <= j < i ==> !(children[j].Style? && children[j].id == Some(styleId))
      {
        if children[i].Style? && children[i].id == Some(styleId) {
          return;
        }
        i := i + 1;
      }
      children := children + [Style(Some(styleId), Some(body))];
    }

    /** `_ensure_style_icon`. */
    method EnsureStyleIcon(styleId: string, iconHref: string)
      modifies this
      ensures children == WithStyle(old(children), styleId, IconStyle("1.0", iconHref))
    {
      EnsureStyle(styleId, IconStyle("1.0", iconHref));
    }

    /** `_ensure_style_line`: the colour is converted only when the style is missing;
        `ok` is false where the conversion raises, and nothing changes then. */
    method EnsureStyleLine(styleId: string, rgb: string, width: int) returns (ok: bool)
      modifies this
      ensures ok == (HasStyle(old(children), styleId) || KmlColor(rgb, 255).Some?)
      ensures ok && HasStyle(old(children), styleId) ==> children == old(children)
      ensures ok && !HasStyle(old(children), styleId) ==>
        children == old(children) + [Style(Some(styleId), Some(LineStyle(KmlColor(rgb, 255).value, IntToString(width))))]
      ensures !ok ==> children == old(children)
    {
      if HasStyle(children, styleId) {
        return true;
      }
      var color := KmlColor(rgb, 255);
      if color.None? {
        return false;
      }
      EnsureStyle(styleId, LineStyle(color.value, IntToString(width)));
      return true;
    }

    /** The row loop: the type folder and its placemarks. */
    static method TypeFolder(tname: string, rows: seq<Row>, url: Option<string>) returns (f: Elem)
      ensures f == Folder(Some(tname), TypeItems(tname, rows, url))
    {
      var items: seq<Elem> := [];
      var i := 0;
      while i < |rows|
        invariant 0 <= i <= |rows|
        invariant items == TypeItems(tname, rows[..i], url)
      {
        assert rows[..i + 1][..i] == rows[..i];
        var pm := RowPlacemark(tname, rows[i], url);
        if pm.Some? {
          items := items + [pm.value];
        }
        i := i + 1;
      }
      assert rows[..i] == rows;
      f := Folder(Some(tname), items);
    }

    /** The loop over the tables, from the Document with the empty top folder at `topIdx`. */
    method AddTypeFolders(topIdx: nat, entries: seq<(string, Option<seq<Row>>)>, iconHref: string -> Option<string>)
      requires topIdx < |children| && children[topIdx].Folder?
      modifies this
      ensures children == AddTypes(old(children), topIdx, entries, iconHref)
    {
      ghost var base := children;
      var i := 0;
      while i < |entries|
        invariant 0 <= i <= |entries|
        invariant children == AddTypes(base, topIdx, entries[..i], iconHref)
      {
        assert entries[..i + 1][..i] == entries[..i];
        var (tname, df) := entries[i];
        if df.Some? && df.value != [] {
          var url: Option<string> := None;
          var href := iconHref(tname);
          if href.Some? {
            var styleId := StyleIdFor(tname);
            EnsureStyleIcon(styleId, href.value);
            url := Some("#" + styleId);
          }
          var folder := TypeFolder(tname, df.value, url);
          var top := children[topIdx];
          children := children[topIdx := Folder(top.name, top.items + [folder])];
        }
        i := i + 1;
      }
      assert entries[..i] == entries;
    }

    /** `merge_pois_into_existing_kml` between parse and write. `ok` is false where the
        line colour raises; the old folder is gone by then. */
    method MergePois(entries: seq<(string, Option<seq<Row>>)>, iconHref: string -> Option<string>,
                     topName: string, lineRgb: string) returns (ok: bool)
      modifies this
      ensures ok == Merged(old(children), entries, iconHref, topName, lineRgb).Some?
      ensures ok ==> children == Merged(old(children), entries, iconHref, topName, lineRgb).value
      ensures !ok ==> children == WithoutFolder(old(children), topName)
    {
      RemoveExistingFolder(topName);
      ok := EnsureStyleLine(LineStyleId, lineRgb, 3);
      if !ok {
        MergeBaseFails(old(children), topName, lineRgb);
        return;
      }
      MergeBaseIs(old(children), topName, lineRgb, children);
      var topIdx := |children|;
      children := children + [Folder(Some(topName), [])];
      MergedIs(old(children), entries, iconHref, topName, lineRgb, children);
      AddTypeFolders(topIdx, entries, iconHref);
    }
  }
}
