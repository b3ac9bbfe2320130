/** Tag and name normalisation shared by the point-of-interest filters (poi/utils.py). */
module PoiUtils {
  import opened Common
  import opened Text
  import opened Decimal

  /** The tags of one OSM element. */
  type Tags = map<string, string>

  /** `tags.get(key)`. */
  function Get(tags: Tags, key: string): Option<string> {
    if key in tags then Some(tags[key]) else None
  }

  /** `norm_str`: "" for None, otherwise trimmed and lower-cased. */
  function NormStr(v: Option<string>): (r: string)
    ensures v.None? ==> r == ""
    ensures Stripped(r) && IsLowerCase(r)
    ensures v.Some? ==> |r| <= |v.value|
  {
    match v
    case None => ""
    case Some(s) =>
      LowerKeepsStripped(Strip(s));
      LowerIsLowerCase(Strip(s));
      Lower(Strip(s))
  }

  /** `norm_str(tags.get(key))`. */
  function NormTag(tags: Tags, key: string): string {
    NormStr(Get(tags, key))
  }

  /** A trimmed, lower-cased string is its own normal form ... */
  lemma NormStrFixed(s: string)
    requires Stripped(s) && IsLowerCase(s)
    ensures NormStr(Some(s)) == s
  {
    StripOfStripped(s);
    LowerOfLowerCase(s);
  }

  /** ... so normalising twice is normalising once. */
  lemma NormStrIdempotent(v: Option<string>)
    ensures NormStr(Some(NormStr(v))) == NormStr(v)
  {
    NormStrFixed(NormStr(v));
  }

  /** `clean_name`: None, blank text and any case variant of "unnamed" become "";
      anything else is returned trimmed. */
  function CleanName(name: Option<string>): (r: string)
    ensures r == "" <==> (name.None? || Strip(name.value) == "" || Lower(Strip(name.value)) == "unnamed")
    ensures r != "" ==> r == Strip(name.value)
    ensures Stripped(r) && Lower(r) != "unnamed"
  {
    match name
    case None => ""
    case Some(n) =>
      var s := Strip(n);
      if s == "" then ""
      else if Lower(s) == "unnamed" then ""
      else s
  }

  lemma CleanNameIdempotent(name: Option<string>)
    ensures CleanName(Some(CleanName(name))) == CleanName(name)
  {
    var r := CleanName(name);
    StripOfStripped(r);
  }

  /** The tokens `parse_int_tag` tries: ';' and ',' read as spaces, then split on whitespace. */
  function IntTokens(s: string): (r: seq<string>)
    ensures forall k, i :: 0 <= k < |r| && 0 <= i < |r[k]| ==> !IsSpace(r[k][i])
  {
    var t := ReplaceChar(ReplaceChar(Strip(s), ';', ' '), ',', ' ');
    SplitWsWords(t);
    SplitWs(t)
  }

  /** The first token from index `i` on that reads as a number, truncated toward zero;
      0 if none does. */
  function FirstNumberFrom(parts: seq<string>, i: nat): (r: int)
    requires i <= |parts|
    decreases |parts| - i
    ensures (forall k :: i <= k < |parts| ==> ParseNumber(parts[k]).None?) ==> r == 0
    ensures forall k ::
      (i <= k < |parts| && ParseNumber(parts[k]).Some? && (forall j :: i <= j < k ==> ParseNumber(parts[j]).None?))
      ==> r == TruncToInt(ParseNumber(parts[k]).value)
  {
    if i == |parts| then 0
    else match ParseNumber(parts[i])
      case Some(n) => TruncToInt(n)
      case None => FirstNumberFrom(parts, i + 1)
  }

  /** The first token that reads as a number, truncated toward zero; 0 if none does. */
  function FirstNumberToken(parts: seq<string>): (r: int)
    ensures (forall k :: 0 <= k < |parts| ==> ParseNumber(parts[k]).None?) ==> r == 0
    ensures forall k ::
      (0 <= k < |parts| && ParseNumber(parts[k]).Some? && (forall j :: 0 <= j < k ==> ParseNumber(parts[j]).None?))
      ==> r == TruncToInt(ParseNumber(parts[k]).value)
  {
    FirstNumberFrom(parts, 0)
  }

  /** `parse_int_tag`: 0 for an absent or blank value, otherwise the first
      token that parses as a number, truncated toward zero (0 if none). */
  function ParseIntTag(tags: Tags, key: string): (r: int)
    ensures key !in tags ==> r == 0
    ensures key in tags && Strip(tags[key]) == "" ==> r == 0
    ensures key in tags ==>
      var toks := IntTokens(tags[key]);
      (forall k :: 0 <= k < |toks| ==> ParseNumber(toks[k]).None?) ==> r == 0
    ensures key in tags ==>
      var toks := IntTokens(tags[key]);
      forall k ::
        (0 <= k < |toks| && ParseNumber(toks[k]).Some? && (forall j :: 0 <= j < k ==> ParseNumber(toks[j]).None?))
        ==> r == TruncToInt(ParseNumber(toks[k]).value)
  {
    if key !in tags then 0
    else
      var s := Strip(tags[key]);
      if s == "" then 0
      else FirstNumberToken(IntTokens(tags[key]))
  }

  /** Python's `a or b` on integers: the second only when the first is 0. */
  function OrInt(a: int, b: int): int {
    if a != 0 then a else b
  }
}
