/**
 * String helpers with Python's meaning: `strip`, `lower`, `in` on strings,
 * `split()` on whitespace, `split(",")`, `replace` of one character and `join`.
 * Whitespace and case are the ASCII ones (see README, "Left out").
 */
module Text {

  /** `str.isspace` restricted to ASCII: tab, LF, VT, FF, CR, the four
      information separators 0x1c-0x1f, and the space. */
  predicate IsSpace(c: char) {
    c == ' ' || (9 as char <= c <= 13 as char) || (28 as char <= c <= 31 as char)
  }

  predicate IsUpper(c: char) {
    'A' <= c <= 'Z'
  }

  function LowerChar(c: char): char {
    if IsUpper(c) then (c as int + 32) as char else c
  }

  function Lower(s: string): (r: string)
    ensures |r| == |s|
    ensures forall i :: 0 <= i < |s| ==> r[i] == LowerChar(s[i])
  {
    seq(|s|, i requires 0 <= i < |s| => LowerChar(s[i]))
  }

  /** No upper-case ASCII letter occurs. */
  predicate IsLowerCase(s: string) {
    forall i :: 0 <= i < |s| ==> !IsUpper(s[i])
  }

  lemma LowerIsLowerCase(s: string)
    ensures IsLowerCase(Lower(s))
  {
  }

  lemma LowerOfLowerCase(s: string)
    requires IsLowerCase(s)
    ensures Lower(s) == s
  {
  }

  /** The index of the first non-whitespace character at or after `i` (or `|s|`). */
  function SpacesEnd(s: string, i: nat): (j: nat)
    requires i <= |s|
    ensures i <= j <= |s|
    ensures forall k :: i <= k < j ==> IsSpace(s[k])
    ensures j < |s| ==> !IsSpace(s[j])
    decreases |s| - i
  {
    if i < |s| && IsSpace(s[i]) then SpacesEnd(s, i + 1) else i
  }

  /** The index just past the last non-whitespace character before `j` (or 0). */
  function SpacesStart(s: string, j: nat): (i: nat)
    requires j <= |s|
    ensures i <= j
    ensures forall k :: i <= k < j ==> IsSpace(s[k])
    ensures i > 0 ==> !IsSpace(s[i - 1])
  {
    if j > 0 && IsSpace(s[j - 1]) then SpacesStart(s, j - 1) else j
  }

  /** Drops leading whitespace. */
  function TrimLeft(s: string): string {
    s[SpacesEnd(s, 0)..]
  }

  /** Drops trailing whitespace. */
  function TrimRight(s: string): string {
    s[..SpacesStart(s, |s|)]
  }

  /** Neither end is whitespace. */
  predicate Stripped(s: string) {
    s == [] || (!IsSpace(s[0]) && !IsSpace(s[|s| - 1]))
  }

  /** Python's `str.strip()`. */
  function Strip(s: string): (r: string)
    ensures Stripped(r)
    ensures |r| <= |s|
  {
    TrimRight(TrimLeft(s))
  }

  lemma StripOfStripped(s: string)
    requires Stripped(s)
    ensures Strip(s) == s
  {
  }

  lemma StripIdempotent(s: string)
    ensures Strip(Strip(s)) == Strip(s)
  {
    StripOfStripped(Strip(s));
  }

  /** Leading whitespace in front of a stripped, non-empty string is dropped. */
  lemma StripSpacePrefix(ws: string, s: string)
    requires forall i :: 0 <= i < |ws| ==> IsSpace(ws[i])
    requires Stripped(s) && s != []
    ensures Strip(ws + s) == s
    decreases |ws|
  {
    if ws == [] {
      assert ws + s == s;
      StripOfStripped(s);
    } else {
      assert (ws + s)[1..] == ws[1..] + s;
      StripSpacePrefix(ws[1..], s);
    }
  }

  /** Trailing whitespace after a stripped, non-empty string is dropped. */
  lemma StripSpaceSuffix(s: string, ws: string)
    requires forall i :: 0 <= i < |ws| ==> IsSpace(ws[i])
    requires Stripped(s) && s != []
    ensures Strip(s + ws) == s
  {
    var u := s + ws;
    assert SpacesEnd(u, 0) == 0;
    assert TrimLeft(u) == u;
    SpacesStartAfter(s, ws, |u|);
    assert u[..|s|] == s;
  }

  /** Scanning back over the blanks after `s` stops at the end of `s`. */
  lemma {:induction false} SpacesStartAfter(s: string, ws: string, j: nat)
    requires forall i :: 0 <= i < |ws| ==> IsSpace(ws[i])
    requires Stripped(s) && s != []
    requires |s| <= j <= |s| + |ws|
    ensures SpacesStart(s + ws, j) == |s|
    decreases j
  {
    if j > |s| {
      assert (s + ws)[j - 1] == ws[j - 1 - |s|];
      SpacesStartAfter(s, ws, j - 1);
    } else {
      assert (s + ws)[j - 1] == s[|s| - 1];
    }
  }

  lemma LowerKeepsStripped(s: string)
    requires Stripped(s)
    ensures Stripped(Lower(s))
  {
  }

  /** The whole of the string is white space (or it is empty) exactly when it strips to "". */
  lemma StripEmptyIff(s: string)
    ensures Strip(s) == "" <==> forall i :: 0 <= i < |s| ==> IsSpace(s[i])
  {
    var t := TrimLeft(s);
    if t != [] {
      assert !IsSpace(s[|s| - |t|]);
    }
  }

  /** A string that starts with a non-space character does not strip to "". */
  lemma StripNonEmpty(s: string)
    requires s != [] && !IsSpace(s[0])
    ensures Strip(s) != ""
  {
    StripEmptyIff(s);
  }

  predicate StartsWith(s: string, p: string) {
    |p| <= |s| && s[..|p|] == p
  }

  predicate EndsWith(s: string, p: string) {
    |p| <= |s| && s[|s| - |p|..] == p
  }

  /** `p` occurs in `s` starting at index `i`. */
  predicate OccursAt(s: string, p: string, i: nat) {
    i + |p| <= |s| && s[i..i + |p|] == p
  }

  /** Python's `p in s` for strings. */
  predicate Contains(s: string, p: string) {
    exists i: nat :: i <= |s| && OccursAt(s, p, i)
  }

  /** `in` is transitive: a string containing `m` contains everything `m` contains. */
  lemma ContainsTrans(s: string, m: string, p: string)
    requires Contains(s, m) && Contains(m, p)
    ensures Contains(s, p)
  {
    var i: nat :| i <= |s| && OccursAt(s, m, i);
    var j: nat :| j <= |m| && OccursAt(m, p, j);
    assert forall t :: 0 <= t < |m| ==> s[i + t] == m[t] by {
      forall t | 0 <= t < |m| ensures s[i + t] == m[t] {
        assert s[i..i + |m|][t] == s[i + t];
      }
    }
    assert s[i + j..i + j + |p|] == m[j..j + |p|];
    assert OccursAt(s, p, i + j);
  }

  /** A string ending in `p` contains it. */
  lemma EndsWithContains(s: string, p: string)
    requires EndsWith(s, p)
    ensures Contains(s, p)
  {
    assert OccursAt(s, p, |s| - |p|);
  }

  lemma ContainsSelf(s: string)
    ensures Contains(s, s)
  {
    assert OccursAt(s, s, 0);
  }

  /** Length of the leading run of non-whitespace characters. */
  function WordLen(s: string): (n: nat)
    ensures n <= |s|
    ensures forall i :: 0 <= i < n ==> !IsSpace(s[i])
    ensures n < |s| ==> IsSpace(s[n])
    decreases |s|
  {
    if s == [] || IsSpace(s[0]) then 0 else 1 + WordLen(s[1..])
  }

  /** Python's `str.split()` with no argument: the maximal runs of non-whitespace. */
  function SplitWs(s: string): seq<string>
    decreases |s|
  {
    if s == [] then []
    else if IsSpace(s[0]) then SplitWs(s[1..])
    else
      var n := WordLen(s);
      [s[..n]] + SplitWs(s[n..])
  }

  predicate NoSpace(s: string) {
    forall i :: 0 <= i < |s| ==> !IsSpace(s[i])
  }

  /** Piece `k` of a whitespace split is a non-empty word without whitespace. */
  lemma {:induction false} SplitWsWordAt(s: string, k: nat)
    requires k < |SplitWs(s)|
    ensures SplitWs(s)[k] != [] && NoSpace(SplitWs(s)[k])
    decreases |s|
  {
    if IsSpace(s[0]) {
      SplitWsWordAt(s[1..], k);
    } else {
      var n := WordLen(s);
      assert SplitWs(s) == [s[..n]] + SplitWs(s[n..]);
      if k == 0 {
        assert n >= 1 && NoSpace(s[..n]);
      } else {
        SplitWsWordAt(s[n..], k - 1);
      }
    }
  }

  /** Every piece of a whitespace split is a non-empty word without whitespace. */
  lemma SplitWsWords(s: string)
    ensures forall k :: 0 <= k < |SplitWs(s)| ==> SplitWs(s)[k] != [] && NoSpace(SplitWs(s)[k])
  {
    forall k | 0 <= k < |SplitWs(s)|
      ensures SplitWs(s)[k] != [] && NoSpace(SplitWs(s)[k])
    {
      SplitWsWordAt(s, k);
    }
  }

  lemma {:induction false} WordLenOf(a: string, rest: string)
    requires NoSpace(a) && (rest == [] || IsSpace(rest[0]))
    ensures WordLen(a + rest) == |a|
    decreases |a|
  {
    if a != [] {
      assert (a + rest)[1..] == a[1..] + rest;
      WordLenOf(a[1..], rest);
    } else {
      assert a + rest == rest;
    }
  }

  /** A leading word followed by whitespace (or nothing) is the first piece. */
  lemma SplitWsWord(a: string, rest: string)
    requires a != [] && NoSpace(a) && (rest == [] || IsSpace(rest[0]))
    ensures SplitWs(a + rest) == [a] + SplitWs(rest)
  {
    var s := a + rest;
    assert s[0] == a[0];
    WordLenOf(a, rest);
    assert s[..|a|] == a && s[|a|..] == rest;
  }

  /** Leading whitespace does not change the pieces. */
  lemma {:induction false} SplitWsSpaces(ws: string, s: string)
    requires forall i :: 0 <= i < |ws| ==> IsSpace(ws[i])
    ensures SplitWs(ws + s) == SplitWs(s)
    decreases |ws|
  {
    if ws != [] {
      assert (ws + s)[1..] == ws[1..] + s;
      assert (ws + s)[0] == ws[0];
      SplitWsSpaces(ws[1..], s);
    } else {
      assert ws + s == s;
    }
  }

  /** Two words with whitespace between them split into those two words. */
  lemma SplitWsTwo(a: string, ws: string, b: string)
    requires a != [] && b != [] && NoSpace(a) && NoSpace(b)
    requires ws != [] && forall i :: 0 <= i < |ws| ==> IsSpace(ws[i])
    ensures SplitWs(a + (ws + b)) == [a, b]
  {
    calc {
      SplitWs(a + (ws + b));
      == { SplitWsWord(a, ws + b); }
      [a] + SplitWs(ws + b);
      == { SplitWsSpaces(ws, b); }
      [a] + SplitWs(b);
      == { SplitWsOne(b); }
      [a] + [b];
    }
  }

  /** A single word is its own one piece. */
  lemma SplitWsOne(b: string)
    requires b != [] && NoSpace(b)
    ensures SplitWs(b) == [b]
  {
    SplitWsWord(b, "");
    assert b + "" == b;
    assert SplitWs("") == [];
  }

  /** Python's `s.replace(a, b)` for single characters. */
  function ReplaceChar(s: string, a: char, b: char): (r: string)
    ensures |r| == |s|
    ensures forall i :: 0 <= i < |s| ==> r[i] == if s[i] == a then b else s[i]
  {
    seq(|s|, i requires 0 <= i < |s| => if s[i] == a then b else s[i])
  }

  /** Replacing works piece by piece. */
  lemma ReplaceCharAppend(x: string, y: string, a: char, b: char)
    ensures ReplaceChar(x + y, a, b) == ReplaceChar(x, a, b) + ReplaceChar(y, a, b)
  {
    assert forall i :: 0 <= i < |y| ==> (x + y)[|x| + i] == y[i];
  }

  /** A string without the character is left as it is. */
  lemma ReplaceCharAbsent(s: string, a: char, b: char)
    requires a !in s
    ensures ReplaceChar(s, a, b) == s
  {
  }

  function IndexOf(s: string, c: char): (i: nat)
    requires c in s
    ensures i < |s| && s[i] == c && c !in s[..i]
  {
    if s[0] == c then 0 else 1 + IndexOf(s[1..], c)
  }

  /** Python's `s.split(c)` for a one-character separator: always at least one piece. */
  function SplitOn(s: string, c: char): (r: seq<string>)
    ensures |r| >= 1
    ensures forall k :: 0 <= k < |r| ==> c !in r[k]
    decreases |s|
  {
    if c in s then
      var i := IndexOf(s, c);
      [s[..i]] + SplitOn(s[i + 1..], c)
    else [s]
  }

  /** A string without the separator splits into one piece, itself. */
  lemma SplitOnAbsent(s: string, c: char)
    requires c !in s
    ensures SplitOn(s, c) == [s]
  {
  }

  /** `a + [c] + b` splits into `a` followed by the pieces of `b`. */
  lemma SplitOnFirst(a: string, c: char, b: string)
    requires c !in a
    ensures SplitOn(a + [c] + b, c) == [a] + SplitOn(b, c)
  {
    var s := a + [c] + b;
    assert s[|a|] == c;
    assert forall k :: 0 <= k < |a| ==> s[k] == a[k];
    var i := IndexOf(s, c);
    assert i <= |a| by {
      assert c !in s[..i];
    }
    assert s[..i] == a;
    assert s[i + 1..] == b;
  }

  /** Python's `sep.join(parts)`. */
  function Join(parts: seq<string>, sep: string): string
    decreases |parts|
  {
    if parts == [] then ""
    else if |parts| == 1 then parts[0]
    else parts[0] + sep + Join(parts[1..], sep)
  }

  /** Splitting a join on its one-character separator gives the pieces back, when no
      piece holds the separator. */
  lemma {:induction false} SplitOnJoin(parts: seq<string>, c: char)
    requires |parts| >= 1 && forall k :: 0 <= k < |parts| ==> c !in parts[k]
    ensures SplitOn(Join(parts, [c]), c) == parts
    decreases |parts|
  {
    if |parts| == 1 {
      SplitOnAbsent(parts[0], c);
    } else {
      SplitOnFirst(parts[0], c, Join(parts[1..], [c]));
      SplitOnJoin(parts[1..], c);
    }
  }

  /** Python's `any(k in s for k in ks)`. */
  predicate ContainsAny(s: string, ks: seq<string>)
    decreases |ks|
  {
    ks != [] && (Contains(s, ks[0]) || ContainsAny(s, ks[1..]))
  }

  lemma {:induction false} ContainsAnyIff(s: string, ks: seq<string>)
    ensures ContainsAny(s, ks) <==> exists k :: 0 <= k < |ks| && Contains(s, ks[k])
    decreases |ks|
  {
    if ks != [] {
      ContainsAnyIff(s, ks[1..]);
      assert forall k :: 1 <= k < |ks| ==> ks[k] == ks[1..][k - 1];
      if ContainsAny(s, ks[1..]) {
        var k :| 0 <= k < |ks[1..]| && Contains(s, ks[1..][k]);
        assert Contains(s, ks[k + 1]);
      }
    }
  }

  /** One word more at the front of the list. */
  lemma ContainsAnyCons(s: string, k: string, ks: seq<string>)
    ensures ContainsAny(s, [k] + ks) <==> Contains(s, k) || ContainsAny(s, ks)
  {
    assert ([k] + ks)[1..] == ks;
  }

  /** Containing any one word of the list is enough. */
  lemma {:induction false} ContainsAnyAt(s: string, ks: seq<string>, i: nat)
    requires i < |ks| && Contains(s, ks[i])
    ensures ContainsAny(s, ks)
    decreases i
  {
    if i > 0 {
      assert ks[1..][i - 1] == ks[i];
      ContainsAnyAt(s, ks[1..], i - 1);
    }
  }

  /** Python's `a <= b` on strings: lexicographic by code point. */
  predicate StrLe(a: string, b: string)
    decreases |a|
  {
    a == [] || (b != [] && (a[0] < b[0] || (a[0] == b[0] && StrLe(a[1..], b[1..]))))
  }

  lemma StrLeTotal(a: string, b: string)
    ensures StrLe(a, b) || StrLe(b, a)
    decreases |a|
  {
    if a != [] && b != [] && a[0] == b[0] {
      StrLeTotal(a[1..], b[1..]);
    }
  }

  lemma StrLeTrans(a: string, b: string, c: string)
    requires StrLe(a, b) && StrLe(b, c)
    ensures StrLe(a, c)
    decreases |a|
  {
    if a != [] && b != [] && c != [] && a[0] == b[0] && b[0] == c[0] {
      StrLeTrans(a[1..], b[1..], c[1..]);
    }
  }
}
