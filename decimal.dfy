/**
 * Decimal numbers as they travel through the program as text: coordinates
 * typed into the bounding-box fields, tag values such as `beds=120`, and
 * numbers written back out with `str(float)`.
 *
 * A number is `mant / 10^exp`. Only canonical representations (no trailing
 * zero in the mantissa of a fraction) are used, so `==` is equality of value.
 */
module Decimal {
  import opened Common
  import opened Text

  function Pow10(e: nat): (p: nat)
    ensures p >= 1
  {
    if e == 0 then 1 else 10 * Pow10(e - 1)
  }

  datatype Num = Num(mant: int, exp: nat)

  predicate Canonical(n: Num) {
    n.exp == 0 || n.mant % 10 != 0
  }

  /** A decimal number in canonical form. */
  type Number = n: Num | Canonical(n) witness Num(0, 0)

  function Value(n: Num): real {
    n.mant as real / Pow10(n.exp) as real
  }

  /** Numeric comparisons, as Python compares the floats. */
  predicate Less(a: Num, b: Num) {
    Value(a) < Value(b)
  }

  predicate LessEq(a: Num, b: Num) {
    Value(a) <= Value(b)
  }

  /** Python's `min(a, b)`: `b` only when it is strictly smaller. */
  function MinNum(a: Number, b: Number): (r: Number)
    ensures r == a || r == b
  {
    if Less(b, a) then b else a
  }

  /** Python's `max(a, b)`: `b` only when it is strictly larger. */
  function MaxNum(a: Number, b: Number): (r: Number)
    ensures r == a || r == b
  {
    if Less(a, b) then b else a
  }

  /** `min` is below both arguments and `max` above both. */
  lemma MinMaxBounds(a: Number, b: Number)
    ensures LessEq(MinNum(a, b), a) && LessEq(MinNum(a, b), b)
    ensures LessEq(a, MaxNum(a, b)) && LessEq(b, MaxNum(a, b))
  {
  }

  lemma ScaleTen(q: int, p: nat)
    requires p >= 1
    ensures (10 * q) as real / (10 * p) as real == q as real / p as real
  {
  }

  /** Drops trailing zeros of the fraction; the value is unchanged. */
  function Normalize(m: int, e: nat): (n: Number)
    ensures Value(n) == m as real / Pow10(e) as real
    ensures n.exp <= e
    decreases e
  {
    if e > 0 && m % 10 == 0 then
      var n := Normalize(m / 10, e - 1);
      ScaleTen(m / 10, Pow10(e - 1));
      n
    else Num(m, e)
  }

  lemma NormalizeCanonical(n: Number)
    ensures Normalize(n.mant, n.exp) == n
  {
  }

  lemma {:induction false} Pow10Add(a: nat, d: nat)
    ensures Pow10(a + d) == Pow10(a) * Pow10(d)
  {
    if d > 0 {
      Pow10Add(a, d - 1);
      assert Pow10(a + d) == 10 * Pow10(a + d - 1);
      assert Pow10(a) * Pow10(d) == Pow10(a) * (10 * Pow10(d - 1));
    }
  }

  /** Cross-multiplied form of equal values. */
  lemma CrossMultiply(m1: int, p1: nat, m2: int, p2: nat)
    requires p1 >= 1 && p2 >= 1
    requires m1 as real / p1 as real == m2 as real / p2 as real
    ensures m1 * p2 == m2 * p1
  {
    assert (m1 * p2) as real == m1 as real * p2 as real;
    assert (m2 * p1) as real == m2 as real * p1 as real;
  }

  lemma CancelFactor(x: int, y: int, p: nat)
    requires p >= 1 && x * p == y * p
    ensures x == y
  {
    assert (x - y) * p == 0;
  }

  /** Cancelling `pa` from `am * (pa * pd) == bm * pa`. */
  lemma MantScaled(am: int, bm: int, pa: nat, pd: nat)
    requires pa >= 1 && am * (pa * pd) == bm * pa
    ensures bm == am * pd
  {
    assert am * (pa * pd) == (am * pd) * pa;
    CancelFactor(am * pd, bm, pa);
  }

  /** A multiple of a positive power of ten ends in a zero digit. */
  lemma PowerMultipleMod(x: int, d: nat)
    ensures d > 0 ==> (x * Pow10(d)) % 10 == 0
  {
    if d > 0 {
      var q := Pow10(d - 1);
      assert x * Pow10(d) == (x * q) * 10;
    }
  }

  lemma {:induction false} ValueInjectiveOrdered(a: Number, b: Number)
    requires a.exp <= b.exp && Value(a) == Value(b)
    ensures a == b
  {
    var d := b.exp - a.exp;
    Pow10Add(a.exp, d);
    CrossMultiply(a.mant, Pow10(a.exp), b.mant, Pow10(b.exp));
    MantScaled(a.mant, b.mant, Pow10(a.exp), Pow10(d));
    PowerMultipleMod(a.mant, d);
    assert d == 0;
  }

  /** Canonical numbers with the same value are the same number, as equal floats are. */
  lemma ValueInjective(a: Number, b: Number)
    requires Value(a) == Value(b)
    ensures a == b
  {
    if a.exp <= b.exp {
      ValueInjectiveOrdered(a, b);
    } else {
      ValueInjectiveOrdered(b, a);
    }
  }

  lemma MinMaxSwap(a: Number, b: Number)
    ensures MinNum(a, b) == MinNum(b, a) && MaxNum(a, b) == MaxNum(b, a)
  {
    if Value(a) == Value(b) {
      ValueInjective(a, b);
    }
  }

  lemma MinMaxOrdered(a: Number, b: Number)
    requires LessEq(a, b)
    ensures MinNum(a, b) == a && MaxNum(a, b) == b
  {
    if Value(a) == Value(b) {
      ValueInjective(a, b);
    }
  }

  /** Euclidean quotient of naturals, with the bounds that define it. */
  function DivNat(a: nat, p: nat): (q: nat)
    requires p >= 1
    ensures q * p <= a < (q + 1) * p
  {
    var q := a / p;
    assert a == q * p + a % p;
    assert (q + 1) * p == q * p + p;
    q
  }

  function ModNat(a: nat, p: nat): (r: nat)
    requires p >= 1
    ensures r < p && a == DivNat(a, p) * p + r
  {
    a - DivNat(a, p) * p
  }

  /** Integer division truncating toward zero. */
  function DivTrunc(m: int, p: nat): (r: int)
    requires p >= 1
    ensures Abs(r) * p <= Abs(m) < (Abs(r) + 1) * p
    ensures m >= 0 ==> r >= 0
    ensures m < 0 ==> r <= 0
  {
    var q: int := DivNat(Abs(m), p);
    if m >= 0 then q else -q
  }

  /** Python's `int(x)` on a float: truncation toward zero. */
  function TruncToInt(n: Num): (r: int)
    ensures Abs(r) * Pow10(n.exp) <= Abs(n.mant) < (Abs(r) + 1) * Pow10(n.exp)
    ensures n.mant >= 0 ==> r >= 0
    ensures n.mant < 0 ==> r <= 0
  {
    DivTrunc(n.mant, Pow10(n.exp))
  }

  predicate IsDigit(c: char) {
    '0' <= c <= '9'
  }

  predicate AllDigits(s: string) {
    forall i :: 0 <= i < |s| ==> IsDigit(s[i])
  }

  function DigitVal(c: char): nat
    requires IsDigit(c)
  {
    c as int - '0' as int
  }

  function DigitChar(d: nat): (c: char)
    requires d < 10
    ensures IsDigit(c) && DigitVal(c) == d
  {
    ('0' as int + d) as char
  }

  /** The number a string of decimal digits denotes. */
  function DigitsValue(s: string): nat
    requires AllDigits(s)
  {
    if s == [] then 0 else 10 * DigitsValue(s[..|s| - 1]) + DigitVal(s[|s| - 1])
  }

  /** Decimal digits of a natural number, most significant first, no leading zero. */
  function NatDigits(k: nat): (s: string)
    ensures |s| >= 1 && AllDigits(s)
    decreases k
  {
    if k < 10 then [DigitChar(k)] else NatDigits(k / 10) + [DigitChar(k % 10)]
  }

  lemma DigitsValueSnoc(s: string, c: char)
    requires AllDigits(s) && IsDigit(c)
    ensures DigitsValue(s + [c]) == 10 * DigitsValue(s) + DigitVal(c)
  {
    assert (s + [c])[..|s|] == s;
  }

  lemma ShiftStep(A: nat, P: nat, B: nat, d: nat)
    ensures 10 * (A * P + B) + d == A * (10 * P) + (10 * B + d)
  {
  }

  lemma AllDigitsAppend(x: string, y: string)
    requires AllDigits(x) && AllDigits(y)
    ensures AllDigits(x + y)
  {
    assert forall i :: 0 <= i < |x + y| ==> (x + y)[i] == if i < |x| then x[i] else y[i - |x|];
  }

  lemma {:induction false} DigitsValueAppend(x: string, y: string)
    requires AllDigits(x) && AllDigits(y)
    ensures AllDigits(x + y)
    ensures DigitsValue(x + y) == DigitsValue(x) * Pow10(|y|) + DigitsValue(y)
    decreases |y|
  {
    AllDigitsAppend(x, y);
    if y == [] {
      assert x + y == x;
    } else {
      var y' := y[..|y| - 1];
      var c := y[|y| - 1];
      assert y == y' + [c];
      assert x + y == (x + y') + [c];
      DigitsValueSnoc(x + y', c);
      DigitsValueAppend(x, y');
      DigitsValueSnoc(y', c);
      assert Pow10(|y|) == 10 * Pow10(|y'|);
      ShiftStep(DigitsValue(x), Pow10(|y'|), DigitsValue(y'), DigitVal(c));
    }
  }

  lemma {:induction false} NatDigitsValue(k: nat)
    ensures DigitsValue(NatDigits(k)) == k
    decreases k
  {
    if k >= 10 {
      NatDigitsValue(k / 10);
      DigitsValueSnoc(NatDigits(k / 10), DigitChar(k % 10));
    }
  }

  lemma {:induction false} NatDigitsLength(k: nat, e: nat)
    requires e >= 1 && k < Pow10(e)
    ensures |NatDigits(k)| <= e
    decreases k
  {
    if k >= 10 {
      assert e >= 2;
      assert k / 10 < Pow10(e - 1);
      NatDigitsLength(k / 10, e - 1);
    }
  }

  function Zeros(n: nat): (s: string)
    ensures |s| == n && AllDigits(s)
  {
    seq(n, _ => '0')
  }

  lemma {:induction false} ZerosValue(n: nat)
    ensures DigitsValue(Zeros(n)) == 0
  {
    if n > 0 {
      assert Zeros(n)[..n - 1] == Zeros(n - 1);
      ZerosValue(n - 1);
    }
  }

  /** `s` left-padded with zeros to width `w`. */
  function PadLeft(s: string, w: nat): (r: string)
    requires AllDigits(s)
    ensures AllDigits(r)
    ensures |s| <= w ==> |r| == w
  {
    if |s| >= w then s else Zeros(w - |s|) + s
  }

  lemma ZeroTimes(P: nat)
    ensures 0 * P == 0
  {
  }

  lemma PadLeftValue(s: string, w: nat)
    requires AllDigits(s)
    ensures DigitsValue(PadLeft(s, w)) == DigitsValue(s)
  {
    if |s| < w {
      DigitsValueAppend(Zeros(w - |s|), s);
      ZerosValue(w - |s|);
      ZeroTimes(Pow10(|s|));
    }
  }

  /** The digits `str(float)` writes for a number: an integral value keeps
      one fractional digit ("51.0"). */
  function ToLiteral(n: Num): (l: Literal)
    ensures |l.intDigits| >= 1 && |l.fracDigits| >= 1
    ensures AllDigits(l.intDigits) && AllDigits(l.fracDigits)
    ensures l.neg <==> n.mant < 0
  {
    var a := Abs(n.mant);
    var p := Pow10(n.exp);
    Literal(n.mant < 0, NatDigits(DivNat(a, p)),
            if n.exp == 0 then "0" else PadLeft(NatDigits(ModNat(a, p)), n.exp))
  }

  /** Writes a literal: sign, integer digits, point, fraction digits. */
  function Render(l: Literal): string {
    (if l.neg then "-" else "") + l.intDigits + "." + l.fracDigits
  }

  /** Python's `str(float)` for the numbers the program handles. */
  function Format(n: Num): (s: string)
    ensures |s| >= 3
  {
    Render(ToLiteral(n))
  }

  /** Every character of a formatted number is a digit, the point or the sign. */
  lemma FormatAlphabet(n: Num, i: nat)
    requires i < |Format(n)|
    ensures IsDigit(Format(n)[i]) || Format(n)[i] == '.' || Format(n)[i] == '-'
  {
  }

  /** A number as written: sign, integer digits, fraction digits. */
  datatype Literal = Literal(neg: bool, intDigits: string, fracDigits: string)

  predicate WellFormed(l: Literal) {
    AllDigits(l.intDigits) && AllDigits(l.fracDigits) && |l.intDigits| + |l.fracDigits| > 0
  }

  /** Splits digits at the first decimal point. */
  function SplitPoint(body: string): (string, string) {
    if '.' in body then (body[..IndexOf(body, '.')], body[IndexOf(body, '.') + 1..]) else (body, [])
  }

  /** Reads the sign, then the digits, of text with no surrounding whitespace. */
  function LexStripped(t: string): (r: Option<Literal>)
    ensures r.Some? ==> WellFormed(r.value)
  {
    var neg := t != [] && t[0] == '-';
    var body := if t != [] && (t[0] == '-' || t[0] == '+') then t[1..] else t;
    var parts := SplitPoint(body);
    var l := Literal(neg, parts.0, parts.1);
    if WellFormed(l) then Some(l) else None
  }

  /** The float grammar the program relies on: optional surrounding whitespace,
      an optional sign, digits with at most one decimal point, at least one digit. */
  function Lex(s: string): (r: Option<Literal>)
    ensures r.Some? ==> WellFormed(r.value)
  {
    LexStripped(Strip(s))
  }

  function LiteralValue(l: Literal): (n: Number)
    requires WellFormed(l)
    ensures Value(n) == (if l.neg then -1.0 else 1.0) * DigitsValue(l.intDigits + l.fracDigits) as real
                        / Pow10(|l.fracDigits|) as real
  {
    var a: int := DigitsValue(l.intDigits + l.fracDigits);
    Normalize(if l.neg then -a else a, |l.fracDigits|)
  }

  /** Python's `float(s)` on the grammar above; `None` where Python raises. */
  function ParseNumber(s: string): (r: Option<Number>)
  {
    match Lex(s)
    case None => None
    case Some(l) => Some(LiteralValue(l))
  }

  /** Parsing only looks at the stripped text. */
  lemma ParseNumberStrip(s: string)
    ensures ParseNumber(s) == ParseNumber(Strip(s))
  {
    StripIdempotent(s);
  }

  lemma IndexOfPoint(ip: string, rest: string)
    requires AllDigits(ip)
    ensures '.' in ip + "." + rest
    ensures IndexOf(ip + "." + rest, '.') == |ip|
  {
    var b := ip + "." + rest;
    assert b[|ip|] == '.';
    assert forall k :: 0 <= k < |ip| ==> b[k] == ip[k];
    var i := IndexOf(b, '.');
    assert i <= |ip| by {
      assert '.' !in b[..i];
    }
  }

  /** The text layout `Format` produces is read as sign, digits, point, digits. */
  lemma SplitPointLayout(ip: string, fr: string)
    requires AllDigits(ip)
    ensures SplitPoint(ip + "." + fr) == (ip, fr)
  {
    var body := ip + "." + fr;
    IndexOfPoint(ip, fr);
    assert body[..|ip|] == ip;
    assert body[|ip| + 1..] == fr;
  }

  lemma LexUnsigned(ip: string, fr: string)
    requires AllDigits(ip) && AllDigits(fr) && |ip| >= 1 && |fr| >= 1
    ensures LexStripped(ip + "." + fr) == Some(Literal(false, ip, fr))
  {
    var body := ip + "." + fr;
    SplitPointLayout(ip, fr);
    assert body[0] == ip[0] && IsDigit(ip[0]);
  }

  lemma LexMinus(ip: string, fr: string)
    requires AllDigits(ip) && AllDigits(fr) && |ip| >= 1 && |fr| >= 1
    ensures LexStripped("-" + (ip + "." + fr)) == Some(Literal(true, ip, fr))
  {
    var body := ip + "." + fr;
    SplitPointLayout(ip, fr);
    assert ("-" + body)[1..] == body;
  }

  lemma LexSigned(neg: bool, ip: string, fr: string)
    requires AllDigits(ip) && AllDigits(fr) && |ip| >= 1 && |fr| >= 1
    ensures LexStripped((if neg then "-" else "") + ip + "." + fr) == Some(Literal(neg, ip, fr))
  {
    var t := (if neg then "-" else "") + ip + "." + fr;
    if neg {
      assert t == "-" + (ip + "." + fr);
      LexMinus(ip, fr);
    } else {
      assert t == ip + "." + fr;
      LexUnsigned(ip, fr);
    }
  }

  lemma FormatLayoutStripped(neg: bool, ip: string, fr: string)
    requires AllDigits(ip) && AllDigits(fr) && |ip| >= 1 && |fr| >= 1
    ensures Stripped((if neg then "-" else "") + ip + "." + fr)
  {
    var s := (if neg then "-" else "") + ip + "." + fr;
    assert s[|s| - 1] == fr[|fr| - 1];
    assert s[0] == '-' || s[0] == ip[0];
  }

  lemma ParseLayout(neg: bool, ip: string, fr: string)
    requires AllDigits(ip) && AllDigits(fr) && |ip| >= 1 && |fr| >= 1
    ensures Lex((if neg then "-" else "") + ip + "." + fr) == Some(Literal(neg, ip, fr))
  {
    FormatLayoutStripped(neg, ip, fr);
    StripOfStripped((if neg then "-" else "") + ip + "." + fr);
    LexSigned(neg, ip, fr);
  }

  /** The digits of `a` followed by "0" denote `10 * a`. */
  lemma TrailingZeroValue(a: nat)
    ensures AllDigits(NatDigits(a) + "0") && DigitsValue(NatDigits(a) + "0") == 10 * a
  {
    DigitsValueSnoc(NatDigits(a), '0');
    assert NatDigits(a) + "0" == NatDigits(a) + ['0'];
    NatDigitsValue(a);
  }

  /** One trailing zero of the fraction is dropped again. */
  lemma NormalizeTimesTen(x: int)
    ensures Normalize(10 * x, 1) == Num(x, 0)
  {
    assert (10 * x) % 10 == 0 && (10 * x) / 10 == x;
  }

  lemma LiteralOfIntegral(n: Number)
    requires n.exp == 0
    ensures LiteralValue(ToLiteral(n)) == n
  {
    var l := ToLiteral(n);
    var a := Abs(n.mant);
    assert DivNat(a, 1) == a;
    assert l.intDigits == NatDigits(a) && l.fracDigits == "0";
    TrailingZeroValue(a);
    var v: int := 10 * a;
    var m: int := if l.neg then -v else v;
    assert m == 10 * n.mant;
    NormalizeTimesTen(n.mant);
  }

  lemma JoinDigits(ip: string, fr: string, q: nat, r: nat)
    requires AllDigits(ip) && AllDigits(fr)
    requires DigitsValue(ip) == q && DigitsValue(fr) == r
    ensures AllDigits(ip + fr)
    ensures DigitsValue(ip + fr) == q * Pow10(|fr|) + r
  {
    DigitsValueAppend(ip, fr);
  }

  lemma LiteralOfFraction(n: Number)
    requires n.exp > 0
    ensures LiteralValue(ToLiteral(n)) == n
  {
    var a := Abs(n.mant);
    var p := Pow10(n.exp);
    var q := DivNat(a, p);
    var r := ModNat(a, p);
    var ip := NatDigits(q);
    NatDigitsLength(r, n.exp);
    var fr := PadLeft(NatDigits(r), n.exp);
    assert ToLiteral(n) == Literal(n.mant < 0, ip, fr);
    NatDigitsValue(q);
    PadLeftValue(NatDigits(r), n.exp);
    NatDigitsValue(r);
    JoinDigits(ip, fr, q, r);
    assert DigitsValue(ip + fr) == a;
    NormalizeCanonical(n);
  }

  /** Reading back what `Format` writes gives the same number. */
  lemma ParseFormat(n: Number)
    ensures ParseNumber(Format(n)) == Some(n)
  {
    var l := ToLiteral(n);
    ParseLayout(l.neg, l.intDigits, l.fracDigits);
    if n.exp == 0 {
      LiteralOfIntegral(n);
    } else {
      LiteralOfFraction(n);
    }
  }

  /** Python's `str(int)`. */
  function IntToString(i: int): (s: string)
    ensures |s| >= 1
  {
    (if i < 0 then "-" else "") + NatDigits(Abs(i))
  }
}
