/**
 * Location validation: the coordinate range schema (`locationSchema`) and the
 * "latitude,longitude" string pattern (`locationStringSchema`).
 */
module LocationDto {
  import opened Wrappers

  /** `{ lat, lng }`. */
  datatype Coords = Coords(lat: real, lng: real)

  // ---------------------------------------------------------------------------
  // locationSchema: inclusive range checks
  // ---------------------------------------------------------------------------

  datatype Bound = Minimum | Maximum

  /** One schema violation: the field, and which bound it broke. */
  datatype Issue = Issue(path: string, bound: Bound, limit: real)

  /** The issues `z.number().min(lo).max(hi)` reports for `x`, in check order. */
  function RangeIssues(path: string, x: real, lo: real, hi: real): (r: seq<Issue>)
    requires lo <= hi
    ensures r == [] <==> lo <= x <= hi
    ensures forall i :: i in r ==> i.path == path
  {
    (if x < lo then [Issue(path, Minimum, lo)] else []) + (if x > hi then [Issue(path, Maximum, hi)] else [])
  }

  /** `locationSchema.safeParse`: the coordinates, or every issue found (lat first, then lng). */
  function ValidateLocation(c: Coords): (r: Result<Coords, seq<Issue>>)
    ensures r.Success? <==> -90.0 <= c.lat <= 90.0 && -180.0 <= c.lng <= 180.0
    ensures r.Success? ==> r.value == c
    ensures r.Failure? ==> forall i :: i in r.error ==>
      (i.path == "lat" && !(-90.0 <= c.lat <= 90.0)) || (i.path == "lng" && !(-180.0 <= c.lng <= 180.0))
  {
    var latIssues := RangeIssues("lat", c.lat, -90.0, 90.0);
    var lngIssues := RangeIssues("lng", c.lng, -180.0, 180.0);
    if latIssues + lngIssues == [] then Success(c) else Failure(latIssues + lngIssues)
  }

  // ---------------------------------------------------------------------------
  // locationStringSchema: /^-?\d+(\.\d+)?,\s*-?\d+(\.\d+)?$/
  // ---------------------------------------------------------------------------

  /** `\d` (ASCII digits only). */
  predicate IsDigit(c: char)
  {
    '0' <= c <= '9'
  }

  /** `\s` in a JavaScript regular expression: ASCII space and controls, no-break space,
      the Unicode space separators, line and paragraph separators, and the byte-order mark. */
  predicate IsWhitespace(c: char)
  {
    c == ' ' || c == '\t' || c == '\n' || c == '\U{B}' || c == '\U{C}' || c == '\r'
    || c == '\U{A0}' || c == '\U{1680}' || ('\U{2000}' <= c <= '\U{200A}')
    || c == '\U{2028}' || c == '\U{2029}' || c == '\U{202F}' || c == '\U{205F}'
    || c == '\U{3000}' || c == '\U{FEFF}'
  }

  predicate AllDigits(s: string)
  {
    forall i :: 0 <= i < |s| ==> IsDigit(s[i])
  }

  predicate AllWhitespace(s: string)
  {
    forall i :: 0 <= i < |s| ==> IsWhitespace(s[i])
  }

  /** The grammar of one number, `-?\d+(\.\d+)?`: sign, whole digits, optional fraction digits. */
  datatype Decimal = Decimal(negative: bool, whole: string, fraction: Option<string>)

  predicate WellFormedDecimal(d: Decimal)
  {
    |d.whole| > 0 && AllDigits(d.whole)
    && (d.fraction.Some? ==> |d.fraction.value| > 0 && AllDigits(d.fraction.value))
  }

  function DecimalText(d: Decimal): string
  {
    SignText(d.negative) + d.whole + FractionText(d.fraction)
  }

  function SignText(negative: bool): string
  {
    if negative then "-" else ""
  }

  function FractionText(fraction: Option<string>): string
  {
    if fraction.Some? then "." + fraction.value else ""
  }

  /** The grammar of the whole string: number, comma, optional whitespace, number. */
  datatype LocationText = LocationText(lat: Decimal, gap: string, lng: Decimal)

  predicate WellFormedText(t: LocationText)
  {
    WellFormedDecimal(t.lat) && AllWhitespace(t.gap) && WellFormedDecimal(t.lng)
  }

  function Render(t: LocationText): string
  {
    DecimalText(t.lat) + "," + t.gap + DecimalText(t.lng)
  }

  /** Length of the longest all-digit prefix. */
  function DigitRun(s: string): (n: nat)
    ensures n <= |s| && AllDigits(s[..n])
    ensures n < |s| ==> !IsDigit(s[n])
  {
    if s == [] || !IsDigit(s[0]) then 0
    else
      var n := 1 + DigitRun(s[1..]);
      assert forall i :: 1 <= i < n ==> s[..n][i] == s[1..][..n - 1][i - 1];
      n
  }

  /** Length of the longest all-whitespace prefix. */
  function WhitespaceRun(s: string): (n: nat)
    ensures n <= |s| && AllWhitespace(s[..n])
    ensures n < |s| ==> !IsWhitespace(s[n])
  {
    if s == [] || !IsWhitespace(s[0]) then 0
    else
      var n := 1 + WhitespaceRun(s[1..]);
      assert forall i :: 1 <= i < n ==> s[..n][i] == s[1..][..n - 1][i - 1];
      n
  }

  /** The optional `(\.\d+)?` part at the front of `u`: the fraction digits and the rest, or
      `None` as the fraction when `u` does not start with `.`; fails on a `.` without digits. */
  function ScanFraction(u: string): (r: Option<(Option<string>, string)>)
    ensures r.Some? && r.value.0.None? ==> r.value.1 == u
    ensures r.Some? && r.value.0.Some? ==>
      |r.value.0.value| > 0 && AllDigits(r.value.0.value) && u == "." + r.value.0.value + r.value.1
  {
    if |u| > 0 && u[0] == '.' then
      var m := DigitRun(u[1..]);
      if m == 0 then None
      else
        assert u == "." + u[1..][..m] + u[1..][m..];
        Some((Some(u[1..][..m]), u[1..][m..]))
    else Some((None, u))
  }

  /** Recognises one number at the front of `s`, returning it and the rest of the input. */
  function ScanDecimal(s: string): (r: Option<(Decimal, string)>)
    ensures r.Some? ==> WellFormedDecimal(r.value.0) && s == DecimalText(r.value.0) + r.value.1
  {
    var negative := |s| > 0 && s[0] == '-';
    var t := if negative then s[1..] else s;
    var n := DigitRun(t);
    if n == 0 then None
    else
      match ScanFraction(t[n..])
      case None => None
      case Some((fraction, rest)) =>
        var d := Decimal(negative, t[..n], fraction);
        ScanDecimalSound(s, negative, t, n, fraction, rest);
        Some((d, rest))
  }

  lemma ScanDecimalSound(s: string, negative: bool, t: string, n: nat, fraction: Option<string>, rest: string)
    requires negative <==> |s| > 0 && s[0] == '-'
    requires t == if negative then s[1..] else s
    requires 0 < n <= |t| && AllDigits(t[..n])
    requires fraction.None? ==> rest == t[n..]
    requires fraction.Some? ==> |fraction.value| > 0 && AllDigits(fraction.value) && t[n..] == "." + fraction.value + rest
    ensures WellFormedDecimal(Decimal(negative, t[..n], fraction))
    ensures s == DecimalText(Decimal(negative, t[..n], fraction)) + rest
  {
    SignSplit(s, negative, t);
    assert t[n..] == FractionText(fraction) + rest;
    WholeSplit(t, n, FractionText(fraction) + rest);
    DecimalTextPlus(Decimal(negative, t[..n], fraction), rest);
  }

  /** `DecimalText(d) + rest`, regrouped from the right. */
  lemma DecimalTextPlus(d: Decimal, rest: string)
    ensures DecimalText(d) + rest == SignText(d.negative) + (d.whole + (FractionText(d.fraction) + rest))
  {
  }

  lemma SignSplit(s: string, negative: bool, t: string)
    requires negative <==> |s| > 0 && s[0] == '-'
    requires t == if negative then s[1..] else s
    ensures s == SignText(negative) + t
  {
    if negative {
      assert s == [s[0]] + s[1..];
    }
  }

  lemma WholeSplit(t: string, n: nat, tail: string)
    requires n <= |t| && t[n..] == tail
    ensures t == t[..n] + tail
  {
  }

  /** The anchored pattern as a recogniser: the parsed pieces when the whole string matches. */
  function ParseLocationText(s: string): (r: Option<LocationText>)
    ensures r.Some? ==> WellFormedText(r.value) && Render(r.value) == s
  {
    match ScanDecimal(s)
    case None => None
    case Some((lat, rest)) =>
      if |rest| == 0 || rest[0] != ',' then None
      else
        var w := WhitespaceRun(rest[1..]);
        match ScanDecimal(rest[1..][w..])
        case None => None
        case Some((lng, tail)) =>
          if tail != [] then None
          else
            ParseSound(s, lat, rest, w, lng);
            Some(LocationText(lat, rest[1..][..w], lng))
  }

  lemma ParseSound(s: string, lat: Decimal, rest: string, w: nat, lng: Decimal)
    requires s == DecimalText(lat) + rest
    requires |rest| > 0 && rest[0] == ','
    requires w <= |rest| - 1
    requires rest[1..][w..] == DecimalText(lng) + []
    ensures Render(LocationText(lat, rest[1..][..w], lng)) == s
  {
    assert rest == "," + rest[1..][..w] + rest[1..][w..];
  }

  /** `locationStringSchema` accepts `s`. */
  predicate MatchesLocationPattern(s: string)
  {
    ParseLocationText(s).Some?
  }

  lemma {:induction false} DigitRunOf(digits: string, rest: string)
    requires AllDigits(digits)
    requires rest == [] || !IsDigit(rest[0])
    ensures DigitRun(digits + rest) == |digits|
  {
    if digits != [] {
      assert (digits + rest)[1..] == digits[1..] + rest;
      DigitRunOf(digits[1..], rest);
    }
  }

  lemma {:induction false} WhitespaceRunOf(ws: string, rest: string)
    requires AllWhitespace(ws)
    requires rest == [] || !IsWhitespace(rest[0])
    ensures WhitespaceRun(ws + rest) == |ws|
  {
    if ws != [] {
      assert (ws + rest)[1..] == ws[1..] + rest;
      WhitespaceRunOf(ws[1..], rest);
    }
  }

  lemma ScanFractionText(fraction: Option<string>, rest: string)
    requires fraction.Some? ==> |fraction.value| > 0 && AllDigits(fraction.value)
    requires rest == [] || (!IsDigit(rest[0]) && rest[0] != '.')
    ensures ScanFraction(FractionText(fraction) + rest) == Some((fraction, rest))
  {
    if fraction.Some? {
      var u := "." + fraction.value + rest;
      assert u[1..] == fraction.value + rest;
      DigitRunOf(fraction.value, rest);
      assert u[1..][..|fraction.value|] == fraction.value;
      assert u[1..][|fraction.value|..] == rest;
    } else {
      assert "" + rest == rest;
    }
  }

  /** A well-formed number followed by something that cannot continue it is scanned back exactly. */
  lemma ScanDecimalText(d: Decimal, rest: string)
    requires WellFormedDecimal(d)
    requires rest == [] || (!IsDigit(rest[0]) && rest[0] != '.')
    ensures ScanDecimal(DecimalText(d) + rest) == Some((d, rest))
  {
    var s := DecimalText(d) + rest;
    var tail := FractionText(d.fraction) + rest;
    var t := d.whole + tail;
    DecimalTextPlus(d, rest);
    SignUnsplit(s, d.negative, t);
    assert tail == [] || !IsDigit(tail[0]);
    DigitRunOf(d.whole, tail);
    assert t[..|d.whole|] == d.whole && t[|d.whole|..] == tail;
    ScanFractionText(d.fraction, rest);
    ScanSteps(s, d.negative, t, |d.whole|, d.fraction, rest);
  }

  lemma SignUnsplit(s: string, negative: bool, t: string)
    requires s == SignText(negative) + t
    requires |t| > 0 && t[0] != '-'
    ensures (negative <==> |s| > 0 && s[0] == '-') && t == if negative then s[1..] else s
  {
    if negative {
      assert s[1..] == t;
    } else {
      assert s == t;
    }
  }

  /** How the number scanner proceeds once its digit run and fraction are known. */
  lemma ScanSteps(s: string, negative: bool, t: string, n: nat, fraction: Option<string>, rest: string)
    requires (negative <==> |s| > 0 && s[0] == '-') && t == if negative then s[1..] else s
    requires 0 < n <= |t| && DigitRun(t) == n
    requires ScanFraction(t[n..]) == Some((fraction, rest))
    ensures ScanDecimal(s) == Some((Decimal(negative, t[..n], fraction), rest))
  {
  }

  /** Completeness: every string of the grammar's shape is accepted, with the same pieces. */
  lemma ParseRender(t: LocationText)
    requires WellFormedText(t)
    ensures ParseLocationText(Render(t)) == Some(t)
  {
    var rest := "," + t.gap + DecimalText(t.lng);
    ScanLatitudeText(t);
    ScanAfterComma(t);
    ParseSteps(Render(t), t.lat, rest, |t.gap|, t.lng);
  }

  lemma ScanLatitudeText(t: LocationText)
    requires WellFormedText(t)
    ensures ScanDecimal(Render(t)) == Some((t.lat, "," + t.gap + DecimalText(t.lng)))
  {
    var rest := "," + t.gap + DecimalText(t.lng);
    assert Render(t) == DecimalText(t.lat) + rest;
    ScanDecimalText(t.lat, rest);
  }

  lemma ScanAfterComma(t: LocationText)
    requires WellFormedText(t)
    ensures var after := ("," + t.gap + DecimalText(t.lng))[1..];
      WhitespaceRun(after) == |t.gap| && after[..|t.gap|] == t.gap
      && ScanDecimal(after[|t.gap|..]) == Some((t.lng, []))
  {
    var lngText := DecimalText(t.lng);
    var after := ("," + t.gap + lngText)[1..];
    assert after == t.gap + lngText;
    DecimalTextShape(t.lng);
    WhitespaceRunOf(t.gap, lngText);
    assert after[|t.gap|..] == lngText + [];
    ScanDecimalText(t.lng, []);
  }

  /** How the recogniser proceeds once each of its three scans is known. */
  lemma ParseSteps(s: string, lat: Decimal, rest: string, w: nat, lng: Decimal)
    requires ScanDecimal(s) == Some((lat, rest))
    requires |rest| > 0 && rest[0] == ','
    requires WhitespaceRun(rest[1..]) == w
    requires ScanDecimal(rest[1..][w..]) == Some((lng, []))
    ensures ParseLocationText(s) == Some(LocationText(lat, rest[1..][..w], lng))
  {
  }

  /** A string is accepted iff it is a number, a comma, optional whitespace, then a number. */
  lemma MatchesIff(s: string)
    ensures MatchesLocationPattern(s) <==> exists t :: WellFormedText(t) && Render(t) == s
  {
    if exists t :: WellFormedText(t) && Render(t) == s {
      var t :| WellFormedText(t) && Render(t) == s;
      ParseRender(t);
    }
  }

  // --- what the pattern rules out ---------------------------------------------------

  /** The characters an accepted string can contain. */
  predicate PatternChar(c: char)
  {
    IsDigit(c) || c == '-' || c == '.' || c == ',' || IsWhitespace(c)
  }

  lemma DecimalTextShape(d: Decimal)
    requires WellFormedDecimal(d)
    ensures var s := DecimalText(d);
      |s| > 0 && (s[0] == '-' || IsDigit(s[0])) && IsDigit(s[|s| - 1])
      && forall i :: 0 <= i < |s| ==> IsDigit(s[i]) || s[i] == '-' || s[i] == '.'
  {
    var sign: string := if d.negative then "-" else "";
    var frac: string := if d.fraction.Some? then "." + d.fraction.value else "";
    var s := DecimalText(d);
    assert s == sign + d.whole + frac;
    forall i | 0 <= i < |s| ensures IsDigit(s[i]) || s[i] == '-' || s[i] == '.' {
      if i < |sign| {
      } else if i < |sign| + |d.whole| {
        assert s[i] == d.whole[i - |sign|];
      } else {
        assert s[i] == frac[i - |sign| - |d.whole|];
      }
    }
    if d.fraction.Some? {
      assert s[|s| - 1] == d.fraction.value[|d.fraction.value| - 1];
    } else {
      assert s[|s| - 1] == d.whole[|d.whole| - 1];
    }
  }

  lemma DigitIsNotWhitespace(c: char)
    requires IsDigit(c)
    ensures !IsWhitespace(c)
  {
  }

  /** Facts about the shape of a string of the grammar: it starts with `-` or a digit, ends
      with a digit, uses only pattern characters, and its one comma follows a digit. */
  lemma RenderShape(loc: LocationText)
    requires WellFormedText(loc)
    ensures |Render(loc)| > 0 && (Render(loc)[0] == '-' || IsDigit(Render(loc)[0]))
    ensures IsDigit(Render(loc)[|Render(loc)| - 1])
    ensures forall i :: 0 <= i < |Render(loc)| ==> PatternChar(Render(loc)[i])
    ensures forall i :: 0 <= i < |Render(loc)| && Render(loc)[i] == ',' ==> i == |DecimalText(loc.lat)|
    ensures 0 < |DecimalText(loc.lat)| < |Render(loc)| && Render(loc)[|DecimalText(loc.lat)|] == ','
    ensures IsDigit(Render(loc)[|DecimalText(loc.lat)| - 1])
  {
    var s := Render(loc);
    var a, b := DecimalText(loc.lat), DecimalText(loc.lng);
    DecimalTextShape(loc.lat);
    DecimalTextShape(loc.lng);
    assert s == a + [','] + loc.gap + b;
    forall i | 0 <= i < |s|
      ensures PatternChar(s[i]) && (s[i] == ',' ==> i == |a|)
    {
      if i < |a| {
        assert s[i] == a[i];
      } else if i == |a| {
      } else if i < |a| + 1 + |loc.gap| {
        assert s[i] == loc.gap[i - |a| - 1];
      } else {
        assert s[i] == b[i - |a| - 1 - |loc.gap|];
      }
    }
    assert s[|a| - 1] == a[|a| - 1];
    assert s[|s| - 1] == b[|b| - 1];
  }

  /** The same facts for any accepted string. */
  lemma AcceptedShape(s: string) returns (k: nat)
    requires MatchesLocationPattern(s)
    ensures |s| > 0 && (s[0] == '-' || IsDigit(s[0])) && IsDigit(s[|s| - 1])
    ensures forall i :: 0 <= i < |s| ==> PatternChar(s[i])
    ensures 0 < k < |s| && s[k] == ',' && IsDigit(s[k - 1])
    ensures forall i :: 0 <= i < |s| && s[i] == ',' ==> i == k
  {
    var t := ParseLocationText(s).value;
    RenderShape(t);
    k := |DecimalText(t.lat)|;
  }

  /** What the pattern rules out: a leading `+`, a trailing `.`, whitespace before the comma,
      and exponent markers anywhere. */
  lemma AcceptedExcludes(s: string)
    requires MatchesLocationPattern(s)
    ensures s[0] != '+'
    ensures s[|s| - 1] != '.'
    ensures forall i :: 0 < i < |s| && s[i] == ',' ==> !IsWhitespace(s[i - 1])
    ensures forall i :: 0 <= i < |s| ==> s[i] != 'e' && s[i] != 'E'
  {
    var k := AcceptedShape(s);
    DigitIsNotWhitespace(s[k - 1]);
    forall i | 0 <= i < |s| ensures s[i] != 'e' && s[i] != 'E' {
      PatternCharIsNotExponent(s[i]);
    }
  }

  lemma PatternCharIsNotExponent(c: char)
    requires PatternChar(c)
    ensures c != 'e' && c != 'E'
  {
  }

  /** Number of occurrences of `c` in `s`. */
  function CountChar(s: string, c: char): nat
  {
    if s == [] then 0 else (if s[0] == c then 1 else 0) + CountChar(s[1..], c)
  }

  lemma {:induction false} CountCharPositions(s: string, c: char, k: nat)
    requires forall i :: 0 <= i < |s| && s[i] == c ==> i == k
    ensures CountChar(s, c) == if k < |s| && s[k] == c then 1 else 0
  {
    if s != [] {
      var k' := if k == 0 then |s| else k - 1;
      forall i | 0 <= i < |s[1..]| && s[1..][i] == c ensures i == k' {
        assert s[i + 1] == c;
      }
      CountCharPositions(s[1..], c, k');
      if k > 0 && k < |s| { assert s[1..][k - 1] == s[k]; }
    }
  }

  /** Every accepted string holds exactly one comma, so a third component is impossible. */
  lemma ExactlyOneComma(s: string)
    requires MatchesLocationPattern(s)
    ensures CountChar(s, ',') == 1
  {
    var k := AcceptedShape(s);
    CountCharPositions(s, ',', k);
  }
}
