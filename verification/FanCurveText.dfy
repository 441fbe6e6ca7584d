/**
 * The text form of a fan curve, "temp:speed,temp:speed,...": parsing, printing
 * and their round trip.  Digits are the ASCII digits; white space is the set
 * Python's str.strip and \s share.
 */
module FanCurveText {
  import opened Wrappers
  import opened FanCurve

  // ------------------------------------------------------------------ characters

  predicate IsSpace(c: char) {
    || '\t' <= c <= '\r' || '\U{1c}' <= c <= ' ' || c == '\U{85}' || c == '\U{a0}'
    || c == '\U{1680}' || '\U{2000}' <= c <= '\U{200a}' || c == '\U{2028}' || c == '\U{2029}'
    || c == '\U{202f}' || c == '\U{205f}' || c == '\U{3000}'
  }

  predicate IsDigit(c: char) { '0' <= c <= '9' }

  predicate Blank(s: string) { forall i :: 0 <= i < |s| ==> IsSpace(s[i]) }

  predicate Number(s: string) { |s| > 0 && forall i :: 0 <= i < |s| ==> IsDigit(s[i]) }

  // --------------------------------------------------------------------- numbers

  function Digit(n: nat): (c: char)
    requires n < 10
    ensures IsDigit(c) && c as int - '0' as int == n
  {
    '0' + n as char
  }

  function Decimal(n: int): (s: string)
    ensures n >= 0 ==> Number(s)
    decreases if n < 0 then 1 else 0, if n < 0 then -n else n
  {
    if n < 0 then "-" + Decimal(-n)
    else if n < 10 then [Digit(n)]
    else Decimal(n / 10) + [Digit(n % 10)]
  }

  function Value(s: string): (n: nat)
    requires forall i :: 0 <= i < |s| ==> IsDigit(s[i])
  {
    if s == "" then 0
    else assert IsDigit(s[|s|-1]); 10 * Value(s[..|s|-1]) + (s[|s|-1] as int - '0' as int)
  }

  lemma {:induction false} ValueOfDecimal(n: nat)
    ensures Value(Decimal(n)) == n
  {
    if n < 10 {
      assert Decimal(n)[..0] == "";
    } else {
      var s := Decimal(n);
      assert s[..|s|-1] == Decimal(n / 10);
      ValueOfDecimal(n / 10);
    }
  }

  function Tens(n: nat): (r: nat) { if n == 0 then 1 else 10 * Tens(n - 1) }

  /** Digits count from the left by their powers of ten. */
  lemma {:induction false} ValueByPlace(s: string)
    requires Number(s)
    ensures Value(s) == (s[0] as int - '0' as int) * Tens(|s| - 1) + Value(s[1..])
    decreases |s|
  {
    var n, d := |s| - 1, s[0] as int - '0' as int;
    if n == 0 {
      assert s[..0] == "" && s[1..] == "";
    } else {
      var front, rest := s[..n], s[1..];
      ValueByPlace(front);
      assert front[1..] == rest[..n-1] && rest[n-1] == s[n];
      TenTimes(d, Tens(n - 1));
      hide IsDigit, Number;
    }
  }

  lemma TenTimes(a: int, b: int)
    ensures a * (10 * b) == 10 * (a * b)
  {}

  // ------------------------------------------------------------------- stripping

  function StripLeft(s: string): (r: string) {
    if s != "" && IsSpace(s[0]) then StripLeft(s[1..]) else s
  }

  function StripRight(s: string): (r: string) {
    if s != "" && IsSpace(s[|s|-1]) then StripRight(s[..|s|-1]) else s
  }

  function Strip(s: string): (r: string) { StripRight(StripLeft(s)) }

  lemma {:induction false} StripLeftSplits(s: string) returns (l: string)
    ensures Blank(l) && s == l + StripLeft(s)
  {
    if s != "" && IsSpace(s[0]) {
      var m := StripLeftSplits(s[1..]);
      l := [s[0]] + m;
    } else {
      l := "";
    }
  }

  lemma {:induction false} StripRightSplits(s: string) returns (r: string)
    ensures Blank(r) && s == StripRight(s) + r
  {
    if s != "" && IsSpace(s[|s|-1]) {
      var m := StripRightSplits(s[..|s|-1]);
      r := m + [s[|s|-1]];
    } else {
      r := "";
    }
  }

  lemma StripSplits(s: string) returns (l: string, r: string)
    ensures Blank(l) && Blank(r) && s == l + Strip(s) + r
  {
    l := StripLeftSplits(s);
    r := StripRightSplits(StripLeft(s));
  }

  lemma {:induction false} StripLeftDrops(l: string, s: string)
    requires Blank(l) && (s == "" || !IsSpace(s[0]))
    ensures StripLeft(l + s) == s
  {
    if l == "" {
      assert l + s == s;
    } else {
      assert (l + s)[1..] == l[1..] + s;
      StripLeftDrops(l[1..], s);
    }
  }

  lemma {:induction false} StripRightDrops(s: string, r: string)
    requires Blank(r) && (s == "" || !IsSpace(s[|s|-1]))
    ensures StripRight(s + r) == s
  {
    if r == "" {
      assert s + r == s;
    } else {
      var t := s + r;
      assert t[..|t|-1] == s + r[..|r|-1];
      StripRightDrops(s, r[..|r|-1]);
    }
  }

  lemma StripNumber(l: string, x: string, r: string)
    requires Blank(l) && Number(x) && Blank(r)
    ensures Strip(l + x + r) == x
  {
    assert IsDigit(x[0]) && IsDigit(x[|x|-1]);
    assert l + x + r == l + (x + r);
    StripLeftDrops(l, x + r);
    StripRightDrops(x, r);
  }

  // ----------------------------------------------------------------- one segment

  function ColonAt(s: string): (k: nat)
    ensures k <= |s|
    ensures k < |s| ==> s[k] == ':'
    ensures forall i :: 0 <= i < k ==> s[i] != ':'
  {
    if s == "" || s[0] == ':' then 0 else 1 + ColonAt(s[1..])
  }

  /** The two numbers of a segment, if it has the form of a point. */
  function ParsePoint(segment: string): (r: Option<(int, int)>) {
    var k := ColonAt(segment);
    if k == |segment| then None
    else
      var x, y := Strip(segment[..k]), Strip(segment[k+1..]);
      if Number(x) && Number(y) then Some((Value(x), Value(y))) else None
  }

  /** The pattern itself: blanks, digits, blanks, a colon, blanks, digits, blanks. */
  predicate Matches(segment: string, a: string, x: string, b: string, c: string, y: string, d: string) {
    && Blank(a) && Number(x) && Blank(b) && Blank(c) && Number(y) && Blank(d)
    && segment == (a + x + b) + ":" + (c + y + d)
  }

  lemma NoColonBefore(a: string, x: string, b: string)
    requires Blank(a) && Number(x) && Blank(b)
    ensures ':' !in a + x + b
  {}

  lemma MatchParses(segment: string, a: string, x: string, b: string, c: string, y: string, d: string)
    requires Matches(segment, a, x, b, c, y, d)
    ensures ParsePoint(segment) == Some((Value(x), Value(y)))
  {
    var left, right := a + x + b, c + y + d;
    NoColonBefore(a, x, b);
    var k := ColonAt(segment);
    assert segment[|left|] == ':';
    assert forall i :: 0 <= i < |left| ==> segment[i] == left[i];
    assert k == |left|;
    assert segment[..k] == left && segment[k+1..] == right;
    StripNumber(a, x, b);
    StripNumber(c, y, d);
  }

  lemma ParseMatches(segment: string)
    returns (a: string, x: string, b: string, c: string, y: string, d: string)
    requires ParsePoint(segment).Some?
    ensures Matches(segment, a, x, b, c, y, d)
    ensures ParsePoint(segment).value == (Value(x), Value(y))
  {
    var k := ColonAt(segment);
    x, y := Strip(segment[..k]), Strip(segment[k+1..]);
    a, b := StripSplits(segment[..k]);
    c, d := StripSplits(segment[k+1..]);
    assert segment == segment[..k] + ":" + segment[k+1..];
  }

  /** A segment is read as a point exactly when it matches the pattern, with the matched numbers. */
  lemma PointReadIff(segment: string, t: int, v: int)
    ensures ParsePoint(segment) == Some((t, v)) <==>
            exists a, x, b, c, y, d :: Matches(segment, a, x, b, c, y, d) && t == Value(x) && v == Value(y)
  {
    if ParsePoint(segment) == Some((t, v)) {
      var a, x, b, c, y, d := ParseMatches(segment);
    }
    forall a, x, b, c, y, d | Matches(segment, a, x, b, c, y, d)
      ensures ParsePoint(segment) == Some((Value(x), Value(y)))
    {
      MatchParses(segment, a, x, b, c, y, d);
    }
  }

  // ------------------------------------------------------------------ whole text

  function Split(s: string): (parts: seq<string>)
    ensures |parts| > 0
  {
    if s == "" then [""]
    else if s[0] == ',' then [""] + Split(s[1..])
    else var rest := Split(s[1..]); [[s[0]] + rest[0]] + rest[1..]
  }

  function Join(parts: seq<string>): (s: string) {
    if |parts| == 0 then ""
    else if |parts| == 1 then parts[0]
    else parts[0] + "," + Join(parts[1..])
  }

  lemma {:induction false} SplitPrefix(p: string, rest: string)
    requires ',' !in p
    ensures Split(p + "," + rest) == [p] + Split(rest)
  {
    var s := p + "," + rest;
    if p == "" {
      assert s[1..] == rest;
    } else {
      assert s[1..] == p[1..] + "," + rest;
      SplitPrefix(p[1..], rest);
      assert [p[0]] + p[1..] == p;
    }
  }

  lemma {:induction false} SplitOne(p: string)
    requires ',' !in p
    ensures Split(p) == [p]
  {
    if p != "" {
      SplitOne(p[1..]);
      assert [p[0]] + p[1..] == p;
    }
  }

  lemma {:induction false} SplitJoin(parts: seq<string>)
    requires |parts| > 0 && forall i :: 0 <= i < |parts| ==> ',' !in parts[i]
    ensures Split(Join(parts)) == parts
  {
    if |parts| == 1 {
      SplitOne(parts[0]);
    } else {
      SplitPrefix(parts[0], Join(parts[1..]));
      SplitJoin(parts[1..]);
      assert [parts[0]] + parts[1..] == parts;
    }
  }

  /** The raw pairs of a list of segments, or the first segment that is not a point. */
  function RawPoints(segments: seq<string>): (r: Result<seq<(int, int)>, string>) {
    if segments == [] then Ok([])
    else
      var n := |segments| - 1;
      var before := RawPoints(segments[..n]);
      if before.Err? then before
      else
        var segment := Strip(segments[n]);
        if segment == "" then before
        else
          match ParsePoint(segment)
          case None => Err(segment)
          case Some(p) => Ok(before.value + [p])
  }

  lemma {:induction false} RawErrorSticks(segments: seq<string>, k: nat)
    requires k <= |segments| && RawPoints(segments[..k]).Err?
    ensures RawPoints(segments) == RawPoints(segments[..k])
    decreases |segments| - k
  {
    if k == |segments| {
      assert segments[..k] == segments;
    } else {
      assert segments[..k+1][..k] == segments[..k];
      RawErrorSticks(segments, k + 1);
    }
  }

  method ParseCurve(curve: string) returns (r: Result<seq<Point>, CurveError>)
    ensures r.Ok? <==> Parsed(curve).Some?
    ensures r.Ok? ==> Parsed(curve) == Some(r.value)
    ensures RawPoints(Split(curve)).Err? ==> r == Err(BadSegment(RawPoints(Split(curve)).error))
    ensures r.Err? && RawPoints(Split(curve)).Ok? ==> Explains(r.error, Typed(RawPoints(Split(curve)).value))
  {
    var raw: seq<(int, int)> := [];
    var segments := Split(curve);
    for i := 0 to |segments|
      invariant RawPoints(segments[..i]) == Ok(raw)
    {
      assert segments[..i+1][..i] == segments[..i];
      var segment := Strip(segments[i]);
      if segment == "" {
        continue;
      }
      var point := ParsePoint(segment);
      if point.None? {
        RawErrorSticks(segments, i + 1);
        return Err(BadSegment(segment));
      }
      raw := raw + [point.value];
    }
    assert segments[..|segments|] == segments;
    r := ValidateCurvePoints(raw);
  }

  /** What a text means: the validated points it lists, or nothing. */
  function Parsed(curve: string): (r: Option<seq<Point>>) {
    var raw := RawPoints(Split(curve));
    if raw.Ok? && ValidCurve(Typed(raw.value)) then Some(Typed(raw.value)) else None
  }

  function FormatPoint(p: Point): (s: string) { Decimal(p.temp) + ":" + Decimal(p.speed) }

  function FormatEach(points: seq<Point>): (parts: seq<string>)
    ensures |parts| == |points|
    ensures forall i :: 0 <= i < |parts| ==> parts[i] == FormatPoint(points[i])
  {
    seq(|points|, i requires 0 <= i < |points| => FormatPoint(points[i]))
  }

  function FormatCurve(points: seq<Point>): (s: string) { Join(FormatEach(points)) }

  lemma PairText(x: string, y: string)
    requires Number(x) && Number(y)
    ensures ',' !in x + ":" + y
    ensures Strip(x + ":" + y) == x + ":" + y
    ensures ParsePoint(x + ":" + y) == Some((Value(x), Value(y)))
  {
    hide ParsePoint, Value;
    var s := x + ":" + y;
    assert Matches(s, "", x, "", "", y, "") by {
      assert "" + x + "" == x && "" + y + "" == y;
    }
    MatchParses(s, "", x, "", "", y, "");
    assert IsDigit(s[0]) && IsDigit(s[|s|-1]);
  }

  lemma FormattedPoint(p: Point)
    requires p.temp >= 0 && p.speed >= 0
    ensures ',' !in FormatPoint(p)
    ensures Strip(FormatPoint(p)) == FormatPoint(p) != ""
    ensures ParsePoint(FormatPoint(p)) == Some((p.temp, p.speed))
  {
    hide ParsePoint, Strip, Value, Decimal;
    PairText(Decimal(p.temp), Decimal(p.speed));
    ValueOfDecimal(p.temp);
    ValueOfDecimal(p.speed);
  }

  lemma {:induction false} RawOfFormatted(points: seq<Point>)
    requires forall i :: 0 <= i < |points| ==> points[i].temp >= 0 && points[i].speed >= 0
    ensures RawPoints(FormatEach(points)).Ok?
    ensures Typed(RawPoints(FormatEach(points)).value) == points
  {
    hide ParsePoint, Strip, FormatPoint;
    if points != [] {
      var n, parts := |points| - 1, FormatEach(points);
      assert parts[..n] == FormatEach(points[..n]);
      RawOfFormatted(points[..n]);
      FormattedPoint(points[n]);
    }
  }

  /** Printing a validated curve and parsing the text gives the same curve. */
  lemma FormatThenParse(points: seq<Point>)
    requires ValidCurve(points)
    ensures Parsed(FormatCurve(points)) == Some(points)
  {
    forall i | 0 <= i < |points|
      ensures points[i].temp >= 0 && points[i].speed >= 0 && ',' !in FormatEach(points)[i]
    {
      assert InRange(points[i]);
      FormattedPoint(points[i]);
    }
    SplitJoin(FormatEach(points));
    RawOfFormatted(points);
  }

  /**
   * Parse-then-format settles after one pass on every accepted text, and two
   * accepted texts are formatted alike exactly when they mean the same curve.
   */
  lemma ParseThenFormat(curve: string, other: string)
    requires Parsed(curve).Some? && Parsed(other).Some?
    ensures Parsed(FormatCurve(Parsed(curve).value)) == Parsed(curve)
    ensures FormatCurve(Parsed(curve).value) == FormatCurve(Parsed(other).value) <==> Parsed(curve) == Parsed(other)
  {
    FormatThenParse(Parsed(curve).value);
    FormatThenParse(Parsed(other).value);
  }

  /** A curve as it is written: temperature before speed, in decimal. */
  lemma CurveTextExample()
    ensures FormatCurve([Point(40_000, 20), Point(95_000, 100)]) == "40000:20,95000:100"
    ensures Parsed("40000:20,95000:100") == Some([Point(40_000, 20), Point(95_000, 100)])
  {
    hide Decimal, Parsed, ValidCurve;
    var points := [Point(40_000, 20), Point(95_000, 100)];
    ValidCurveIff(points);
    FormatThenParse(points);
    assert Decimal(40_000) == "40000" && Decimal(20) == "20" by { LastDigits(); }
    assert Decimal(95_000) == "95000" && Decimal(100) == "100" by { LastDigits(); }
    var parts := FormatEach(points);
    assert parts[0] == "40000:20" && parts[1] == "95000:100";
    assert parts[1..] == ["95000:100"];
    assert Join(parts) == parts[0] + "," + Join(parts[1..]);
  }

  lemma LastDigits()
    ensures Decimal(40_000) == "40000" && Decimal(20) == "20" && Decimal(95_000) == "95000" && Decimal(100) == "100"
  {
    assert Decimal(4) == "4" && Decimal(40) == "40" && Decimal(400) == "400" && Decimal(4_000) == "4000";
    assert Decimal(9) == "9" && Decimal(95) == "95" && Decimal(950) == "950" && Decimal(9_500) == "9500";
    assert Decimal(10) == "10";
  }
}
