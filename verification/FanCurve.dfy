/**
 * Fan curves: validation of a list of points, the rounded piecewise-linear
 * target speed of the curve controller, and its agreement with the
 * divide-first interpolation used elsewhere.
 *
 * Temperatures are millidegrees Celsius, speeds are percentages.
 */
module FanCurve {
  import opened Wrappers

  const TEMP_MIN := 40_000
  const TEMP_MAX := 100_000
  const SPEED_MAX := 100
  const HIGH_TEMP := 95_000

  datatype Point = Point(temp: int, speed: int)

  datatype CurveError =
    | PointCount(n: nat)
    | TempRange(index: nat)
    | SpeedRange(index: nat)
    | NotIncreasing(index: nat)
    | SpeedDrops(index: nat)
    | TooSlowWhenHot(index: nat)
    | BadSegment(text: string)

  /** Sensor readings the controllers believe. */
  predicate Plausible(temp: int) { 1_000 <= temp <= 150_000 }

  /** The least manual speed tolerated at a temperature. */
  function SafeFloor(temp: int): (r: int) {
    if temp >= 95_000 then 100 else if temp >= 90_000 then 80 else 0
  }

  // ---------------------------------------------------------------- validation

  predicate InRange(p: Point) {
    TEMP_MIN <= p.temp <= TEMP_MAX && 0 <= p.speed <= SPEED_MAX
  }

  predicate HotEnough(p: Point) {
    p.temp >= HIGH_TEMP ==> p.speed >= 100
  }

  predicate Rising(ps: seq<Point>) { RisingTo(ps, |ps|) }

  predicate RisingTo(ps: seq<Point>, n: nat)
    requires n <= |ps|
  {
    forall i :: 1 <= i < n ==> ps[i-1].temp < ps[i].temp
  }

  predicate Climbing(ps: seq<Point>) { ClimbingTo(ps, |ps|) }

  predicate ClimbingTo(ps: seq<Point>, n: nat)
    requires n <= |ps|
  {
    forall i :: 1 <= i < n ==> ps[i-1].speed <= ps[i].speed
  }

  /** The promise a validated curve carries. */
  predicate ValidCurve(ps: seq<Point>) {
    && Ranged(ps)
    && Rising(ps)
    && Climbing(ps)
    && forall j :: 0 <= j < |ps| ==> HotEnough(ps[j])
  }

  predicate Ranged(ps: seq<Point>) {
    && 2 <= |ps| <= 12
    && forall j :: 0 <= j < |ps| ==> InRange(ps[j])
  }

  /** A curve is valid exactly when it has 2 to 12 points from 40 to 100 degrees, at most full speed, full
      speed from 95 degrees on, and hotter always means later and never slower. */
  lemma ValidCurveIff(ps: seq<Point>)
    ensures ValidCurve(ps) <==>
            && 2 <= |ps| <= 12
            && (forall i :: 0 <= i < |ps| ==>
                  && 40_000 <= ps[i].temp <= 100_000 && 0 <= ps[i].speed <= 100
                  && (ps[i].temp >= 95_000 ==> ps[i].speed == 100))
            && (forall i, j :: 0 <= i < j < |ps| ==> ps[i].temp < ps[j].temp && ps[i].speed <= ps[j].speed)
  {
    if ValidCurve(ps) {
      forall i, j | 0 <= i < j < |ps| ensures ps[i].temp < ps[j].temp && ps[i].speed <= ps[j].speed {
        FartherIsHotter(ps, i, j);
      }
      assert forall i :: 0 <= i < |ps| ==> InRange(ps[i]) && HotEnough(ps[i]);
    }
  }

  lemma {:induction false} FartherIsHotter(ps: seq<Point>, i: nat, j: nat)
    requires Rising(ps) && Climbing(ps) && i < j < |ps|
    ensures ps[i].temp < ps[j].temp && ps[i].speed <= ps[j].speed
    decreases j - i
  {
    if i + 1 < j { FartherIsHotter(ps, i, j - 1); }
  }

  /** What each refusal means: the first defect, in the order the checks are made. */
  predicate Explains(e: CurveError, ps: seq<Point>) {
    match e
    case PointCount(n) => n == |ps| && !(2 <= n <= 12)
    case TempRange(k) =>
      && 2 <= |ps| <= 12
      && k < |ps| && !(TEMP_MIN <= ps[k].temp <= TEMP_MAX)
      && forall j :: 0 <= j < k ==> InRange(ps[j])
    case SpeedRange(k) =>
      && 2 <= |ps| <= 12
      && k < |ps| && TEMP_MIN <= ps[k].temp <= TEMP_MAX && !(0 <= ps[k].speed <= SPEED_MAX)
      && forall j :: 0 <= j < k ==> InRange(ps[j])
    case NotIncreasing(i) =>
      && Ranged(ps)
      && 1 <= i < |ps| && ps[i].temp <= ps[i-1].temp && RisingTo(ps, i)
    case SpeedDrops(i) =>
      && Ranged(ps) && Rising(ps)
      && 1 <= i < |ps| && ps[i].speed < ps[i-1].speed && ClimbingTo(ps, i)
    case TooSlowWhenHot(k) =>
      && Ranged(ps) && Rising(ps) && Climbing(ps)
      && k < |ps| && !HotEnough(ps[k])
      && forall j :: 0 <= j < k ==> HotEnough(ps[j])
    case BadSegment(_) => false
  }

  /** Accepts exactly the valid curves, unchanged, and otherwise names the first defect. */
  method ValidateCurvePoints(points: seq<(int, int)>) returns (r: Result<seq<Point>, CurveError>)
    ensures r.Ok? <==> ValidCurve(Typed(points))
    ensures r.Ok? ==> r.value == Typed(points)
    ensures r.Err? ==> Explains(r.error, Typed(points))
  {
    ghost var ps := Typed(points);
    if !(2 <= |points| <= 12) {
      return Err(PointCount(|points|));
    }
    var validated: seq<Point> := [];
    for k := 0 to |points|
      invariant validated == ps[..k]
      invariant forall j :: 0 <= j < k ==> InRange(ps[j])
    {
      var (temp, speed) := points[k];
      assert ps[k] == Point(temp, speed);
      if !(TEMP_MIN <= temp <= TEMP_MAX) {
        return Err(TempRange(k));
      }
      if !(0 <= speed <= SPEED_MAX) {
        return Err(SpeedRange(k));
      }
      validated := validated + [Point(temp, speed)];
    }
    assert validated == ps;
    assert Ranged(ps);
    var defect := CheckOrder(validated);
    if defect.Some? {
      return Err(defect.value);
    }
    return Ok(validated);
  }

  /** The checks made once every point is in range: temperatures, speeds, hot points. */
  method CheckOrder(validated: seq<Point>) returns (defect: Option<CurveError>)
    requires Ranged(validated)
    ensures defect.None? <==> ValidCurve(validated)
    ensures defect.Some? ==> Explains(defect.value, validated)
  {
    for i := 1 to |validated|
      invariant RisingTo(validated, i)
    {
      if validated[i].temp <= validated[i-1].temp {
        return Some(NotIncreasing(i));
      }
    }
    for i := 1 to |validated|
      invariant ClimbingTo(validated, i)
    {
      if validated[i].speed < validated[i-1].speed {
        return Some(SpeedDrops(i));
      }
    }
    for k := 0 to |validated|
      invariant forall j :: 0 <= j < k ==> HotEnough(validated[j])
    {
      if validated[k].temp >= HIGH_TEMP && validated[k].speed < 100 {
        return Some(TooSlowWhenHot(k));
      }
    }
    return None;
  }

  function Typed(points: seq<(int, int)>): (ps: seq<Point>)
    ensures |ps| == |points|
    ensures forall i :: 0 <= i < |ps| ==> ps[i] == Point(points[i].0, points[i].1)
  {
    seq(|points|, i requires 0 <= i < |points| => Point(points[i].0, points[i].1))
  }

  // ------------------------------------------------------- rounding half to even

  /** The integer nearest to n/d, ties to the even one. */
  function RoundDiv(n: int, d: int): (r: int)
    requires d > 0
  {
    var q, rest := n / d, n % d;
    if 2 * rest < d || (2 * rest == d && q % 2 == 0) then q else q + 1
  }

  /** r is nearest to n/d, and even when two integers are equally near. */
  predicate Nearest(r: int, n: int, d: int) {
    && -d <= 2 * (r * d - n) <= d
    && (2 * (r * d - n) == d || 2 * (r * d - n) == -d ==> r % 2 == 0)
  }

  lemma RoundDivNearest(n: int, d: int)
    requires d > 0
    ensures Nearest(RoundDiv(n, d), n, d)
  {
    var q, rest := n / d, n % d;
    assert n == q * d + rest;
    assert (q + 1) * d == q * d + d;
  }

  lemma GapScales(a: int, b: int, d: int)
    requires d > 0
    ensures a - b == 1 ==> a * d - b * d == d
    ensures a - b >= 2 ==> a * d - b * d >= 2 * d
  {
    var gap := a - b;
    assert a * d - b * d == gap * d;
    if gap >= 2 { assert (gap - 2) * d >= 0; }
  }

  lemma BelowNearest(a: int, b: int, n: int, m: int, d: int)
    requires d > 0 && n <= m && Nearest(a, n, d) && Nearest(b, m, d)
    ensures a <= b
  {
    GapScales(a, b, d);
  }

  lemma NearestUnique(a: int, b: int, n: int, d: int)
    requires d > 0 && Nearest(a, n, d) && Nearest(b, n, d)
    ensures a == b
  {
    hide Nearest;
    BelowNearest(a, b, n, n, d);
    BelowNearest(b, a, n, n, d);
  }

  /** Rounding is monotone across different denominators. */
  lemma RoundDivMonotone(n: int, d: int, m: int, e: int)
    requires d > 0 && e > 0
    requires n * e <= m * d
    ensures RoundDiv(n, d) <= RoundDiv(m, e)
  {
    hide RoundDiv, Nearest;
    ScaleNearest(n, d, e);
    ScaleNearest(m, e, d);
    assert d * e == e * d;
    assert d * e > 0;
    BelowNearest(RoundDiv(n, d), RoundDiv(m, e), n * e, m * d, d * e);
  }

  /** Multiplying numerator and denominator keeps the rounded quotient nearest. */
  lemma ScaleNearest(n: int, d: int, e: int)
    requires d > 0 && e > 0
    ensures Nearest(RoundDiv(n, d), n * e, d * e)
  {
    RoundDivNearest(n, d);
    var r := RoundDiv(n, d);
    var x := 2 * (r * d - n);
    assert 2 * (r * (d * e) - n * e) == x * e by {
      assert r * (d * e) == (r * d) * e;
      assert (r * d) * e - n * e == (r * d - n) * e;
    }
    ScaleBetween(x, d, e);
  }

  lemma ScaleBetween(x: int, d: int, e: int)
    requires d > 0 && e > 0 && -d <= x <= d
    ensures -(d * e) <= x * e <= d * e
    ensures x * e == d * e ==> x == d
    ensures x * e == -(d * e) ==> x == -d
  {
    assert (d - x) * e == d * e - x * e;
    assert (d + x) * e == d * e + x * e;
    assert (d - x) * e >= 0 && (d + x) * e >= 0;
    if x != d { assert (d - x) * e >= 1; }
    if x != -d { assert (d + x) * e >= 1; }
  }

  // --------------------------------------------------------------- curve speed

  /** Speed on the line from a to b, rounded. */
  function OnLine(a: Point, b: Point, temp: int): (r: int)
    requires a.temp < b.temp
  {
    RoundDiv(a.speed * (b.temp - a.temp) + (b.speed - a.speed) * (temp - a.temp), b.temp - a.temp)
  }

  /** The controller's scan: the first segment whose right end is not below temp. */
  function Scan(points: seq<Point>, temp: int): (r: int)
    requires |points| > 0 && Rising(points)
  {
    if |points| == 1 then points[0].speed
    else if temp <= points[1].temp then OnLine(points[0], points[1], temp)
    else Scan(points[1..], temp)
  }

  function CurveSpeed(points: seq<Point>, temp: int): (r: int)
    requires |points| > 0 && Rising(points)
  {
    if temp <= points[0].temp then points[0].speed else Scan(points, temp)
  }

  /** The speed the controller aims for, with the hot override. */
  function Target(points: seq<Point>, temp: int): (r: int)
    requires |points| > 0 && Rising(points)
  {
    if temp >= HIGH_TEMP then 100 else CurveSpeed(points, temp)
  }

  lemma RoundDivExact(q: int, d: int)
    requires d > 0
    ensures RoundDiv(q * d, d) == q
  {
    hide RoundDiv;
    RoundDivNearest(q * d, d);
    assert Nearest(q, q * d, d);
    NearestUnique(RoundDiv(q * d, d), q, q * d, d);
  }

  lemma OnLineEnds(a: Point, b: Point)
    requires a.temp < b.temp
    ensures OnLine(a, b, a.temp) == a.speed
    ensures OnLine(a, b, b.temp) == b.speed
  {
    hide RoundDiv;
    var d := b.temp - a.temp;
    assert a.speed * d + (b.speed - a.speed) * d == b.speed * d;
    RoundDivExact(a.speed, d);
    RoundDivExact(b.speed, d);
  }

  lemma Scaled(x: int, y: int, d: int)
    requires d >= 0 && x <= y
    ensures d * x <= d * y && x * d <= y * d
  {
    assert (y - x) * d >= 0;
    assert (y - x) * d == y * d - x * d;
  }

  lemma OnLineMonotone(a: Point, b: Point, s: int, t: int)
    requires a.temp < b.temp && a.speed <= b.speed && s <= t
    ensures OnLine(a, b, s) <= OnLine(a, b, t)
  {
    hide RoundDiv;
    var d, climb := b.temp - a.temp, b.speed - a.speed;
    var n, m := a.speed * d + climb * (s - a.temp), a.speed * d + climb * (t - a.temp);
    Scaled(s - a.temp, t - a.temp, climb);
    Scaled(n, m, d);
    RoundDivMonotone(n, d, m, d);
  }

  lemma {:induction false} ScanMonotone(points: seq<Point>, s: int, t: int)
    requires |points| > 0 && Rising(points) && Climbing(points)
    requires points[0].temp <= s <= t
    ensures points[0].speed <= Scan(points, s) <= Scan(points, t) <= points[|points|-1].speed
    decreases |points|
  {
    if |points| > 1 {
      var a, b, tail := points[0], points[1], points[1..];
      OnLineEnds(a, b);
      OnLineMonotone(a, b, a.temp, s);
      assert tail[|tail|-1] == points[|points|-1];
      if t <= b.temp {
        OnLineMonotone(a, b, s, t);
        OnLineMonotone(a, b, t, b.temp);
        ScanMonotone(tail, b.temp, b.temp);
      } else if s <= b.temp {
        OnLineMonotone(a, b, s, b.temp);
        ScanMonotone(tail, b.temp, t);
      } else {
        ScanMonotone(tail, s, t);
      }
    }
  }

  /** A hotter sensor never lowers the target, over segment boundaries and the override. */
  lemma TargetMonotone(points: seq<Point>, s: int, t: int)
    requires ValidCurve(points)
    requires s <= t
    ensures Target(points, s) <= Target(points, t)
    ensures CurveSpeed(points, s) <= CurveSpeed(points, t)
    ensures points[0].speed <= Target(points, t) <= 100
  {
    var first, last := points[0], points[|points|-1];
    ScanMonotone(points, first.temp, first.temp);
    if first.temp <= t { ScanMonotone(points, first.temp, t); }
    if first.temp <= s { ScanMonotone(points, s, t); }
  }

  lemma {:induction false} RisingFar(points: seq<Point>, i: nat, j: nat)
    requires Rising(points) && i < j < |points|
    ensures points[i].temp < points[j].temp
    decreases j
  {
    if i + 1 < j { RisingFar(points, i, j - 1); }
  }

  lemma {:induction false} ScanSegment(points: seq<Point>, k: nat, temp: int)
    requires Rising(points) && k + 1 < |points|
    requires points[k].temp <= temp <= points[k+1].temp
    ensures points[0].temp <= temp
    ensures k > 0 || points[0].temp < temp ==> Scan(points, temp) == OnLine(points[k], points[k+1], temp)
    decreases k
  {
    OnLineEnds(points[0], points[1]);
    if k > 0 {
      var tail := points[1..];
      RisingFar(points, 0, k);
      if 1 < k { RisingFar(points, 1, k); }
      if temp == points[1].temp {
        assert k == 1;
        OnLineEnds(points[1], points[2]);
      } else {
        ScanSegment(tail, k - 1, temp);
      }
    }
  }

  lemma {:induction false} ScanAbove(points: seq<Point>, temp: int)
    requires |points| > 0 && Rising(points) && points[|points|-1].temp <= temp
    ensures Scan(points, temp) == points[|points|-1].speed
    decreases |points|
  {
    if |points| > 1 {
      RisingFar(points, 0, |points| - 1);
      if temp <= points[1].temp {
        if |points| > 2 { RisingFar(points, 1, |points| - 1); }
        OnLineEnds(points[0], points[1]);
      } else {
        ScanAbove(points[1..], temp);
      }
    }
  }

  /** What the curve is: constant outside, the rounded line inside whichever segment holds temp. */
  lemma CurveShape(points: seq<Point>, temp: int)
    requires |points| > 0 && Rising(points)
    ensures temp <= points[0].temp ==> CurveSpeed(points, temp) == points[0].speed
    ensures temp >= points[|points|-1].temp ==> CurveSpeed(points, temp) == points[|points|-1].speed
    ensures forall k :: 0 <= k < |points| - 1 && points[k].temp <= temp <= points[k+1].temp ==>
              var a, b := points[k], points[k+1];
              Nearest(CurveSpeed(points, temp),
                      a.speed * (b.temp - a.temp) + (b.speed - a.speed) * (temp - a.temp),
                      b.temp - a.temp)
  {
    if temp >= points[|points|-1].temp {
      ScanAbove(points, temp);
      if |points| > 1 { RisingFar(points, 0, |points| - 1); }
    }
    forall k | 0 <= k < |points| - 1 && points[k].temp <= temp <= points[k+1].temp
      ensures CurveSpeed(points, temp) == OnLine(points[k], points[k+1], temp)
      ensures Nearest(CurveSpeed(points, temp),
                      points[k].speed * (points[k+1].temp - points[k].temp)
                      + (points[k+1].speed - points[k].speed) * (temp - points[k].temp),
                      points[k+1].temp - points[k].temp)
    {
      var a, b := points[k], points[k+1];
      ScanSegment(points, k, temp);
      OnLineEnds(a, b);
      if temp <= points[0].temp && k > 0 { RisingFar(points, 0, k); }
      RoundDivNearest(a.speed * (b.temp - a.temp) + (b.speed - a.speed) * (temp - a.temp), b.temp - a.temp);
    }
  }

  /** Every knot is hit exactly, from the left and from the right; the override agrees with hot knots. */
  lemma KnotsExact(points: seq<Point>, k: nat)
    requires ValidCurve(points) && k < |points|
    ensures CurveSpeed(points, points[k].temp) == points[k].speed
    ensures Target(points, points[k].temp) == points[k].speed
  {
    var temp := points[k].temp;
    CurveShape(points, temp);
    if 0 < k < |points| - 1 {
      ScanSegment(points, k, temp);
      OnLineEnds(points[k], points[k+1]);
      RisingFar(points, 0, k);
    }
  }

  // ------------------------------------------- divide-first interpolation (reals)

  /** Python's round() on an exact real. */
  function RoundReal(x: real): (r: int) {
    var q := x.Floor;
    var rest := x - q as real;
    if rest < 0.5 || (rest == 0.5 && q % 2 == 0) then q else q + 1
  }

  function InterpolateFrom(points: seq<Point>, i: nat, temp: int): (r: int)
    requires 1 <= i <= |points|
    decreases |points| - i
  {
    if i == |points| then points[|points|-1].speed
    else if temp <= points[i].temp then
      var p0, p1 := points[i-1], points[i];
      if p1.temp == p0.temp then p1.speed
      else
        var ratio := (temp - p0.temp) as real / (p1.temp - p0.temp) as real;
        RoundReal(p0.speed as real + ratio * (p1.speed - p0.speed) as real)
    else InterpolateFrom(points, i + 1, temp)
  }

  function InterpolateCurve(points: seq<Point>, temp: int): (r: int) {
    if |points| == 0 then 0
    else if temp <= points[0].temp then points[0].speed
    else if temp >= points[|points|-1].temp then points[|points|-1].speed
    else InterpolateFrom(points, 1, temp)
  }

  /** Products of reals behind a name, so that the proofs below stay linear. */
  function Times(a: real, b: real): (r: real) { a * b }

  lemma TimesLaws(a: real, b: real, c: real, d: real)
    ensures Times(a + b, d) == Times(a, d) + Times(b, d)
    ensures Times(Times(a, c), d) == Times(Times(a, d), c)
  {}

  lemma TimesInt(k: int, d: int)
    ensures Times(k as real, d as real) == (k * d) as real
  {}

  lemma TimesSign(a: real, d: real)
    requires d > 0.0
    ensures a < 0.0 ==> Times(a, d) < 0.0
    ensures a == 0.0 ==> Times(a, d) == 0.0
    ensures a > 0.0 ==> Times(a, d) > 0.0
  {}

  lemma TimesHalf(d: real)
    ensures Times(0.5, d) == 0.5 * d
    ensures Times(-0.5, d) == -0.5 * d
  {}

  lemma RoundRealNear(x: real)
    ensures -0.5 <= RoundReal(x) as real - x <= 0.5
    ensures RoundReal(x) as real - x == 0.5 || RoundReal(x) as real - x == -0.5 ==> RoundReal(x) % 2 == 0
  {}

  lemma RealNearest(r: int, x: real, n: int, d: int)
    requires d > 0 && Times(x, d as real) == n as real
    requires -0.5 <= r as real - x <= 0.5
    requires r as real - x == 0.5 || r as real - x == -0.5 ==> r % 2 == 0
    ensures Nearest(r, n, d)
  {
    hide Times;
    var gap, dr, units := r as real - x, d as real, r * d - n;
    TimesInt(r, d);
    TimesLaws(gap, x, 0.0, dr);
    assert Times(gap, dr) == units as real;
    TimesHalf(dr);
    TimesLaws(0.5 - gap, gap, 0.0, dr);
    TimesLaws(-0.5 - gap, gap, 0.0, dr);
    TimesSign(0.5 - gap, dr);
    TimesSign(-0.5 - gap, dr);
    assert (2 * units) as real == 2.0 * units as real;
  }

  lemma RoundRealIsRoundDiv(x: real, n: int, d: int)
    requires d > 0 && Times(x, d as real) == n as real
    ensures RoundReal(x) == RoundDiv(n, d)
  {
    hide RoundDiv, RoundReal, Times, Nearest;
    RoundRealNear(x);
    RealNearest(RoundReal(x), x, n, d);
    RoundDivNearest(n, d);
    NearestUnique(RoundReal(x), RoundDiv(n, d), n, d);
  }

  lemma DivideTimes(a: real, d: real)
    requires d > 0.0
    ensures Times(a / d, d) == a
  {}

  lemma LineMatchesRatio(a: Point, b: Point, temp: int)
    requires a.temp < b.temp
    ensures RoundReal(a.speed as real
                      + (temp - a.temp) as real / (b.temp - a.temp) as real * (b.speed - a.speed) as real)
            == OnLine(a, b, temp)
  {
    var ratio := (temp - a.temp) as real / (b.temp - a.temp) as real;
    var climb := b.speed - a.speed;
    assert ratio * climb as real == Times(ratio, climb as real);
    RatioRounds(a, b, temp, ratio);
  }

  lemma RatioRounds(a: Point, b: Point, temp: int, ratio: real)
    requires a.temp < b.temp
    requires ratio == (temp - a.temp) as real / (b.temp - a.temp) as real
    ensures RoundReal(a.speed as real + Times(ratio, (b.speed - a.speed) as real)) == OnLine(a, b, temp)
  {
    hide RoundDiv, RoundReal, Times;
    var d, off, climb := b.temp - a.temp, temp - a.temp, b.speed - a.speed;
    var dr, cr, ar := d as real, climb as real, a.speed as real;
    DivideTimes(off as real, dr);
    TimesLaws(ar, Times(ratio, cr), cr, dr);
    TimesLaws(ratio, 0.0, cr, dr);
    TimesInt(a.speed, d);
    TimesInt(off, climb);
    assert off * climb == climb * off;
    RoundRealIsRoundDiv(ar + Times(ratio, cr), a.speed * d + climb * off, d);
  }

  lemma {:induction false} InterpolateScans(points: seq<Point>, i: nat, temp: int)
    requires 1 <= i <= |points| && Rising(points)
    ensures InterpolateFrom(points, i, temp) == Scan(points[i-1..], temp)
    decreases |points| - i
  {
    var rest := points[i-1..];
    if i < |points| {
      if temp <= points[i].temp {
        LineMatchesRatio(points[i-1], points[i], temp);
      } else {
        assert rest[1..] == points[i..];
        InterpolateScans(points, i + 1, temp);
      }
    }
  }

  /** In exact arithmetic the two interpolations are one function, on every rising curve. */
  lemma InterpolationsAgree(points: seq<Point>, temp: int)
    requires |points| > 0 && Rising(points)
    ensures InterpolateCurve(points, temp) == CurveSpeed(points, temp)
  {
    assert points[0..] == points;
    if temp >= points[|points|-1].temp { ScanAbove(points, temp); }
    InterpolateScans(points, 1, temp);
  }
}
