/**
 * The curve loop as a controller: which speed it settles on, when it writes, and
 * when it gives up.  What the hardware and the other use cases do is an input of
 * each wake-up; what its commands put on the queue is the fan layer's business.
 */
module FanControllers {
  import opened Wrappers
  import opened FanCurve
  import FanCurveText

  /** What the embedded controller is doing. */
  datatype Ec = Auto | Fixed(speed: int) | Unknown

  const HYSTERESIS := 3

  function Abs(x: int): (r: int) { if x < 0 then -x else x }

  // ------------------------------------------------------------------ curve loop

  /** How one attempt to put a speed into effect ends; a failure says where it left the EC. */
  datatype WriteReply = Accepted | Failed(after: Ec)

  /** One wake-up of the curve loop, with everything it will observe. */
  datatype Tick =
    | Skip(ec: Ec)                     // not this loop's turn: another mode, the watchdog, fail-safe, no capability
    | Overtaken(ec: Ec)                // the mode changed while the mutation lock was awaited
    | NoCurve                          // no text, or an empty one, for the active profile
    | Poll(temp: Option<int>, curve: string, write: WriteReply, restored: Ec)  // and where a give-up would leave the EC

  datatype Controller = Controller(
    last: Option<int>,
    failures: nat,
    ec: Ec,
    writes: seq<int>,
    stopped: bool)

  const FRESH := Controller(None, 0, Auto, [], false)

  /** The target of a poll, if it gets as far as having one. */
  function Aim(temp: Option<int>, curve: string): (r: Option<int>) {
    if temp.None? || !Plausible(temp.value) then None
    else
      var points := FanCurveText.Parsed(curve);
      if points.None? then None else Some(Target(points.value, temp.value))
  }

  /** The speed the loop settles on: the target, or the last speed when the target is close to it. */
  function Choose(last: Option<int>, target: int): (r: int) {
    if last.Some? && Abs(target - last.value) < HYSTERESIS then last.value else target
  }

  /** A failed poll; the third restores stock auto, persists stock mode and ends the loop. */
  function Failure(c: Controller, ec: Ec, restored: Ec): (r: Controller) {
    if c.failures + 1 >= 3 then
      c.(failures := c.failures + 1, ec := restored, stopped := true)
    else
      c.(failures := c.failures + 1, ec := ec)
  }

  function Step(c: Controller, t: Tick): (r: Controller) {
    if c.stopped then c
    else
      match t
      case Skip(ec) => c.(last := None, ec := ec)
      case Overtaken(ec) => c.(ec := ec)
      case NoCurve => c
      case Poll(temp, curve, write, restored) =>
        var aim := Aim(temp, curve);
        if aim.None? then Failure(c, c.ec, restored)
        else
          var speed := Choose(c.last, aim.value);
          if c.last == Some(speed) then c.(failures := 0)
          else if write.Accepted? then
            c.(last := Some(speed), failures := 0, ec := Fixed(speed), writes := c.writes + [speed])
          else Failure(c, write.after, restored)
  }

  function Run(c: Controller, ticks: seq<Tick>): (r: Controller) {
    if ticks == [] then c else Step(Run(c, ticks[..|ticks|-1]), ticks[|ticks|-1])
  }

  /** Read the sensor and the curve text; nothing when either is unusable. */
  method ReadAim(temp: Option<int>, curve: string) returns (aim: Option<int>)
    ensures aim == Aim(temp, curve)
  {
    hide FanCurveText.RawPoints, FanCurveText.Split, CurveSpeed;
    if temp.None? || !Plausible(temp.value) {
      return None;
    }
    var points := FanCurveText.ParseCurve(curve);
    if points.Err? {
      return None;
    }
    aim := Some(if temp.value >= HIGH_TEMP then 100 else CurveSpeed(points.value, temp.value));
  }

  /** The poll fails in state c: sensor or curve text unusable, or a write that was needed is refused. */
  predicate FailsAt(c: Controller, t: Tick) {
    t.Poll? &&
    var aim := Aim(t.temp, t.curve);
    aim.None? || (c.last != Some(Choose(c.last, aim.value)) && t.write.Failed?)
  }

  /** No poll of the run succeeds. */
  predicate Fruitless(c: Controller, ticks: seq<Tick>) {
    ticks != [] ==>
      var n := |ticks| - 1;
      Fruitless(c, ticks[..n]) && (ticks[n].Poll? ==> FailsAt(Run(c, ticks[..n]), ticks[n]))
  }

  function Polls(ticks: seq<Tick>): (r: nat) {
    if ticks == [] then 0 else Polls(ticks[..|ticks|-1]) + if ticks[|ticks|-1].Poll? then 1 else 0
  }

  /** Skipped wake-ups neither count nor clear the count: the loop gives up at exactly the third failed
      poll, and any poll that does not fail clears the count. */
  lemma {:induction false} ThreeStrikes(c: Controller, ticks: seq<Tick>, good: Tick)
    requires !c.stopped && c.failures < 3 && Fruitless(c, ticks)
    ensures Run(c, ticks).stopped <==> c.failures + Polls(ticks) >= 3
    ensures !Run(c, ticks).stopped ==> Run(c, ticks).failures == c.failures + Polls(ticks)
    ensures Run(c, ticks).writes == c.writes
    ensures !Run(c, ticks).stopped && good.Poll? && !FailsAt(Run(c, ticks), good) ==>
              Step(Run(c, ticks), good).failures == 0 && !Step(Run(c, ticks), good).stopped
  {
    hide Aim, Choose;
    if ticks != [] { ThreeStrikes(c, ticks[..|ticks|-1], good); }
  }

  /** No write is refused or times out, and nobody else touches the fan. */
  predicate Clean(t: Tick) { t.NoCurve? || (t.Poll? && t.write.Accepted?) }

  /** Consecutive speeds are at least the hysteresis apart. */
  predicate Apart(writes: seq<int>) {
    forall i :: 1 <= i < |writes| ==> Abs(writes[i] - writes[i-1]) >= HYSTERESIS
  }

  predicate Percentages(writes: seq<int>) {
    forall i :: 0 <= i < |writes| ==> 0 <= writes[i] <= 100
  }

  predicate InStep(c: Controller) {
    && Apart(c.writes) && Percentages(c.writes)
    && (c.last.None? ==> c.writes == [])
    && (c.last.Some? ==> |c.writes| > 0 && c.writes[|c.writes|-1] == c.last.value)
    && (c.last.Some? && !c.stopped ==> c.ec == Fixed(c.last.value))
  }

  lemma AimIsPercentage(temp: Option<int>, curve: string)
    requires Aim(temp, curve).Some?
    ensures 0 <= Aim(temp, curve).value <= 100
    ensures temp.Some? && (temp.value >= HIGH_TEMP ==> Aim(temp, curve).value == 100)
  {
    var points := FanCurveText.Parsed(curve).value;
    assert InRange(points[0]);
    TargetMonotone(points, temp.value, temp.value);
  }

  lemma StepInStep(c: Controller, t: Tick)
    requires InStep(c) && Clean(t)
    ensures InStep(Step(c, t))
  {
    hide Aim;
    if t.Poll? && Aim(t.temp, t.curve).Some? { AimIsPercentage(t.temp, t.curve); }
  }

  /**
   * Without refused writes or interference, from any state that is in step: the EC
   * holds the last written speed, consecutive writes differ by at least 3 points,
   * and right after a poll that had a target the EC is within 2 points of it, so at
   * least 98 when hot.
   */
  lemma {:induction false} CleanRunsTrack(start: Controller, ticks: seq<Tick>)
    requires InStep(start) && forall i :: 0 <= i < |ticks| ==> Clean(ticks[i])
    ensures InStep(Run(start, ticks))
    ensures
      var c := Run(start, ticks);
      !c.stopped && |ticks| > 0 && ticks[|ticks|-1].Poll? ==> OnTarget(c, ticks[|ticks|-1].temp, ticks[|ticks|-1].curve)
  {
    hide Aim;
    if ticks != [] {
      var n := |ticks| - 1;
      CleanRunsTrack(start, ticks[..n]);
      var c, t := Run(start, ticks[..n]), ticks[n];
      StepInStep(c, t);
      if t.Poll? && Aim(t.temp, t.curve).Some? {
        AimIsPercentage(t.temp, t.curve);
        assert Percentages(Run(start, ticks).writes);
      }
    }
  }

  /** The EC is within the hysteresis of the target, if there is one. */
  predicate OnTarget(c: Controller, temp: Option<int>, curve: string) {
    Aim(temp, curve).Some? ==>
      && c.ec.Fixed? && c.failures == 0
      && Abs(c.ec.speed - Aim(temp, curve).value) < HYSTERESIS
      && (temp.Some? && temp.value >= HIGH_TEMP ==> 98 <= c.ec.speed <= 100)
  }

  /**
   * A poll whose write, if it makes one, is accepted, from any state of the loop:
   * it counts as a success, and afterwards the controller holds the speed the loop
   * believes exactly when it did before, or the loop had no belief, or the target
   * is far enough from that belief to be written.
   */
  lemma StaleIff(c: Controller, t: Tick)
    requires !c.stopped && t.Poll? && t.write.Accepted? && Aim(t.temp, t.curve).Some?
    ensures var s := Step(c, t); var aim := Aim(t.temp, t.curve).value;
            && s.failures == 0 && !s.stopped && s.last.Some?
            && (s.ec == Fixed(s.last.value) <==>
                  c.last.None? || c.ec == Fixed(c.last.value) || Abs(aim - c.last.value) >= 3)
            && (s.writes == c.writes <==> c.last.Some? && Abs(aim - c.last.value) < 3)
  {
    hide Aim;
    var v := Aim(t.temp, t.curve).value;
    assert |c.writes + [v]| != |c.writes|;
  }

  /** A curve with a text, for concrete runs. */
  const RAMP := [Point(40_000, 20), Point(90_000, 100)]

  function RampText(): (r: string)
    ensures FanCurveText.Parsed(r) == Some(RAMP)
  {
    FanCurveText.FormatThenParse(RAMP);
    FanCurveText.FormatCurve(RAMP)
  }

  lemma RampAims()
    ensures Aim(Some(40_000), RampText()) == Some(20) && Aim(Some(90_000), RampText()) == Some(100)
  {
    KnotsExact(RAMP, 0);
    KnotsExact(RAMP, 1);
  }
}
