/**
 * A whole session of the manual override: from admission over the watchdog's
 * polls to the restoration that ends it, with the commands it puts on the
 * hardware queue.  The clock is in milliseconds; sleeping takes at least the
 * time asked for.
 */
module FanWatchdog {
  import opened Wrappers
  import opened CommandQueue
  import opened FanFailSafe
  import opened FanRuns
  import opened FanCurve
  import FanService

  const MAX_TTL := 900
  const DEFAULT_TTL := 300
  const NAP := 2_000

  // ------------------------------------------------------------------- admission

  datatype Admission = Admitted(speed: int, ttl: int) | BadArgument | NoTemperature

  /** The checks made before a manual speed is written; a TTL of zero means the default. */
  function Preflight(speed: int, ttl: int, temp: Option<int>): (r: Admission)
    ensures r.Admitted? <==>
              && 0 <= speed <= 100 && 0 <= ttl <= 900
              && temp.Some? && 1_000 <= temp.value <= 150_000 && SafeFloor(temp.value) <= speed
              && (temp.value >= 95_000 ==> speed == 100) && (temp.value >= 90_000 ==> speed >= 80)
    ensures r.NoTemperature? <==>
              0 <= speed <= 100 && 0 <= ttl <= 900 && (temp.None? || temp.value < 1_000 || temp.value > 150_000)
    ensures r.Admitted? ==> r.speed == speed && r.ttl == if ttl == 0 then 300 else ttl
  {
    var lifetime := if ttl == 0 then DEFAULT_TTL else ttl;
    if !(0 <= speed <= 100) || !(1 <= lifetime <= MAX_TTL) then BadArgument
    else if temp.None? || !Plausible(temp.value) then NoTemperature
    else if temp.value >= 95_000 && speed < 100 then BadArgument
    else if temp.value >= 90_000 && speed < 80 then BadArgument
    else Admitted(speed, lifetime)
  }

  // ---------------------------------------------------- accepted speeds on the wire

  /** The speeds the controller has accepted, in order. */
  function Speeds(trace: seq<Completed>): (r: seq<int>) {
    if trace == [] then []
    else
      var c := trace[|trace| - 1];
      Speeds(trace[..|trace| - 1])
      + if c.item.call.FanSpeed? && c.result == Returned(true) then [c.item.call.speed] else []
  }

  lemma SpeedsAppend(trace: seq<Completed>, c: Completed)
    ensures Speeds(trace + [c]) ==
            Speeds(trace) + if c.item.call.FanSpeed? && c.result == Returned(true) then [c.item.call.speed] else []
  {
    assert (trace + [c])[..|trace|] == trace;
  }

  lemma {:induction false} SpeedsHarmless(short: seq<Completed>, long: seq<Completed>)
    requires short <= long && forall i | |short| <= i < |long| :: !long[i].item.call.FanSpeed?
    ensures Speeds(long) == Speeds(short)
    decreases |long|
  {
    if |short| < |long| {
      SpeedsHarmless(short, long[..|long| - 1]);
    } else {
      assert short == long;
    }
  }

  /** No fan command is running or waiting to run. */
  ghost predicate FanIdle(q: State) {
    var items := Items(q.enqueued);
    forall i | |q.trace| <= i < |items| :: items[i].call.OtherCall?
  }

  lemma MeanwhileSpeeds(q: State, t: State)
    requires Meanwhile(q, t) && FanIdle(q)
    ensures FanIdle(t) && Speeds(t.trace) == Speeds(q.trace)
  {
    TraceIsItems(t);
    hide Inv, Items, Speeds;
    var before, items := Items(q.enqueued), Items(t.enqueued);
    assert forall i | 0 <= i < |before| :: items[i] == before[i];
    assert forall i | |q.trace| <= i < |items| :: items[i].call.OtherCall?;
    SpeedsHarmless(q.trace, t.trace);
  }

  /** A fan call that returns or raises has run last and leaves nothing of the fan's outstanding. */
  lemma CallEnds(q: State, call: HwCall, w: Wait)
    requires Inv(q) && Quiet(q) && Foreign(w.before)
    requires var exit := RunCall(q, call, Some(FanAuto), COMMAND_TIMEOUT, w).1; exit.Value? || exit.Failure?
    ensures var (t, exit) := RunCall(q, call, Some(FanAuto), COMMAND_TIMEOUT, w);
            var locked := LockAcquired(q, w.before);
            && !LostWaiting(q, w) && FanIdle(t) && Done(t, |locked.trace|)
            && t.trace == locked.trace + [Completed(Item(|locked.trace|, call), t.futures[|locked.trace|])]
            && (exit.Value? ==> t.futures[|locked.trace|] == Returned(exit.truthy))
  {
    hide Inv, Items, RunCall, LockAcquired, Reserved;
    RunCallLeaves(q, call, Some(FanAuto), COMMAND_TIMEOUT, w);
    AdmittedLeaves(q, call, w);
    LockMeanwhile(q, w.before);
    var t := RunCall(q, call, Some(FanAuto), COMMAND_TIMEOUT, w).0;
    var locked := LockAcquired(q, w.before);
    DrainedOnAdmission(locked);
    TraceIsItems(t);
    ResultOnTrace(t, |locked.trace|);
    assert t.trace[..|locked.trace|] == locked.trace;
  }

  lemma ResultOnTrace(t: State, k: nat)
    requires Inv(t) && Done(t, k)
    ensures k < |t.trace| && t.trace[k].result == t.futures[k]
  {
    hide Items, Fifo, Numbered, Bounded, Marked;
  }

  lemma CallSpeeds(q: State, call: HwCall, w: Wait)
    requires Inv(q) && Quiet(q) && Foreign(w.before) && FanIdle(q)
    requires RunCall(q, call, Some(FanAuto), COMMAND_TIMEOUT, w).1.Value?
    ensures var (t, exit) := RunCall(q, call, Some(FanAuto), COMMAND_TIMEOUT, w);
            && FanIdle(t)
            && Speeds(t.trace) == Speeds(q.trace) + if call.FanSpeed? && exit == Value(true) then [call.speed] else []
  {
    hide Inv, Items, RunCall, LockAcquired, Speeds, FanIdle, Meanwhile;
    CallEnds(q, call, w);
    LockMeanwhile(q, w.before);
    var locked := LockAcquired(q, w.before);
    MeanwhileSpeeds(q, locked);
    var exit := RunCall(q, call, Some(FanAuto), COMMAND_TIMEOUT, w).1;
    SpeedsAppend(locked.trace, Completed(Item(|locked.trace|, call), Returned(exit.truthy)));
  }

  /** A poll after which the watchdog goes on has put on the wire exactly what it reports. */
  lemma PollSpeeds(f: Fan, target: int, k: Wake)
    requires Recorded(f) && FanIdle(f.q) && ForeignWake(k)
    ensures var (g, e) := PollWatchdog(f, target, k);
            && (e == Held ==> FanIdle(g.q) && Speeds(g.q.trace) == Speeds(f.q.trace)
                              && k.temp.Some? && SafeFloor(k.temp.value) <= target)
            && (e.Lifted? ==> FanIdle(g.q) && Speeds(g.q.trace) == Speeds(f.q.trace) + [e.speed]
                              && k.temp.Some? && e.speed == SafeFloor(k.temp.value) > target)
  {
    hide Inv, Items, RunCall, Speeds, FanIdle, RestoreFanAuto, Reserved;
    CommandQueueOnly(f, ReadTemp, k.read);
    var (g, exit) := RunFanCommand(f, ReadTemp, k.read);
    if exit.Value? {
      CallSpeeds(f.q, ReadTemp, k.read);
      CommandExact(f, ReadTemp, k.read);
      CommandQueueOnly(g, FanSpeed(SafeFloor(Reading(k))), k.write);
      if RunFanCommand(g, FanSpeed(SafeFloor(Reading(k))), k.write).1.Value? {
        CallSpeeds(g.q, FanSpeed(SafeFloor(Reading(k))), k.write);
      }
    }
  }

  // -------------------------------------------------------------------- a session

  /** One sleep of the watchdog: how much longer than asked it took, what the rest of the daemon did
      meanwhile, whether the task was cancelled in it, and the wake-up after it. */
  datatype Rest = Rest(late: nat, meanwhile: seq<Action>, cancelled: bool, wake: Wake)

  predicate ForeignRest(r: Rest) { Foreign(r.meanwhile) && ForeignWake(r.wake) }

  datatype Sample = Sample(temp: int, target: int)

  /** Clock, target shown in the snapshot, the fan layer, and what has happened so far. */
  datatype Watch = Watch(now: int, target: int, fan: Fan, writes: seq<int>, samples: seq<Sample>, naps: nat)

  /** How the session ended, its last state before that, and the fan layer after it. */
  datatype Ended = Ended(exit: WatchExit, at: Watch, fan: Fan)

  function Least(a: int, b: int): (r: int) { if a < b then a else b }

  function Reading(k: Wake): (r: int) { if k.temp.Some? then k.temp.value else 0 }

  /** The temperature is looked at every two seconds, and the deadline is not slept through. */
  function Sleep(w: Watch, deadline: int, r: Rest): (s: Watch)
    ensures deadline > w.now ==> w.now < s.now - r.late <= w.now + 2_000 && s.now - r.late <= deadline
  {
    w.(now := w.now + Least(NAP, deadline - w.now) + r.late, naps := w.naps + 1,
       fan := w.fan.(q := Exec(w.fan.q, r.meanwhile)))
  }

  /** The state after a poll that goes on. */
  function Note(w: Watch, g: Fan, e: WatchExit, k: Wake): (s: Watch) {
    if e.Lifted? then
      w.(fan := g, target := e.speed, writes := w.writes + [e.speed],
         samples := w.samples + [Sample(Reading(k), e.speed)])
    else w.(fan := g, samples := w.samples + [Sample(Reading(k), w.target)])
  }

  function Session(env: nat -> Rest, i: nat, deadline: int, w: Watch): (r: Ended)
    decreases if deadline > w.now then deadline - w.now else 0
  {
    if deadline <= w.now then
      var (g, e) := EndWatch(w.fan, Expired, env(i).wake.cleanup);
      Ended(e, w, g)
    else
      var slept := Sleep(w, deadline, env(i));
      if env(i).cancelled then Ended(Interrupted, slept, slept.fan)
      else
        var (g, e) := PollWatchdog(slept.fan, slept.target, env(i).wake);
        if e == Held || e.Lifted? then Session(env, i + 1, deadline, Note(slept, g, e, env(i).wake))
        else Ended(e, slept, g)
  }

  /** The watchdog as written: a loop on the remaining time, over the fan service. */
  method ManualFanExpiry(controller: FanService.FanController, env: nat -> Rest, now: int, ttl: nat, speed: int)
    returns (exit: WatchExit, target: int, writes: seq<int>)
    requires controller.Valid()
    modifies controller, controller.queue
    ensures controller.Valid()
    ensures var r := Session(env, 0, now + 1000 * ttl, Watch(now, speed, old(controller.View()), [], [], 0));
            controller.View() == r.fan && exit == r.exit && target == r.at.target && writes == r.at.writes
  {
    hide Exec, PollWatchdog, EndWatch;
    var deadline, clock, i := now + 1000 * ttl, now, 0;
    target, writes := speed, [];
    ghost var samples: seq<Sample> := [];
    ghost var naps := 0;
    ghost var start := Watch(now, speed, controller.View(), [], [], 0);
    while true
      invariant controller.Valid()
      invariant Session(env, 0, deadline, start) ==
                Session(env, i, deadline, Watch(clock, target, controller.View(), writes, samples, naps))
      decreases if deadline > clock then deadline - clock else 0
    {
      var remaining := deadline - clock;
      var rest := env(i);
      if remaining <= 0 {
        exit := controller.EndWatchdog(Expired, rest.wake.cleanup);
        return;
      }
      clock := clock + Least(NAP, remaining) + rest.late;
      controller.queue.PerformAll(rest.meanwhile);
      naps := naps + 1;
      if rest.cancelled {
        return Interrupted, target, writes;
      }
      exit := controller.Watchdog(target, rest.wake);
      if exit != Held && !exit.Lifted? {
        return;
      }
      if exit.Lifted? {
        target, writes := exit.speed, writes + [exit.speed];
      }
      samples := samples + [Sample(Reading(rest.wake), target)];
      i := i + 1;
    }
  }

  // ---------------------------------------------------------------- what is kept

  /** The last of some speeds, or `speed` before there is one. */
  function LastOf(speed: int, writes: seq<int>): (r: int) {
    if writes == [] then speed else writes[|writes| - 1]
  }

  /** The numbers of a session that began at `speed`. */
  predicate NeverFalls(speed: int, w: Watch) {
    && w.target == LastOf(speed, w.writes)
    && speed <= w.target && (speed <= 100 ==> w.target <= 100) && (|w.writes| > 0 ==> speed < w.writes[0])
    && (forall i :: 1 <= i < |w.writes| ==> w.writes[i-1] < w.writes[i])
    && (forall i :: 0 <= i < |w.samples| ==>
          SafeFloor(w.samples[i].temp) <= w.samples[i].target <= w.target && speed <= w.samples[i].target)
    && (forall i :: 1 <= i < |w.samples| ==> w.samples[i-1].target <= w.samples[i].target)
    && (|w.samples| > 0 ==> w.samples[|w.samples|-1].target == w.target)
    && |w.samples| <= w.naps
  }

  /** The fan layer meanwhile: the override is in force, nothing is pending, and beyond `base` the
      wire has carried exactly the session's writes. */
  ghost predicate InForce(base: seq<int>, w: Watch) {
    Recorded(w.fan) && Watching(w.fan) && FanIdle(w.fan.q) && Speeds(w.fan.q.trace) == base + w.writes
  }

  /** The wake-ups left before the deadline. */
  function NapsLeft(deadline: int, now: int): (r: nat) {
    if deadline <= now then 0 else (deadline - now + NAP - 1) / NAP
  }

  lemma SleepKeeps(speed: int, base: seq<int>, w: Watch, deadline: int, r: Rest)
    requires NeverFalls(speed, w) && InForce(base, w) && deadline > w.now && ForeignRest(r)
    ensures var s := Sleep(w, deadline, r);
            && NeverFalls(speed, s) && InForce(base, s) && |s.samples| < s.naps
            && NapsLeft(deadline, s.now) + 1 <= NapsLeft(deadline, w.now)
  {
    hide Exec, Speeds, FanIdle, Meanwhile, Inv, Items, Reserved;
    ExecMeanwhile(w.fan.q, r.meanwhile);
    FanMeanwhile(w.fan, Exec(w.fan.q, r.meanwhile));
    MeanwhileSpeeds(w.fan.q, Exec(w.fan.q, r.meanwhile));
  }

  lemma NoteNeverFalls(speed: int, w: Watch, g: Fan, e: WatchExit, k: Wake)
    requires NeverFalls(speed, w) && |w.samples| < w.naps
    requires e == Held ==> SafeFloor(Reading(k)) <= w.target
    requires e.Lifted? ==> e.speed == SafeFloor(Reading(k)) > w.target
    requires e == Held || e.Lifted?
    ensures NeverFalls(speed, Note(w, g, e, k))
  {}

  lemma PollKeeps(speed: int, base: seq<int>, w: Watch, k: Wake)
    requires NeverFalls(speed, w) && InForce(base, w) && |w.samples| < w.naps && ForeignWake(k)
    ensures var (g, e) := PollWatchdog(w.fan, w.target, k);
            && (e == Held || e.Lifted? ==> NeverFalls(speed, Note(w, g, e, k)) && InForce(base, Note(w, g, e, k)))
            && (e in {BadTemperature, WriteRefused, Crashed} ==> Accounted(g) && g.control == Nobody)
            && (e in {Closing, Interrupted} ==> g.control == Override)
            && e != Expired
  {
    hide PollWatchdog, Speeds, FanIdle, Sound, Reserved, StockAuto, NeverFalls, WatchAdopts;
    PollSpeeds(w.fan, w.target, k);
    WatchdogExact(w.fan, w.target, k);
    PollExits(w.fan, w.target, k);
    var (g, e) := PollWatchdog(w.fan, w.target, k);
    if e == Held || e.Lifted? {
      NoteNeverFalls(speed, w, g, e, k);
    }
  }

  lemma PollExits(f: Fan, target: int, k: Wake)
    ensures PollWatchdog(f, target, k).1 != Expired
  {
    hide RunFanCommand, RestoreFanAuto;
  }

  /**
   * From any point of a session, whatever the hardware, the clock and the other
   * tasks do: the speeds on the wire only rise, each poll meets the floor of the
   * temperature it read, the wake-ups are bounded by the remaining time, and the
   * session ends in confirmed stock auto, a queued restoration or an error on
   * record, unless by shutdown or cancellation, which leave the override to the
   * clean-up that follows them.
   */
  lemma {:induction false} SessionSafe(env: nat -> Rest, i: nat, deadline: int, w: Watch, speed: int, base: seq<int>)
    requires NeverFalls(speed, w) && InForce(base, w) && forall n :: ForeignRest(env(n))
    ensures var r := Session(env, i, deadline, w);
            && NeverFalls(speed, r.at) && InForce(base, r.at)
            && r.at.naps <= w.naps + NapsLeft(deadline, w.now)
            && (if r.exit in {Expired, BadTemperature, WriteRefused, Crashed} then
                  Accounted(r.fan) && r.fan.control == Nobody
                else r.exit in {Closing, Interrupted} && r.fan.control == Override)
            && (r.exit == Expired ==> deadline <= r.at.now)
    decreases if deadline > w.now then deadline - w.now else 0
  {
    hide NeverFalls, InForce, PollWatchdog, EndWatch, Accounted;
    if deadline <= w.now {
      InForceRecorded(base, w);
      EndWatchRecorded(w.fan, Expired, env(i).wake.cleanup) by { assert ForeignRest(env(i)); }
    } else {
      var slept := Sleep(w, deadline, env(i));
      SleepKeeps(speed, base, w, deadline, env(i));
      InForceRecorded(base, slept);
      PollKeeps(speed, base, slept, env(i).wake);
      var (g, e) := PollWatchdog(slept.fan, slept.target, env(i).wake);
      if !env(i).cancelled && (e == Held || e.Lifted?) {
        SessionSafe(env, i + 1, deadline, Note(slept, g, e, env(i).wake), speed, base);
      }
    }
  }

  lemma InForceRecorded(base: seq<int>, w: Watch)
    requires InForce(base, w)
    ensures Recorded(w.fan) && w.fan.control == Override
  {}

  /** A manual speed that was applied is the last one on the wire. */
  lemma AppliedSpeed(f: Fan, speed: int, w: ManualWait)
    requires Recorded(f) && ForeignManual(w) && ApplyManualSpeed(f, speed, w).1 == Applied
    ensures var g := ApplyManualSpeed(f, speed, w).0;
            && Recorded(g) && g.restoring.None? && FanIdle(g.q)
            && Speeds(g.q.trace) != [] && LastOf(0, Speeds(g.q.trace)) == speed
  {
    hide Inv, Items, RunCall, Speeds, FanIdle, Reserved, AfterCommand, CommandLost, LockAcquired;
    CommandExact(f, FanManual, w.mode);
    var g := RunFanCommand(f, FanManual, w.mode).0;
    CommandExact(g, FanSpeed(speed), w.speed) by { AppliedNotLost(f, speed, w); }
    AppliedNotLost(f, speed, w);
    CommandQueueOnly(g, FanSpeed(speed), w.speed);
    CallEnds(g.q, FanSpeed(speed), w.speed);
    var locked := LockAcquired(g.q, w.speed.before);
    SpeedsAppend(locked.trace, Completed(Item(|locked.trace|, FanSpeed(speed)), Returned(true)));
  }

  lemma AppliedNotLost(f: Fan, speed: int, w: ManualWait)
    requires Recorded(f) && ForeignManual(w) && ApplyManualSpeed(f, speed, w).1 == Applied
    ensures var (g, mode) := RunFanCommand(f, FanManual, w.mode);
            && mode == Value(true) && !CommandLost(f, w.mode) && !CommandLost(g, w.speed)
            && RunFanCommand(g, FanSpeed(speed), w.speed).1 == Value(true)
            && ApplyManualSpeed(f, speed, w).0 == RunFanCommand(g, FanSpeed(speed), w.speed).0
  {
    hide Sound, RunFanCommand, Reserved, StockAuto, CommandLost, AfterLost, RestoreFanAuto;
    ApplyExact(f, speed, w);
  }

  /**
   * Every override that `set_fan_manual` admits and starts, for its whole life:
   * the speed the controller holds is at least the requested one and only rises,
   * it is 100 from 95 degrees and at least 80 from 90 degrees after every
   * successful poll, there are at most 450 wake-ups, and every end but shutdown
   * and cancellation accounts for stock auto.
   */
  lemma ManualSessionSafe(f: Fan, speed: int, ttl: int, temp: Option<int>, w: ManualWait, fallback: FanWait,
                          env: nat -> Rest, now: int)
    requires Recorded(f) && ForeignManual(w) && forall n :: ForeignRest(env(n))
    requires Preflight(speed, ttl, temp).Admitted? && SetFanManual(f, speed, w, true, fallback).1 == Success
    ensures var g := SetFanManual(f, speed, w, true, fallback).0;
            var r := Session(env, 0, now + 1000 * Preflight(speed, ttl, temp).ttl, Watch(now, speed, g, [], [], 0));
            && SafeFloor(temp.value) <= speed <= r.at.target
            && LastOf(0, Speeds(g.q.trace)) == speed
            && Speeds(r.at.fan.q.trace) == Speeds(g.q.trace) + r.at.writes
            && r.at.target == LastOf(0, Speeds(r.at.fan.q.trace))
            && (forall i :: 1 <= i < |r.at.writes| ==> r.at.writes[i-1] < r.at.writes[i])
            && (forall i :: 0 <= i < |r.at.samples| ==>
                  && (r.at.samples[i].temp >= 95_000 ==> r.at.samples[i].target == 100)
                  && (r.at.samples[i].temp >= 90_000 ==> r.at.samples[i].target >= 80)
                  && r.at.samples[i].target >= speed)
            && r.at.naps <= 450
            && (r.exit in {Expired, BadTemperature, WriteRefused, Crashed, Closing, Interrupted})
            && (r.exit != Closing && r.exit != Interrupted ==> Accounted(r.fan) && r.fan.control == Nobody)
  {
    hide Session, Speeds, FanIdle, Sound, Reserved, StockAuto, ApplyManualSpeed, RestoreFanAuto;
    var a := ApplyManualSpeed(f, speed, w).0;
    AppliedSpeed(f, speed, w);
    var g := SetFanManual(f, speed, w, true, fallback).0;
    SameRecord(a, g);
    var start := Watch(now, speed, g, [], [], 0);
    var base := Speeds(g.q.trace);
    assert base + [] == base;
    SessionSafe(env, 0, now + 1000 * Preflight(speed, ttl, temp).ttl, start, speed, base);
  }
}
