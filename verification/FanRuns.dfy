/** Whole runs of the fan layer: the manual override, its watchdog's polls, the curve loop's polls,
clean-ups, the stock-auto request, and everything else the daemon does meanwhile. The record is
honest throughout a run exactly when no schedule in it loses a command or a clean-up. */
module FanRuns {
  import opened Wrappers
  import opened CommandQueue
  import opened FanFailSafe
  import opened FanCurve

  // -- The use cases and loops ------------------------------------------------------------------

  datatype Code = Success | WatchdogFailed | RestorePending | RestoreFailed | ManualFailed | Raises

  /** The use case `set_fan_manual` from the first hardware write on, with its result code. */
  function SetFanManual(f: Fan, speed: int, w: ManualWait, watchdogStarts: bool, fallback: FanWait): (Fan, Code) {
    var (g, exit) := ApplyManualSpeed(f, speed, w);
    match exit
    case Applied =>
      if watchdogStarts then (g.(error := false, control := Override), Success)
      else
        var (h, r) := RestoreFanAuto(g.(error := false), fallback);
        (h.(control := Nobody), if r.RestoreCancelled? then Raises else WatchdogFailed)
    case CancelRaised => (g.(control := Nobody), Raises)
    case CancelledInHandler => (g.(control := Nobody), Raises)
    case _ =>
      (g.(control := Nobody),
       if g.restoring.Some? then RestorePending else if g.error then RestoreFailed else ManualFailed)
  }

  /** One wake-up of the watchdog of a manual override, with the temperature a read returns. */
  datatype Wake = Wake(closing: bool, read: Wait, temp: Option<int>, write: Wait, cleanup: FanWait)

  datatype WatchExit =
    | Held                      // goes on
    | Lifted(speed: int)        // goes on at a higher speed
    | Expired
    | Closing
    | Interrupted               // the task is cancelled; the supervisor's clean-up follows
    | BadTemperature
    | WriteRefused
    | Crashed

  /** The watchdog ends by restoring stock auto, unless it is cancelled meanwhile. */
  function EndWatch(f: Fan, exit: WatchExit, w: FanWait): (Fan, WatchExit) {
    var (g, r) := RestoreFanAuto(f, w);
    if r.RestoreCancelled? then (g, Interrupted) else (g.(control := Nobody), exit)
  }

  /** One pass of `_manual_fan_expiry` after its sleep. */
  function PollWatchdog(f: Fan, target: int, k: Wake): (Fan, WatchExit) {
    if k.closing then (f, Closing)
    else
      var (g, exit) := RunFanCommand(f, ReadTemp, k.read);
      match exit
      case Value(_) =>
        if k.temp.None? || !Plausible(k.temp.value) then EndWatch(g, BadTemperature, k.cleanup)
        else if SafeFloor(k.temp.value) > target then LiftSpeed(g, SafeFloor(k.temp.value), k)
        else (g, Held)
      case Cancelled => (g, Interrupted)
      case _ => EndWatch(g, Crashed, k.cleanup)
  }

  function LiftSpeed(f: Fan, floor: int, k: Wake): (Fan, WatchExit) {
    var (g, written) := RunFanCommand(f, FanSpeed(floor), k.write);
    match written
    case Value(ok) => if ok then (g, Lifted(floor)) else EndWatch(g, WriteRefused, k.cleanup)
    case Cancelled => (g, Interrupted)
    case _ => EndWatch(g, Crashed, k.cleanup)
  }

  /** One wake-up of the curve loop: whether sensor and curve text are usable, the speed to write if
      one is, and whether this would be the third failure in a row. */
  datatype CurveWake = CurveWake(read: Wait, usable: bool, speed: Option<int>, apply: ManualWait, third: bool,
      cleanup: FanWait)

  datatype CurveExit =
    | PassedOver              // not its turn
    | Kept                    // nothing to write
    | Wrote
    | Failed
    | GaveUp                  // the third failure
    | Cut                     // the task is cancelled; the supervisor's clean-up follows

  /** A failed poll of `_fan_curve_loop`: the third disables the curve. */
  function FailCurve(f: Fan, t: CurveWake): (Fan, CurveExit) {
    if !t.third then (f, Failed)
    else
      var (g, r) := RestoreFanAuto(f, t.cleanup);
      if r.RestoreCancelled? then (g, CurveExit.Cut) else (g.(error := true, control := Nobody), GaveUp)
  }

  /** One pass of `_fan_curve_loop`, in curve mode. */
  function PollCurve(f: Fan, t: CurveWake): (Fan, CurveExit) {
    if f.control.Override? || f.error || f.restoring.Some? then (f, PassedOver)
    else
      var (g, exit) := RunFanCommand(f, ReadTemp, t.read);
      match exit
      case Cancelled => (g, CurveExit.Cut)
      case Value(_) =>
        if !t.usable then FailCurve(g, t)
        else if t.speed.None? then (g, Kept)
        else WriteCurve(g, t.speed.value, t)
      case _ => FailCurve(g, t)
  }

  function WriteCurve(f: Fan, speed: int, t: CurveWake): (Fan, CurveExit) {
    var (g, applied) := ApplyManualSpeed(f, speed, t.apply);
    match applied
    case Applied => (g.(error := false, control := Curve), Wrote)
    case CancelRaised => (g.(control := Nobody), CurveExit.Cut)
    case CancelledInHandler => (g.(control := Nobody), CurveExit.Cut)
    case _ => FailCurve(g.(control := Nobody), t)
  }

  /** `set_fan_stock_auto`: a plain request, and the clean-up of a watchdog that was running. */
  function RequestStock(f: Fan, w: Wait, stop: Option<FanWait>): (Fan, bool) {
    var (q, exit) := RunCall(f.q, FanAuto, None, COMMAND_TIMEOUT, w);
    var g := CompleteRecovery(f.(q := q));
    if exit != Value(true) then (g, false)
    else
      var h := if stop.Some? then RestoreFanAuto(g.(error := false), stop.value).0 else g;
      (h.(error := false, control := Nobody), true)
  }

  // -- Runs ---------------------------------------------------------------------------------------

  datatype Op =
    | Environment(actions: seq<Action>)   // other tasks, the worker and the loop
    | RecoveryTask                        // the recovery task sees its future done
    | SetManual(speed: int, w: ManualWait, watchdogStarts: bool, fallback: FanWait)
    | WatchdogPoll(target: int, k: Wake)
    | CurvePoll(t: CurveWake)
    | Cleanup(c: FanWait)                 // the supervisor's, the expiry's or the one at start-up
    | StockRequest(request: Wait, stop: Option<FanWait>)

  /** A watchdog runs while its override is in force and nothing awaits a recovery. */
  predicate Watching(f: Fan) {
    f.control.Override? && f.restoring.None?
  }

  function FanStep(f: Fan, op: Op): Fan {
    match op
    case Environment(actions) => f.(q := Exec(f.q, actions))
    case RecoveryTask => CompleteRecovery(f)
    case SetManual(speed, w, watchdogStarts, fallback) => SetFanManual(f, speed, w, watchdogStarts, fallback).0
    case WatchdogPoll(target, k) => if Watching(f) then PollWatchdog(f, target, k).0 else f
    case CurvePoll(t) => PollCurve(f, t).0
    case Cleanup(c) => RestoreFanAuto(f, c).0.(control := Nobody)
    case StockRequest(request, stop) => RequestStock(f, request, stop).0
  }

  function FanRun(f: Fan, ops: seq<Op>): Fan
    decreases |ops|
  {
    if ops == [] then f else FanRun(FanStep(f, ops[0]), ops[1..])
  }

  predicate ForeignCurve(t: CurveWake) {
    Foreign(t.read.before) && ForeignManual(t.apply) && ForeignWait(t.cleanup)
  }

  predicate ForeignWake(k: Wake) {
    Foreign(k.read.before) && Foreign(k.write.before) && ForeignWait(k.cleanup)
  }

  /** The rest of the daemon keeps away from the fan. */
  predicate ForeignOp(op: Op) {
    match op
    case Environment(actions) => Foreign(actions)
    case RecoveryTask => true
    case SetManual(_, w, _, fallback) => ForeignManual(w) && ForeignWait(fallback)
    case WatchdogPoll(_, k) => ForeignWake(k)
    case CurvePoll(t) => ForeignCurve(t)
    case Cleanup(c) => ForeignWait(c)
    case StockRequest(request, stop) => Foreign(request.before) && (stop.Some? ==> ForeignWait(stop.value))
  }

  predicate ForeignOps(ops: seq<Op>) {
    forall i | 0 <= i < |ops| :: ForeignOp(ops[i])
  }

  /** With nobody in control, nothing pending and nothing on record, the controller is in stock auto. */
  ghost predicate Honest(f: Fan) {
    Recorded(f) && (f.control != Nobody || Accounted(f))
  }

  // -- What a schedule can lose -------------------------------------------------------------------

  /** One of the two commands of a manual-speed sequence is lost waiting. */
  ghost predicate SequenceAdopts(f: Fan, speed: int, w: ManualWait) {
    || CommandLost(f, w.mode)
    || (RunFanCommand(f, FanManual, w.mode).1 == Value(true)
        && CommandLost(RunFanCommand(f, FanManual, w.mode).0, w.speed))
  }

  ghost predicate WatchAdopts(f: Fan, target: int, k: Wake) {
    && !k.closing
    && (|| CommandLost(f, k.read)
        || (&& RunFanCommand(f, ReadTemp, k.read).1.Value?
            && k.temp.Some? && Plausible(k.temp.value) && SafeFloor(k.temp.value) > target
            && CommandLost(RunFanCommand(f, ReadTemp, k.read).0, k.write)))
  }

  ghost predicate CurveAdopts(f: Fan, t: CurveWake) {
    && !f.control.Override? && !f.error && f.restoring.None?
    && (|| CommandLost(f, t.read)
        || (&& RunFanCommand(f, ReadTemp, t.read).1.Value? && t.usable && t.speed.Some?
            && SequenceAdopts(RunFanCommand(f, ReadTemp, t.read).0, t.speed.value, t.apply)))
  }

  /** In this operation a foreign poison is taken for a pending stock-auto request. */
  ghost predicate Adopts(f: Fan, op: Op) {
    match op
    case SetManual(speed, w, _, _) => SequenceAdopts(f, speed, w)
    case WatchdogPoll(target, k) => Watching(f) && WatchAdopts(f, target, k)
    case CurvePoll(t) => CurveAdopts(f, t)
    case _ => false
  }

  /** The write of a curve poll is lost, in a command or in its exception handler. */
  ghost predicate CurveDrops(f: Fan, t: CurveWake) {
    && !f.control.Override? && !f.error && f.restoring.None?
    && RunFanCommand(f, ReadTemp, t.read).1.Value? && t.usable && t.speed.Some?
    && ApplyLost(RunFanCommand(f, ReadTemp, t.read).0, t.speed.value, t.apply)
  }

  /** In this operation a last restoration is cancelled to no effect. */
  ghost predicate Drops(f: Fan, op: Op) {
    match op
    case SetManual(speed, w, watchdogStarts, fallback) =>
      var (g, exit) := ApplyManualSpeed(f, speed, w);
      if exit == Applied then !watchdogStarts && RestoreLost(g.(error := false), fallback)
      else ApplyLost(f, speed, w)
    case CurvePoll(t) => CurveDrops(f, t)
    case Cleanup(c) => RestoreLost(f, c)
    case _ => false
  }

  ghost predicate Lossy(f: Fan, op: Op) {
    Adopts(f, op) || Drops(f, op)
  }

  // -- Step by step -------------------------------------------------------------------------------

  lemma SameRecord(f: Fan, g: Fan)
    requires f.q == g.q && f.restoring == g.restoring
    ensures Recorded(f) == Recorded(g)
    ensures f.error == g.error || f.restoring.Some? ==> Accounted(f) == Accounted(g)
  {
  }

  lemma SequenceRecordedIff(f: Fan, speed: int, w: ManualWait)
    requires Recorded(f) && ForeignManual(w)
    ensures Recorded(ApplyManualSpeed(f, speed, w).0) <==> !SequenceAdopts(f, speed, w)
    ensures SequenceAdopts(f, speed, w) ==> ApplyLost(f, speed, w) && ApplyManualSpeed(f, speed, w).1 == CancelRaised
  {
    hide Sound, Reserved, StockAuto, RunFanCommand, AfterCommand, AfterLost, CommandLost;
    CommandExact(f, FanManual, w.mode);
    var (g, mode) := RunFanCommand(f, FanManual, w.mode);
    if CommandLost(f, w.mode) {
      LostStaysLost(g, w);
    } else if mode != Value(true) {
      AfterCommandExact(g, mode, w);
    } else {
      CommandExact(g, FanSpeed(speed), w.speed);
      var (h, written) := RunFanCommand(g, FanSpeed(speed), w.speed);
      if CommandLost(g, w.speed) {
        LostStaysLost(h, w);
      } else if written != Value(true) {
        AfterCommandExact(h, written, w);
      }
    }
  }

  /** `set_fan_manual` keeps the record exactly when its schedule loses nothing, and answers plain
      failure only in stock auto. */
  lemma SetManualHonestIff(f: Fan, op: Op)
    requires Recorded(f) && op.SetManual? && ForeignOp(op)
    ensures Honest(FanStep(f, op)) <==> !Lossy(f, op)
    ensures Recorded(FanStep(f, op)) <==> !Adopts(f, op)
    ensures SetFanManual(f, op.speed, op.w, op.watchdogStarts, op.fallback).1 == ManualFailed ==>
            StockAuto(FanStep(f, op).q)
  {
    hide Sound, Reserved, StockAuto, ApplyManualSpeed, RestoreFanAuto, RestoreLost, ApplyLost, SequenceAdopts;
    ApplyExact(f, op.speed, op.w);
    SequenceRecordedIff(f, op.speed, op.w);
    var (g, exit) := ApplyManualSpeed(f, op.speed, op.w);
    SameRecord(g, g.(control := Nobody));
    SameRecord(g, g.(error := false));
    SameRecord(g, g.(error := false, control := Override));
    if exit == Applied {
      RestoreExact(g.(error := false), op.fallback);
      var h := RestoreFanAuto(g.(error := false), op.fallback).0;
      SameRecord(h, h.(control := Nobody));
    }
  }

  lemma EndWatchRecorded(f: Fan, exit: WatchExit, w: FanWait)
    requires Recorded(f) && ForeignWait(w) && exit != Interrupted
    ensures var (g, e) := EndWatch(f, exit, w);
            && Recorded(g) && (e == Interrupted ==> g.control == f.control)
            && (e != Interrupted ==> e == exit && Accounted(g) && g.control == Nobody)
  {
    hide Sound, Reserved, StockAuto, RestoreFanAuto, RestoreLost;
    RestoreExact(f, w);
    var g := RestoreFanAuto(f, w).0;
    SameRecord(g, g.(control := Nobody));
  }

  /** A poll that ends the watchdog, other than by shutdown or cancellation, has restored stock auto
      or left that on record. */
  lemma WatchdogExact(f: Fan, target: int, k: Wake)
    requires Recorded(f) && f.control.Override? && f.restoring.None? && ForeignWake(k)
    ensures var (g, e) := PollWatchdog(f, target, k);
            && (Recorded(g) <==> !WatchAdopts(f, target, k))
            && (WatchAdopts(f, target, k) ==> e == Interrupted)
            && (if e in {BadTemperature, WriteRefused, Crashed} then g.control == Nobody && Accounted(g)
                else g.control == Override)
            && (e == Held || e.Lifted? ==> g.restoring.None?)
  {
    hide Sound, Reserved, StockAuto, RunFanCommand, CommandLost, EndWatch;
    CommandExact(f, ReadTemp, k.read);
    var (g, exit) := RunFanCommand(f, ReadTemp, k.read);
    if !k.closing && !CommandLost(f, k.read) {
      EndWatchRecorded(g, BadTemperature, k.cleanup);
      EndWatchRecorded(g, Crashed, k.cleanup);
      if exit.Value? && k.temp.Some? && Plausible(k.temp.value) {
        LiftExact(g, SafeFloor(k.temp.value), k);
      }
    }
  }

  lemma LiftExact(f: Fan, floor: int, k: Wake)
    requires Recorded(f) && f.control.Override? && f.restoring.None? && ForeignWake(k)
    ensures var (g, e) := LiftSpeed(f, floor, k);
            && (Recorded(g) <==> !CommandLost(f, k.write))
            && (CommandLost(f, k.write) ==> e == Interrupted)
            && (if e in {WriteRefused, Crashed} then g.control == Nobody && Accounted(g)
                else g.control == Override && (e == Interrupted || e == Lifted(floor)))
            && (e.Lifted? ==> g.restoring.None?)
  {
    hide Sound, Reserved, StockAuto, RunFanCommand, CommandLost, EndWatch;
    CommandExact(f, FanSpeed(floor), k.write);
    var (g, written) := RunFanCommand(f, FanSpeed(floor), k.write);
    if !CommandLost(f, k.write) {
      EndWatchRecorded(g, WriteRefused, k.cleanup);
      EndWatchRecorded(g, Crashed, k.cleanup);
    }
  }

  lemma FailCurveHonest(f: Fan, t: CurveWake)
    requires Honest(f) && ForeignCurve(t)
    ensures Honest(FailCurve(f, t).0)
  {
    hide Sound, Reserved, StockAuto, RestoreFanAuto, RestoreLost;
    RestoreExact(f, t.cleanup);
    if Accounted(f) { AccountedNeverLost(f, t.cleanup); }
    var g := RestoreFanAuto(f, t.cleanup).0;
    SameRecord(g, g.(error := true, control := Nobody));
  }

  lemma WriteCurveHonestIff(f: Fan, speed: int, t: CurveWake)
    requires Recorded(f) && ForeignCurve(t)
    ensures Honest(WriteCurve(f, speed, t).0) <==> !ApplyLost(f, speed, t.apply)
    ensures Recorded(WriteCurve(f, speed, t).0) <==> !SequenceAdopts(f, speed, t.apply)
  {
    hide Sound, Reserved, StockAuto, ApplyManualSpeed, ApplyLost, SequenceAdopts, FailCurve;
    ApplyExact(f, speed, t.apply);
    SequenceRecordedIff(f, speed, t.apply);
    var (g, applied) := ApplyManualSpeed(f, speed, t.apply);
    SameRecord(g, g.(control := Nobody));
    SameRecord(g, g.(error := false, control := Curve));
    if Honest(g.(control := Nobody)) {
      FailCurveHonest(g.(control := Nobody), t);
    }
  }

  /** A poll of the curve loop keeps the record exactly when none of its commands is lost waiting and
      its write's exception handler is not lost either. */
  lemma CurvePollHonestIff(f: Fan, t: CurveWake)
    requires Honest(f) && ForeignCurve(t)
    ensures Honest(PollCurve(f, t).0) <==> !CurveAdopts(f, t) && !CurveDrops(f, t)
  {
    hide Sound, Reserved, StockAuto, RunFanCommand, CommandLost, FailCurve, WriteCurve, SequenceAdopts, ApplyLost;
    if !f.control.Override? && !f.error && f.restoring.None? {
      CommandExact(f, ReadTemp, t.read);
      var (g, exit) := RunFanCommand(f, ReadTemp, t.read);
      if !CommandLost(f, t.read) {
        ReadKeepsHonest(f, t.read);
        FailCurveHonest(g, t);
        if exit.Value? && t.usable && t.speed.Some? {
          WriteCurveHonestIff(g, t.speed.value, t);
          SequenceRecordedIff(g, t.speed.value, t.apply);
        }
      }
    }
  }

  lemma CurvePollRecordedIff(f: Fan, t: CurveWake)
    requires Recorded(f) && ForeignCurve(t)
    ensures Recorded(PollCurve(f, t).0) <==> !CurveAdopts(f, t)
  {
    hide Sound, Reserved, StockAuto, RunFanCommand, CommandLost, RestoreFanAuto, RestoreLost, WriteCurve,
        SequenceAdopts, Accounted;
    if !f.control.Override? && !f.error && f.restoring.None? {
      CommandExact(f, ReadTemp, t.read);
      var (g, exit) := RunFanCommand(f, ReadTemp, t.read);
      if !CommandLost(f, t.read) {
        RestoreExact(g, t.cleanup);
        var h := RestoreFanAuto(g, t.cleanup).0;
        SameRecord(h, h.(error := true, control := Nobody));
        if exit.Value? && t.usable && t.speed.Some? {
          WriteCurveHonestIff(g, t.speed.value, t);
        }
      }
    }
  }

  /** Reading the temperature writes nothing. */
  lemma ReadKeepsHonest(f: Fan, w: Wait)
    requires Honest(f) && Foreign(w.before) && !CommandLost(f, w) && f.restoring.None?
    ensures Honest(RunFanCommand(f, ReadTemp, w).0)
  {
    hide Inv, Reserved, StockAuto, RunCall, CommandLost, Exec, LockAcquired, Linked;
    CommandExact(f, ReadTemp, w);
    CommandQueueOnly(f, ReadTemp, w);
    if !f.error && f.control == Nobody {
      QuietCallKeepsStock(f.q, ReadTemp, Some(FanAuto), w);
    }
  }

  /** A call that is no manual write, nor is its recovery, keeps stock auto and every reservation. */
  lemma QuietCallKeepsStock(q: State, call: HwCall, recovery: Option<HwCall>, w: Wait)
    requires Inv(q) && Quiet(q) && Foreign(w.before)
    requires !Manual(call) && (recovery.Some? ==> !Manual(recovery.value))
    ensures var t := RunCall(q, call, recovery, COMMAND_TIMEOUT, w).0;
            && Inv(t) && Quiet(t)
            && (StockAuto(q) ==> StockAuto(t))
            && (forall f | Reserved(q, f) :: Reserved(t, f))
  {
    hide Inv, Reserved, StockAuto, RunCall, Exec, LockAcquired, Items, Grows, Meanwhile;
    var t := RunCall(q, call, recovery, COMMAND_TIMEOUT, w).0;
    RunCallLeaves(q, call, recovery, COMMAND_TIMEOUT, w);
    ExecMeanwhile(q, w.before);
    LockMeanwhile(q, w.before);
    var base := if LostWaiting(q, w) then Exec(q, w.before) else LockAcquired(q, w.before);
    MeanwhileKeeps(q, base);
    MeanwhileSound(q, base);
    assert AddsNoManual(base, t) && Grows(base, t) by { NothingAdded(base); GrowsSame(base); }
    if StockAuto(base) { NoManualKeepsStock(base, t); }
    forall f | Reserved(base, f) ensures Reserved(t, f) { NoManualKeepsReserved(base, t, f); }
  }

  lemma NothingAdded(q: State)
    ensures AddsNoManual(q, q)
  {
  }

  lemma MeanwhileSound(q: State, t: State)
    requires Meanwhile(q, t)
    ensures Inv(t) && Quiet(t) && Grows(q, t)
  {
  }

  // -- The stock-auto request ---------------------------------------------------------------------

  lemma PlainCallLinked(f: Fan, w: Wait)
    requires Recorded(f) && Foreign(w.before)
    ensures var (q, exit) := RunCall(f.q, FanAuto, None, COMMAND_TIMEOUT, w);
            var g := CompleteRecovery(f.(q := q));
            Linked(g) && (exit.Value? ==> g.restoring.None?)
  {
    hide Inv, Reserved, RunCall, Exec, LockAcquired, Items, Grows, Meanwhile, Leaves;
    RunCallLeaves(f.q, FanAuto, None, COMMAND_TIMEOUT, w);
    ExecMeanwhile(f.q, w.before);
    LockMeanwhile(f.q, w.before);
    var (q, exit) := RunCall(f.q, FanAuto, None, COMMAND_TIMEOUT, w);
    if LostWaiting(f.q, w) || exit.Busy? || exit.Unavailable? {
      FanMeanwhile(f, q);
    } else {
      AdmittedOrRefused(f.q, FanAuto, None, w);
      AdmittedCompletes(f, q, LockAcquired(f.q, w.before));
    }
  }

  lemma PlainCallRecorded(f: Fan, w: Wait)
    requires Recorded(f) && Foreign(w.before)
    ensures var (q, exit) := RunCall(f.q, FanAuto, None, COMMAND_TIMEOUT, w);
            var g := CompleteRecovery(f.(q := q));
            && Recorded(g) && g.control == f.control && (exit.Value? ==> g.restoring.None?)
            && (Accounted(f) ==> Accounted(g))
  {
    hide Inv, Reserved, RunCall, StockAuto;
    PlainCallLinked(f, w);
    QuietCallKeepsStock(f.q, FanAuto, None, w);
    var q := RunCall(f.q, FanAuto, None, COMMAND_TIMEOUT, w).0;
    if f.restoring.Some? && Done(q, f.restoring.value) && q.futures[f.restoring.value] == Returned(true) {
      ReservedDone(q, f.restoring.value);
    }
  }

  lemma PlainCallConfirms(q: State, w: Wait)
    requires Inv(q) && RunCall(q, FanAuto, None, COMMAND_TIMEOUT, w).1 == Value(true)
    ensures StockAuto(RunCall(q, FanAuto, None, COMMAND_TIMEOUT, w).0)
  {
    hide Inv, RunCall, StockAuto, LockAcquired, Items, Grows;
    RunCallLeaves(q, FanAuto, None, COMMAND_TIMEOUT, w);
    ConfirmedLast(Items(LockAcquired(q, w.before).enqueued), RunCall(q, FanAuto, None, COMMAND_TIMEOUT, w).0);
  }

  /** Restoring stock auto cannot leave it, however it ends. */
  lemma RestoreKeepsStock(f: Fan, w: FanWait)
    requires Recorded(f) && f.restoring.None? && ForeignWait(w) && StockAuto(f.q)
    ensures StockAuto(RestoreFanAuto(f, w).0.q)
  {
    hide Inv, Reserved, RunCall, StockAuto, Exec, Meanwhile;
    QuietCallKeepsStock(f.q, FanAuto, Some(FanAuto), w.call);
    var q := RunCall(f.q, FanAuto, Some(FanAuto), COMMAND_TIMEOUT, w.call).0;
    ExecMeanwhile(q, w.publish);
    MeanwhileKeeps(q, Exec(q, w.publish));
  }

  /** A stock-auto request never spoils the record, and one that reports success leaves the
      controller in stock auto with nobody in control, even if the watchdog's own clean-up fails. */
  lemma StockRequestHonest(f: Fan, w: Wait, stop: Option<FanWait>)
    requires Recorded(f) && Foreign(w.before) && (stop.Some? ==> ForeignWait(stop.value))
    ensures var (g, ok) := RequestStock(f, w, stop);
            && Recorded(g) && (Honest(f) ==> Honest(g))
            && (ok ==> StockAuto(g.q) && g.control == Nobody && !g.error)
  {
    hide Sound, Reserved, RunCall, StockAuto, RestoreFanAuto, RestoreLost, CompleteRecovery;
    PlainCallRecorded(f, w);
    var (q, exit) := RunCall(f.q, FanAuto, None, COMMAND_TIMEOUT, w);
    var g := CompleteRecovery(f.(q := q));
    if exit == Value(true) {
      SoundInv(f);
      PlainCallConfirms(f.q, w);
      CompleteKeepsQueue(f.(q := q));
      SameRecord(g, g.(error := false));
      SameRecord(g, g.(error := false, control := Nobody));
      if stop.Some? {
        var c := g.(error := false);
        RestoreExact(c, stop.value);
        RestoreKeepsStock(c, stop.value);
        var h := RestoreFanAuto(c, stop.value).0;
        SameRecord(h, h.(error := false, control := Nobody));
      }
    }
  }

  lemma SoundInv(f: Fan)
    requires Sound(f)
    ensures Inv(f.q)
  {
  }

  lemma CompleteKeepsQueue(f: Fan)
    ensures CompleteRecovery(f).q == f.q && CompleteRecovery(f).control == f.control
  {
  }

  // -- Whole runs ---------------------------------------------------------------------------------

  lemma EnvironmentHonest(f: Fan, t: State)
    requires Recorded(f) && Meanwhile(f.q, t)
    ensures Recorded(f.(q := t)) && (Honest(f) ==> Honest(f.(q := t)))
  {
    hide Sound, Meanwhile, StockAuto, Reserved;
    FanMeanwhile(f, t);
  }

  lemma RecoveryTaskHonest(f: Fan)
    requires Recorded(f)
    ensures var g := CompleteRecovery(f);
            Recorded(g) && (Honest(f) ==> Honest(g)) && (f.restoring.Some? ==> Accounted(g))
  {
    hide Inv, StockAuto, Reserved;
    if f.restoring.Some? && Done(f.q, f.restoring.value) && f.q.futures[f.restoring.value] == Returned(true) {
      ReservedDone(f.q, f.restoring.value);
    }
  }

  lemma CleanupHonestIff(f: Fan, c: FanWait)
    requires Recorded(f) && ForeignWait(c)
    ensures var g := RestoreFanAuto(f, c).0.(control := Nobody);
            Recorded(g) && (Honest(g) <==> !RestoreLost(f, c))
  {
    hide Sound, Reserved, StockAuto, RestoreFanAuto, RestoreLost;
    RestoreExact(f, c);
    var g := RestoreFanAuto(f, c).0;
    SameRecord(g, g.(control := Nobody));
  }

  /** Each operation, from an honest record: it stays honest exactly when nothing is lost. */
  lemma StepHonestIff(f: Fan, op: Op)
    requires Honest(f) && ForeignOp(op)
    ensures Honest(FanStep(f, op)) <==> !Lossy(f, op)
  {
    hide Sound, Reserved, StockAuto, RestoreFanAuto, RestoreLost, ApplyManualSpeed, ApplyLost, PollWatchdog, PollCurve,
         CurveAdopts, CurveDrops, WatchAdopts, SequenceAdopts, SetFanManual, RequestStock, Exec, Meanwhile,
         CompleteRecovery;
    match op
    case Environment(actions) =>
      SoundQueue(f);
      ExecMeanwhile(f.q, actions);
      EnvironmentHonest(f, Exec(f.q, actions));
    case RecoveryTask => RecoveryTaskHonest(f);
    case SetManual(_, _, _, _) => SetManualHonestIff(f, op);
    case WatchdogPoll(target, k) =>
      if Watching(f) {
        WatchdogExact(f, target, k);
      }
    case CurvePoll(t) => CurvePollHonestIff(f, t);
    case Cleanup(c) => CleanupHonestIff(f, c);
    case StockRequest(request, stop) => StockRequestHonest(f, request, stop);
  }

  lemma SoundQueue(f: Fan)
    requires Sound(f)
    ensures Inv(f.q) && Quiet(f.q)
  {
  }

  /** Adoption is the only thing that makes a pending restoration something else. */
  lemma StepRecordedIff(f: Fan, op: Op)
    requires Recorded(f) && ForeignOp(op)
    ensures Recorded(FanStep(f, op)) <==> !Adopts(f, op)
  {
    hide Sound, Reserved, StockAuto, RestoreFanAuto, RestoreLost, ApplyManualSpeed, ApplyLost, PollWatchdog, PollCurve,
         CurveAdopts, WatchAdopts, SequenceAdopts, SetFanManual, RequestStock, Exec, Meanwhile, CompleteRecovery,
         Accounted;
    match op
    case Environment(actions) =>
      SoundQueue(f);
      ExecMeanwhile(f.q, actions);
      EnvironmentHonest(f, Exec(f.q, actions));
    case RecoveryTask => RecoveryTaskHonest(f);
    case SetManual(_, _, _, _) => SetManualHonestIff(f, op);
    case WatchdogPoll(target, k) =>
      if Watching(f) {
        WatchdogExact(f, target, k);
      }
    case CurvePoll(t) => CurvePollRecordedIff(f, t);
    case Cleanup(c) => CleanupHonestIff(f, c);
    case StockRequest(request, stop) => StockRequestHonest(f, request, stop);
  }

  /** No step of the run loses anything. */
  ghost predicate Lossless(f: Fan, ops: seq<Op>)
    decreases |ops|
  {
    ops != [] ==> !Lossy(f, ops[0]) && Lossless(FanStep(f, ops[0]), ops[1..])
  }

  ghost predicate AdoptsNothing(f: Fan, ops: seq<Op>)
    decreases |ops|
  {
    ops != [] ==> !Adopts(f, ops[0]) && AdoptsNothing(FanStep(f, ops[0]), ops[1..])
  }

  /** Honest now and after every further step. */
  ghost predicate HonestThroughout(f: Fan, ops: seq<Op>)
    decreases |ops|
  {
    Honest(f) && (ops != [] ==> HonestThroughout(FanStep(f, ops[0]), ops[1..]))
  }

  lemma {:induction false} HonestThroughoutMeans(f: Fan, ops: seq<Op>, k: nat)
    requires HonestThroughout(f, ops) && k <= |ops|
    ensures Honest(FanRun(f, ops[..k]))
    decreases k
  {
    hide Honest, FanStep;
    if k > 0 {
      assert ops[..k][1..] == ops[1..][..k - 1];
      HonestThroughoutMeans(FanStep(f, ops[0]), ops[1..], k - 1);
    }
  }

  /** Over every run of the fan layer: at every moment, unless somebody is in control, a restoration is
      pending or an error is on record, the controller is in stock auto. That is so throughout the
      run exactly when no step's schedule loses a command or a clean-up. */
  lemma {:induction false} FanRunHonestIff(f: Fan, ops: seq<Op>)
    requires Honest(f) && ForeignOps(ops)
    ensures HonestThroughout(f, ops) <==> Lossless(f, ops)
    decreases |ops|
  {
    hide Honest, Lossy, FanStep, ForeignOp;
    if ops != [] {
      StepHonestIff(f, ops[0]);
      if Honest(FanStep(f, ops[0])) {
        FanRunHonestIff(FanStep(f, ops[0]), ops[1..]);
      }
    }
  }

  lemma {:induction false} FanRunRecorded(f: Fan, ops: seq<Op>)
    requires Recorded(f) && ForeignOps(ops) && AdoptsNothing(f, ops)
    ensures Recorded(FanRun(f, ops))
    decreases |ops|
  {
    hide Recorded, Adopts, FanStep, ForeignOp;
    if ops != [] {
      StepRecordedIff(f, ops[0]);
      FanRunRecorded(FanStep(f, ops[0]), ops[1..]);
    }
  }

  lemma FreshHonest()
    ensures Honest(FRESH)
  {
    assert Items([]) == [];
  }

  /** From process start, whatever was cancelled before short of an adoption: a manual request that
      reports plain failure finds the controller in stock auto. */
  lemma PlainFailureMeansStock(ops: seq<Op>, op: Op)
    requires op.SetManual? && ForeignOps(ops) && ForeignOp(op) && AdoptsNothing(FRESH, ops)
    requires SetFanManual(FanRun(FRESH, ops), op.speed, op.w, op.watchdogStarts, op.fallback).1 == ManualFailed
    ensures StockAuto(FanStep(FanRun(FRESH, ops), op).q)
  {
    hide Recorded, SetFanManual, FanStep, StockAuto, AdoptsNothing;
    FreshHonest();
    assert Recorded(FRESH) by { HonestRecorded(FRESH); }
    FanRunRecorded(FRESH, ops);
    SetManualHonestIff(FanRun(FRESH, ops), op);
  }

  lemma HonestRecorded(f: Fan)
    requires Honest(f)
    ensures Recorded(f)
  {
  }

  // -- A clean-up that the supervisor cancels -----------------------------------------------------

  /** The supervisor gives a clean-up five seconds, the queue ten: the wait is cancelled while the
      auto request is still running. */
  const CUT_CLEANUP := FanWait(Wait([], false, [Take, Cancel]), [], false)

  /** Or when the controller's refusal has arrived but the wait has not been polled again. */
  const REFUSED_CLEANUP := FanWait(Wait([], false, [Take, Finish(Returned(false)), Deliver, Cancel]), [], false)

  function Overridden(): Fan {
    Fan(WithCall(WithCall(INITIAL, FanManual, Returned(true)), FanSpeed(50), Returned(true)), false, None, Override)
  }

  /** An override to 50 that succeeds at once. */
  function StartOverride(): Op {
    SetManual(50, ManualWait(Completes(Returned(true)), Completes(Returned(true)), UNDISTURBED, UNDISTURBED), true,
        UNDISTURBED)
  }

  lemma OverrideStarts()
    ensures FanStep(FRESH, StartOverride()) == Overridden()
  {
    var w := StartOverride().w;
    var q := WithCall(INITIAL, FanManual, Returned(true));
    CallCompletes(INITIAL, FanManual, Some(FanAuto), Returned(true));
    CallCompletes(q, FanSpeed(50), Some(FanAuto), Returned(true));
    hide WithCall, Completes, RunCall;
    assert RunFanCommand(FRESH, FanManual, w.mode) == (FRESH.(q := q), Value(true));
  }

  lemma CutCleanupLeaves(q: State)
    requires Settled(q)
    ensures var (t, exit) := RunCall(q, FanAuto, Some(FanAuto), COMMAND_TIMEOUT, CUT_CLEANUP.call);
            && exit.Cancelled? && t.trace == q.trace
            && t.executing == Some(Item(q.nextFuture, FanAuto)) && t.requests == [Work(Item(q.nextFuture + 1, FanAuto))]
  {
    var s := Step(q, Submit(FanAuto, Some(FanAuto)));
    assert LockAcquired(q, []) == q && Exec(q, []) == q;
    assert [Take, Cancel][1..] == [Cancel];
    assert Await(s, [Take, Cancel]) == Await(Step(s, Take), [Cancel]);
  }

  lemma RefusedCleanupLeaves(q: State)
    requires Settled(q)
    ensures RunCall(q, FanAuto, Some(FanAuto), COMMAND_TIMEOUT, REFUSED_CLEANUP.call) ==
            (WithCall(q, FanAuto, Returned(false)), Cancelled)
  {
    var s := Step(q, Submit(FanAuto, Some(FanAuto)));
    assert LockAcquired(q, []) == q && Exec(q, []) == q;
    var s2 := Step(Step(s, Take), Finish(Returned(false)));
    var s3 := Step(s2, Deliver);
    var refused := [Take, Finish(Returned(false)), Deliver, Cancel];
    assert refused[1..] == [Finish(Returned(false)), Deliver, Cancel];
    assert [Finish(Returned(false)), Deliver, Cancel][1..] == [Deliver, Cancel] && [Deliver, Cancel][1..] == [Cancel];
    assert Await(Step(s, Take), [Finish(Returned(false)), Deliver, Cancel]) == Await(s2, [Deliver, Cancel]);
    assert Await(s2, [Deliver, Cancel]) == Await(s3, [Cancel]);
    assert s3.(active := None) == WithCall(q, FanAuto, Returned(false));
  }

  /** What no longer is on record: nobody in control, nothing awaited, no error, and not in stock auto. */
  predicate Unrecorded(f: Fan) {
    f.control == Nobody && f.restoring.None? && !f.error && !Stock(f.q.trace)
  }

  /** An accepted override whose clean-up is cancelled while running: the record is silent although the
      controller is manual; an auto request is running and another is queued behind it. */
  lemma CutCleanupExample()
    ensures var g := FanRun(FRESH, [StartOverride(), Cleanup(CUT_CLEANUP)]);
            && Unrecorded(g)
            && g.q.executing == Some(Item(2, FanAuto)) && g.q.requests == [Work(Item(3, FanAuto))]
  {
    var q := Overridden().q;
    TwoOps(FRESH, StartOverride(), Cleanup(CUT_CLEANUP));
    OverrideStarts();
    OverriddenQueue();
    hide StartOverride, SetFanManual, FanRun, WithCall, RunCall, Stock, Settled;
    CutCleanupLeaves(q);
  }

  /** Cancelled when the refusal has arrived: nothing is under way any more, and the controller stays
      manual with nothing on record. */
  lemma AbandonedCleanupExample()
    ensures var g := FanRun(FRESH, [StartOverride(), Cleanup(REFUSED_CLEANUP)]);
            && Unrecorded(g) && Settled(g.q)
  {
    TwoOps(FRESH, StartOverride(), Cleanup(REFUSED_CLEANUP));
    OverrideStarts();
    OverriddenQueue();
    hide StartOverride, SetFanManual, FanRun, WithCall, RestoreFanAuto, Stock, Settled;
    RefusedRestore(Overridden());
  }

  lemma RefusedRestore(f: Fan)
    requires Settled(f.q) && !Done(f.q, f.q.nextFuture + 1) && f.restoring.None? && !Stock(f.q.trace)
    ensures var g := RestoreFanAuto(f, REFUSED_CLEANUP).0;
            g.restoring.None? && g.error == f.error && Settled(g.q) && !Stock(g.q.trace)
  {
    RefusedCleanupLeaves(f.q);
    StockAppend(f.q.trace, Completed(Item(f.q.nextFuture, FanAuto), Returned(false)));
    hide RunCall, Stock;
  }

  lemma TwoOps(f: Fan, a: Op, b: Op)
    ensures FanRun(f, [a, b]) == FanStep(FanStep(f, a), b)
  {
    hide FanStep;
    assert [a, b][1..] == [b] && [b][1..] == [];
    assert FanRun(FanStep(f, a), [b]) == FanStep(FanStep(f, a), b);
  }

  lemma OverriddenQueue()
    ensures var q := Overridden().q;
            Settled(q) && !Stock(q.trace) && q.nextFuture == 2 && !Done(q, 3)
  {
    StockAppendWrite(WithCall(INITIAL, FanManual, Returned(true)), FanSpeed(50), Returned(true));
  }
}
