/** The fan use cases as the application object runs them, refining `FanFailSafe`. */
module FanService {
  import opened Wrappers
  import opened CommandQueue
  import opened HardwareQueue
  import opened FanFailSafe
  import opened FanRuns
  import opened FanCurve

  class FanController {
    const queue: HardwareCommandQueue
    var failSafeError: string
    var restorePending: bool
    var restoreTask: Option<nat>   // the future that the unfinished recovery task awaits
    var control: Control

    ghost function View(): Fan
      reads this, queue
    {
      Fan(queue.View(), failSafeError != "", restoreTask, control)
    }

    ghost predicate Valid()
      reads this, queue
    {
      queue.Valid() && restorePending == restoreTask.Some?
    }

    constructor ()
      ensures Valid() && View() == FRESH && fresh(queue)
    {
      queue := new HardwareCommandQueue();
      failSafeError, restorePending, restoreTask, control := "", false, None, Nobody;
    }

    method TrackTimeoutRecovery(future: Option<nat>, context: string)
      requires Valid()
      modifies this
      ensures Valid() && View() == Track(old(View()), future)
    {
      if future.None? {
        return;
      }
      if restoreTask.Some? {
        return;
      }
      restorePending := true;
      failSafeError := context + "; stock-auto restoration pending";
      assert failSafeError[|context|] == ';';
      restoreTask := future;
    }

    /** The recovery task resumes once its future is done. */
    method CompleteTimeoutRecovery()
      requires Valid()
      modifies this
      ensures Valid() && View() == CompleteRecovery(old(View()))
    {
      if restoreTask.Some? && restoreTask.value in queue.futures {
        if queue.futures[restoreTask.value] == Returned(true) {
          failSafeError := "";
        } else {
          failSafeError := "Queued stock-auto restoration failed";
        }
        restorePending := false;
        restoreTask := None;
      }
    }

    method RunCommand(call: HwCall, w: Wait) returns (exit: Exit)
      requires Valid()
      modifies this, queue
      ensures Valid() && (View(), exit) == RunFanCommand(old(View()), call, w)
    {
      hide RunCall;
      exit := queue.Run(call, Some(FanAuto), COMMAND_TIMEOUT, w);
      CompleteTimeoutRecovery();
      match exit
      case TimedOut(recovery) => TrackTimeoutRecovery(recovery, "fan command timed out");
      case Cancelled => TrackTimeoutRecovery(queue.timedOut, "fan command was cancelled");
      case _ =>
    }

    method RestoreAuto(w: FanWait) returns (r: RestoreExit)
      requires Valid()
      modifies this, queue
      ensures Valid() && (View(), r) == RestoreFanAuto(old(View()), w)
    {
      if restoreTask.Some? {
        queue.PerformAll(w.call.before);
        if w.call.cancelled {
          return RestoreCancelled;
        }
        if restoreTask.value in queue.futures {
          CompleteTimeoutRecovery();
          return if failSafeError == "" then Restored else NotRestored;
        }
        failSafeError := "Stock-auto restoration is still pending";
        return NotRestored;
      }
      var exit := queue.Run(FanAuto, Some(FanAuto), COMMAND_TIMEOUT, w.call);
      match exit
      case Cancelled => r := RestoreCancelled;
      case Value(true) =>
        failSafeError := "";
        r := Restored;
      case TimedOut(recovery) =>
        TrackTimeoutRecovery(recovery, "stock-auto restoration timed out");
        if failSafeError == "" {
          failSafeError := "stock-auto restoration timed out";
        }
        queue.PerformAll(w.publish);
        if w.observed {
          CompleteTimeoutRecovery();
        }
        r := NotRestored;
      case _ =>
        failSafeError := "Stock-auto restoration failed";
        r := NotRestored;
    }

    method ApplyManual(speed: int, w: ManualWait) returns (exit: ApplyExit)
      requires Valid()
      modifies this, queue
      ensures Valid() && (View(), exit) == ApplyManualSpeed(old(View()), speed, w)
    {
      var outcome := RunCommand(FanManual, w.mode);
      if outcome == Value(true) {
        outcome := RunCommand(FanSpeed(speed), w.speed);
        if outcome == Value(true) {
          return Applied;
        }
      }
      match outcome
      case Value(_) =>
        var r := RestoreAuto(w.cleanup);
        if r == RestoreCancelled {
          exit := HandleCancellation(w);
        } else {
          exit := Rejected;
        }
      case TimedOut(_) => exit := TimeoutRaised;
      case Cancelled => exit := HandleCancellation(w);
      case _ =>
        var r := RestoreAuto(w.cleanup);
        exit := if r == RestoreCancelled then CancelledInHandler else ErrorRaised;
    }

    method HandleCancellation(w: ManualWait) returns (exit: ApplyExit)
      requires Valid()
      modifies this, queue
      ensures Valid() && (View(), exit) == AfterCancel(old(View()), w)
    {
      if !restorePending {
        var _ := RestoreAuto(Shield(w.shielded));
      }
      exit := CancelRaised;
    }

    /** `set_fan_manual` after validation: the override, its watchdog, and the result code. */
    method SetManualSpeed(speed: int, w: ManualWait, watchdogStarts: bool, fallback: FanWait) returns (code: Code)
      requires Valid()
      modifies this, queue
      ensures Valid() && (View(), code) == SetFanManual(old(View()), speed, w, watchdogStarts, fallback)
    {
      hide ApplyManualSpeed, RestoreFanAuto;
      var exit := ApplyManual(speed, w);
      if exit == Applied {
        failSafeError := "";
        if !watchdogStarts {
          var r := RestoreAuto(fallback);
          control := Nobody;
          return if r == RestoreCancelled then Raises else WatchdogFailed;
        }
        control := Override;
        return Success;
      }
      control := Nobody;
      if exit == CancelRaised || exit == CancelledInHandler {
        return Raises;
      }
      if restorePending {
        return RestorePending;
      }
      if failSafeError != "" {
        return RestoreFailed;
      }
      return ManualFailed;
    }

    method EndWatchdog(exit: WatchExit, w: FanWait) returns (e: WatchExit)
      requires Valid()
      modifies this, queue
      ensures Valid() && (View(), e) == EndWatch(old(View()), exit, w)
    {
      hide RestoreFanAuto;
      var r := RestoreAuto(w);
      if r == RestoreCancelled {
        return Interrupted;
      }
      control := Nobody;
      return exit;
    }

    /** One pass of the manual watchdog after its sleep. */
    method Watchdog(target: int, k: Wake) returns (e: WatchExit)
      requires Valid()
      modifies this, queue
      ensures Valid() && (View(), e) == PollWatchdog(old(View()), target, k)
    {
      hide RunFanCommand, EndWatch;
      if k.closing {
        return Closing;
      }
      var exit := RunCommand(ReadTemp, k.read);
      match exit
      case Value(_) =>
        if k.temp.None? || !Plausible(k.temp.value) {
          e := EndWatchdog(BadTemperature, k.cleanup);
          return;
        }
        var floor := if k.temp.value >= 95_000 then 100 else if k.temp.value >= 90_000 then 80 else 0;
        if floor <= target {
          return Held;
        }
        var written := RunCommand(FanSpeed(floor), k.write);
        match written {
          case Value(ok) =>
            if ok {
              return Lifted(floor);
            }
            e := EndWatchdog(WriteRefused, k.cleanup);
          case Cancelled => e := Interrupted;
          case _ => e := EndWatchdog(Crashed, k.cleanup);
        }
      case Cancelled => e := Interrupted;
      case _ => e := EndWatchdog(Crashed, k.cleanup);
    }

    method FailCurveControl(t: CurveWake) returns (e: CurveExit)
      requires Valid()
      modifies this, queue
      ensures Valid() && (View(), e) == FailCurve(old(View()), t)
    {
      hide RestoreFanAuto;
      if !t.third {
        return Failed;
      }
      var r := RestoreAuto(t.cleanup);
      if r == RestoreCancelled {
        return CurveExit.Cut;
      }
      failSafeError := "Fan curve disabled after repeated failures";
      control := Nobody;
      return GaveUp;
    }

    /** One pass of the curve loop, in curve mode. */
    method CurveControl(t: CurveWake) returns (e: CurveExit)
      requires Valid()
      modifies this, queue
      ensures Valid() && (View(), e) == PollCurve(old(View()), t)
    {
      hide RunFanCommand, ApplyManualSpeed, FailCurve;
      if control == Override || failSafeError != "" || restorePending {
        return PassedOver;
      }
      var exit := RunCommand(ReadTemp, t.read);
      match exit
      case Cancelled => e := CurveExit.Cut;
      case Value(_) =>
        if !t.usable {
          e := FailCurveControl(t);
          return;
        }
        if t.speed.None? {
          return Kept;
        }
        var applied := ApplyManual(t.speed.value, t.apply);
        match applied {
          case Applied =>
            failSafeError, control := "", Curve;
            e := Wrote;
          case CancelRaised =>
            control := Nobody;
            e := CurveExit.Cut;
          case CancelledInHandler =>
            control := Nobody;
            e := CurveExit.Cut;
          case _ =>
            control := Nobody;
            e := FailCurveControl(t);
        }
      case _ => e := FailCurveControl(t);
    }

    /** `set_fan_stock_auto`. */
    method SetStockAuto(w: Wait, stop: Option<FanWait>) returns (ok: bool)
      requires Valid()
      modifies this, queue
      ensures Valid() && (View(), ok) == RequestStock(old(View()), w, stop)
    {
      hide RunCall, RestoreFanAuto;
      var exit := queue.Run(FanAuto, None, COMMAND_TIMEOUT, w);
      CompleteTimeoutRecovery();
      if exit != Value(true) {
        return false;
      }
      if stop.Some? {
        failSafeError := "";
        var _ := RestoreAuto(stop.value);
      }
      failSafeError := "";
      control := Nobody;
      return true;
    }

    /** Any operation of the fan layer. */
    method Perform(op: Op)
      requires Valid()
      modifies this, queue
      ensures Valid() && View() == FanStep(old(View()), op)
    {
      hide RestoreFanAuto, SetFanManual, PollWatchdog, PollCurve, RequestStock, Exec;
      match op
      case Environment(actions) => queue.PerformAll(actions);
      case RecoveryTask => CompleteTimeoutRecovery();
      case SetManual(speed, w, watchdogStarts, fallback) =>
        var _ := SetManualSpeed(speed, w, watchdogStarts, fallback);
      case WatchdogPoll(target, k) =>
        if control == Override && restoreTask.None? {
          var _ := Watchdog(target, k);
        }
      case CurvePoll(t) => var _ := CurveControl(t);
      case Cleanup(c) =>
        var _ := RestoreAuto(c);
        control := Nobody;
      case StockRequest(request, stop) => var _ := SetStockAuto(request, stop);
    }
  }
}
