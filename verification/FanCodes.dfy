/** What the answer to a manual-override request says about the hardware: which writes were
confirmed, whether a restoration is awaited, and whether an error is on record. */
module FanCodes {
  import opened Wrappers
  import opened CommandQueue
  import opened FanFailSafe
  import opened FanRuns

  // -- What an answer can be read off ---------------------------------------------------------------

  /** The hardware's confirmation of item i has arrived. */
  predicate Told(t: State, i: nat) {
    Done(t, i) && t.futures[i] == Returned(true)
  }

  /** Since q, manual mode and then this speed were requested, and both were confirmed. */
  ghost predicate Wrote(q: State, t: State, speed: int) {
    var items := Items(t.enqueued);
    exists m, k | |Items(q.enqueued)| <= m < k < |items| ::
      items[m].call == FanManual && items[k].call == FanSpeed(speed) && Told(t, m) && Told(t, k)
  }

  predicate RestoreCut(f: Fan, w: FanWait) {
    if f.restoring.Some? then w.call.cancelled else CallCut(f.q, w.call)
  }

  /** The schedule cancels one of the two commands, or the restoration after one that was refused,
      returned false or raised. */
  predicate SequenceCut(f: Fan, speed: int, w: ManualWait) {
    var (g, mode) := RunFanCommand(f, FanManual, w.mode);
    var (h, last) := if mode == Value(true) then RunFanCommand(g, FanSpeed(speed), w.speed) else (g, mode);
    || CallCut(f.q, w.mode)
    || (mode == Value(true) && CallCut(g.q, w.speed))
    || (last != Value(true) && !last.TimedOut? && RestoreCut(h, w.cleanup))
  }

  /** The same for the use case, with the restoration after a watchdog that does not start. */
  predicate OverrideCut(f: Fan, op: Op)
    requires op.SetManual?
  {
    var (g, exit) := ApplyManualSpeed(f, op.speed, op.w);
    || SequenceCut(f, op.speed, op.w)
    || (exit == Applied && !op.watchdogStarts && RestoreCut(g.(error := false), op.fallback))
  }

  // -- Which speed writes were confirmed -----------------------------------------------------------

  /** A speed that was requested since q was answered otherwise. */
  ghost predicate Refuted(q: State, t: State) {
    var items := Items(t.enqueued);
    && Items(q.enqueued) <= items
    && forall k | |Items(q.enqueued)| <= k < |items| && items[k].call.FanSpeed? ::
         Done(t, k) && t.futures[k] != Returned(true)
  }

  ghost predicate SpeedTold(q: State, t: State) {
    exists k | |Items(q.enqueued)| <= k < |Items(t.enqueued)| ::
      Items(t.enqueued)[k].call.FanSpeed? && Told(t, k)
  }

  lemma RefutedThen(a: State, b: State, c: State)
    requires Refuted(a, b) && Grows(b, c) && Items(b.enqueued) <= Items(c.enqueued)
    ensures Refuted(b, c) ==> Refuted(a, c)
    ensures !SpeedTold(b, c) ==> !SpeedTold(a, c)
  {
    hide Items;
    var before, items := Items(b.enqueued), Items(c.enqueued);
    assert forall i | 0 <= i < |before| :: items[i] == before[i];
  }

  lemma NoManualRefuted(q: State, t: State)
    requires AddsNoManual(q, t)
    ensures Refuted(q, t)
  {
  }

  lemma NoManualTransitive(q: State, t: State, u: State)
    requires AddsNoManual(q, t) && AddsNoManual(t, u)
    ensures AddsNoManual(q, u)
  {
    hide Items;
    var before, items := Items(t.enqueued), Items(u.enqueued);
    assert forall i | 0 <= i < |before| :: items[i] == before[i];
  }

  /** A call other than a speed write confirms no speed write; one that is no write at all adds none. */
  lemma CallAdds(q: State, call: HwCall, w: Wait)
    requires Inv(q) && Quiet(q) && Foreign(w.before)
    ensures var t := RunCall(q, call, Some(FanAuto), COMMAND_TIMEOUT, w).0;
            && Inv(t) && Grows(q, t)
            && (!call.FanSpeed? ==> Refuted(q, t))
            && (!Manual(call) ==> AddsNoManual(q, t))
  {
    hide Inv, RunCall, Exec, LockAcquired, Items, Grows, Leaves, Reserved, Meanwhile, Admits;
    var (t, exit) := RunCall(q, call, Some(FanAuto), COMMAND_TIMEOUT, w);
    RunCallLeaves(q, call, Some(FanAuto), COMMAND_TIMEOUT, w);
    ExecMeanwhile(q, w.before);
    LockMeanwhile(q, w.before);
    var base := if LostWaiting(q, w) then Exec(q, w.before) else LockAcquired(q, w.before);
    MeanwhileKeeps(q, base);
    if !LostWaiting(q, w) && !exit.Busy? && !exit.Unavailable? {
      AdmittedLeaves(q, call, w);
      AdmittedAdds(q, base, call, t);
    } else {
      NoManualRefuted(q, t);
    }
  }

  lemma AdmittedAdds(q: State, locked: State, call: HwCall, t: State)
    requires AddsNoManual(q, locked)
    requires var items := Items(locked.enqueued);
             && items + [Item(|items|, call)] <= Items(t.enqueued)
             && forall i | |items| < i < |Items(t.enqueued)| :: Items(t.enqueued)[i].call.FanAuto?
    ensures !call.FanSpeed? ==> Refuted(q, t)
    ensures !Manual(call) ==> AddsNoManual(q, t)
  {
    hide Items;
    var before, items := Items(locked.enqueued), Items(t.enqueued);
    assert forall i | 0 <= i < |before| :: items[i] == before[i];
    assert items[|before|] == (before + [Item(|before|, call)])[|before|];
  }

  /** A write that returned true was confirmed, as the last item; a speed write that ended otherwise,
      short of a cancellation, was not. */
  lemma WriteTold(q: State, call: HwCall, w: Wait)
    requires Inv(q) && Quiet(q) && Foreign(w.before) && Manual(call)
    ensures var (t, exit) := RunCall(q, call, Some(FanAuto), COMMAND_TIMEOUT, w);
            var items := Items(t.enqueued);
            && Inv(t) && Grows(q, t) && Items(q.enqueued) <= items
            && (exit == Value(true) ==>
                  |Items(q.enqueued)| < |items| && items[|items| - 1].call == call && Told(t, |items| - 1))
            && (exit != Value(true) && !exit.Cancelled? ==>
                  !SpeedTold(q, t) && (!exit.TimedOut? ==> Refuted(q, t)))
  {
    hide Inv, RunCall, Exec, LockAcquired, Items, Grows, Reserved, Meanwhile, Admits, CommandQueue.Cut, Seen;
    var (t, exit) := RunCall(q, call, Some(FanAuto), COMMAND_TIMEOUT, w);
    RunCallLeaves(q, call, Some(FanAuto), COMMAND_TIMEOUT, w);
    RefusalIff(q, call, Some(FanAuto), COMMAND_TIMEOUT, w);
    CallAdds(q, OtherCall, w);
    ExecMeanwhile(q, w.before);
    LockMeanwhile(q, w.before);
    var base := if LostWaiting(q, w) then Exec(q, w.before) else LockAcquired(q, w.before);
    MeanwhileKeeps(q, base);
    if !LostWaiting(q, w) && !exit.Busy? && !exit.Unavailable? {
      AdmittedLeaves(q, call, w);
      AdmittedExitIff(q, call, Some(FanAuto), COMMAND_TIMEOUT, w);
      OneWrite(q, base, call, t);
    } else {
      NoManualRefuted(q, t);
    }
  }

  /** The only write since q is the one behind what the lock's holders left. */
  lemma OneWrite(q: State, locked: State, call: HwCall, t: State)
    requires AddsNoManual(q, locked)
    requires var items := Items(locked.enqueued);
             && items + [Item(|items|, call)] <= Items(t.enqueued)
             && forall i | |items| < i < |Items(t.enqueued)| :: Items(t.enqueued)[i].call.FanAuto?
    ensures var k := |Items(locked.enqueued)|;
            && Items(q.enqueued) <= Items(t.enqueued) && |Items(q.enqueued)| <= k < |Items(t.enqueued)|
            && Items(t.enqueued)[k].call == call
            && (!Told(t, k) ==> !SpeedTold(q, t))
            && (Done(t, k) && t.futures[k] != Returned(true) ==> Refuted(q, t))
  {
    hide Items;
    var before, items := Items(locked.enqueued), Items(t.enqueued);
    assert forall i | 0 <= i < |before| :: items[i] == before[i];
    assert items[|before|] == (before + [Item(|before|, call)])[|before|];
  }

  // -- Restorations ------------------------------------------------------------------------------------

  lemma CutIff(q: State, call: HwCall, w: Wait)
    requires Inv(q)
    ensures RunCall(q, call, Some(FanAuto), COMMAND_TIMEOUT, w).1.Cancelled? <==> CallCut(q, w)
  {
    hide Inv, RunCall, Exec, LockAcquired, Items, Grows, Leaves, CommandQueue.Cut;
    RunCallLeaves(q, call, Some(FanAuto), COMMAND_TIMEOUT, w);
    if !LostWaiting(q, w) {
      CancelledIff(q, call, Some(FanAuto), COMMAND_TIMEOUT, w);
    }
  }

  lemma RestoreCutIff(f: Fan, w: FanWait)
    requires Recorded(f)
    ensures RestoreFanAuto(f, w).1.RestoreCancelled? <==> RestoreCut(f, w)
  {
    hide Inv, RunCall, Exec, CallCut, Reserved, Linked;
    CutIff(f.q, FanAuto, w.call);
  }

  lemma RestoreAdds(f: Fan, w: FanWait)
    requires Recorded(f) && ForeignWait(w)
    ensures var g := RestoreFanAuto(f, w).0; AddsNoManual(f.q, g.q) && Grows(f.q, g.q)
  {
    hide Inv, RunCall, Exec, Reserved, Linked, Items, Grows, Meanwhile;
    ExecMeanwhile(f.q, w.call.before);
    MeanwhileKeeps(f.q, Exec(f.q, w.call.before));
    MeanwhileSound(f.q, Exec(f.q, w.call.before));
    if f.restoring.None? {
      CallAdds(f.q, FanAuto, w.call);
      QuietCallKeepsStock(f.q, FanAuto, Some(FanAuto), w.call);
      var q := RunCall(f.q, FanAuto, Some(FanAuto), COMMAND_TIMEOUT, w.call).0;
      ExecMeanwhile(q, w.publish);
      MeanwhileKeeps(q, Exec(q, w.publish));
      MeanwhileSound(q, Exec(q, w.publish));
      NoManualTransitive(f.q, q, Exec(q, w.publish));
      GrowsTransitive(f.q, q, Exec(q, w.publish));
    }
  }

  lemma AfterAdds(f: Fan, exit: Exit, w: ManualWait)
    requires Recorded(f) && ForeignManual(w) && exit != Value(true) && !exit.Cancelled?
    ensures var (g, e) := AfterCommand(f, exit, w);
            && e != Applied
            && (e == CancelRaised || e == CancelledInHandler <==> !exit.TimedOut? && RestoreCut(f, w.cleanup))
            && (e != CancelRaised ==> AddsNoManual(f.q, g.q) && Grows(f.q, g.q))
            && (exit.TimedOut? ==> g.q == f.q)
  {
    hide Sound, Reserved, RestoreFanAuto, RestoreCut, AddsNoManual, Grows;
    NothingAdded(f.q);
    GrowsSame(f.q);
    RestoreCutIff(f, w.cleanup);
    RestoreAdds(f, w.cleanup);
  }

  // -- The manual-speed sequence --------------------------------------------------------------------

  lemma CommandTold(f: Fan, call: HwCall, w: Wait)
    requires Recorded(f) && Foreign(w.before) && Manual(call)
    ensures var (g, exit) := RunFanCommand(f, call, w); var items := Items(g.q.enqueued);
            && Grows(f.q, g.q) && Items(f.q.enqueued) <= items
            && (exit.Cancelled? <==> CallCut(f.q, w))
            && (!call.FanSpeed? ==> Refuted(f.q, g.q))
            && (exit == Value(true) ==>
                  |Items(f.q.enqueued)| < |items| && items[|items| - 1].call == call && Told(g.q, |items| - 1))
            && (exit != Value(true) && !exit.Cancelled? ==>
                  !SpeedTold(f.q, g.q) && (!exit.TimedOut? ==> Refuted(f.q, g.q)))
  {
    hide Inv, RunCall, RunFanCommand, Grows, Items, SpeedTold, Refuted, Reserved, Linked, CallCut, Told;
    CommandQueueOnly(f, call, w);
    WriteTold(f.q, call, w);
    CallAdds(f.q, call, w);
    CutIff(f.q, call, w);
  }

  lemma RefutedNotTold(q: State, t: State)
    requires Refuted(q, t)
    ensures !SpeedTold(q, t)
  {
  }

  lemma NotToldNotWritten(q: State, t: State, speed: int)
    requires !SpeedTold(q, t)
    ensures !Wrote(q, t, speed)
  {
  }

  /** After a command that was not confirmed, nor cancelled, and its clean-up: no speed was. */
  lemma FailedWroteNothing(q: State, f: Fan, exit: Exit, w: ManualWait)
    requires Recorded(f) && ForeignManual(w) && exit != Value(true) && !exit.Cancelled?
    requires !SpeedTold(q, f.q) && (!exit.TimedOut? ==> Refuted(q, f.q))
    ensures var (g, e) := AfterCommand(f, exit, w); e != CancelRaised ==> !SpeedTold(q, g.q)
  {
    hide Sound, Reserved, Items, Grows, AfterCommand, SpeedTold, Refuted, RestoreCut;
    AfterAdds(f, exit, w);
    var (g, e) := AfterCommand(f, exit, w);
    if e != CancelRaised && !exit.TimedOut? {
      NoManualRefuted(f.q, g.q);
      RefutedThen(q, f.q, g.q);
      RefutedNotTold(q, g.q);
    }
  }

  /** The sequence raises a cancellation exactly when the schedule cuts it; otherwise it applies exactly
      when both writes were confirmed. */
  lemma ApplyTold(f: Fan, speed: int, w: ManualWait)
    requires Recorded(f) && ForeignManual(w)
    ensures var (g, exit) := ApplyManualSpeed(f, speed, w);
            && (exit == CancelRaised || exit == CancelledInHandler <==> SequenceCut(f, speed, w))
            && (!SequenceCut(f, speed, w) ==> (exit == Applied <==> Wrote(f.q, g.q, speed)))
  {
    hide Sound, Reserved, RunFanCommand, AfterCommand, CallCut, RestoreCut, CommandLost, Wrote, SpeedTold, Refuted,
        Grows, Items, Told;
    CommandExact(f, FanManual, w.mode);
    CommandTold(f, FanManual, w.mode);
    var (g, mode) := RunFanCommand(f, FanManual, w.mode);
    if mode.Cancelled? {
      CancelAlwaysRaises(g, w);
    } else if mode != Value(true) {
      AfterAdds(g, mode, w);
      FailedWroteNothing(f.q, g, mode, w);
      if AfterCommand(g, mode, w).1 != CancelRaised {
        NotToldNotWritten(f.q, AfterCommand(g, mode, w).0.q, speed);
      }
    } else {
      CommandExact(g, FanSpeed(speed), w.speed);
      CommandTold(g, FanSpeed(speed), w.speed);
      var (h, written) := RunFanCommand(g, FanSpeed(speed), w.speed);
      RefutedThen(f.q, g.q, h.q);
      if written.Cancelled? {
        CancelAlwaysRaises(h, w);
      } else if written != Value(true) {
        AfterAdds(h, written, w);
        FailedWroteNothing(f.q, h, written, w);
        if AfterCommand(h, written, w).1 != CancelRaised {
          NotToldNotWritten(f.q, AfterCommand(h, written, w).0.q, speed);
        }
      } else {
        BothTold(f.q, g.q, h.q, speed);
      }
    }
  }

  lemma CancelAlwaysRaises(f: Fan, w: ManualWait)
    ensures AfterCommand(f, Cancelled, w).1 == CancelRaised
  {
  }

  lemma BothTold(q: State, t: State, u: State, speed: int)
    requires Items(q.enqueued) <= Items(t.enqueued) <= Items(u.enqueued) && Grows(t, u)
    requires |Items(q.enqueued)| < |Items(t.enqueued)| < |Items(u.enqueued)|
    requires var m := |Items(t.enqueued)| - 1; Items(t.enqueued)[m].call == FanManual && Told(t, m)
    requires var k := |Items(u.enqueued)| - 1; Items(u.enqueued)[k].call == FanSpeed(speed) && Told(u, k)
    ensures Wrote(q, u, speed)
  {
    hide Items;
    var items := Items(u.enqueued);
    var m, k := |Items(t.enqueued)| - 1, |items| - 1;
    assert items[m].call == FanManual && items[k].call == FanSpeed(speed) && Told(u, m) && Told(u, k);
  }

  lemma WroteStays(q: State, t: State, u: State, speed: int)
    requires Wrote(q, t, speed) && Grows(t, u) && Items(t.enqueued) <= Items(u.enqueued)
    ensures Wrote(q, u, speed)
  {
    hide Items;
    var before, items := Items(t.enqueued), Items(u.enqueued);
    var m, k :| |Items(q.enqueued)| <= m < k < |before| &&
      before[m].call == FanManual && before[k].call == FanSpeed(speed) && Told(t, m) && Told(t, k);
    assert items[m].call == FanManual && items[k].call == FanSpeed(speed) && Told(u, m) && Told(u, k);
  }

  // -- The answer ----------------------------------------------------------------------------------------

  /** The answer of `set_fan_manual`, for every schedule, from what it leaves behind. It raises exactly
      when it is cancelled. Otherwise both writes stand confirmed exactly when it answers success, or
      that only the watchdog failed; short of that it answers that a restoration is queued exactly when
      one is awaited, which is then a stock-auto request with no manual write behind it; that
      restoration failed exactly when none is awaited and an error is on record; and plain failure
      exactly when there is neither, and then the controller is in stock auto. */
  lemma OverrideAnswers(f: Fan, op: Op)
    requires Recorded(f) && op.SetManual? && ForeignOp(op)
    ensures var (g, code) := SetFanManual(f, op.speed, op.w, op.watchdogStarts, op.fallback);
            var wrote := Wrote(f.q, g.q, op.speed);
            && (code == Raises <==> OverrideCut(f, op))
            && (code == Success <==> code != Raises && wrote && op.watchdogStarts)
            && (code == WatchdogFailed <==> code != Raises && wrote && !op.watchdogStarts)
            && (code == RestorePending <==> code != Raises && !wrote && g.restoring.Some?)
            && (code == RestoreFailed <==> code != Raises && !wrote && g.restoring.None? && g.error)
            && (code == ManualFailed <==> code != Raises && !wrote && g.restoring.None? && !g.error)
            && (code == RestorePending ==> Reserved(g.q, g.restoring.value))
            && (code == ManualFailed ==> StockAuto(g.q))
            && g.control == (if code == Success then Override else Nobody)
            && (code == Success ==> !g.error && g.restoring.None?)
  {
    hide Sound, Reserved, StockAuto, ApplyManualSpeed, RestoreFanAuto, SequenceCut, RestoreCut, ApplyLost, Wrote,
        Items, Grows, RestoreLost, SequenceAdopts;
    ApplyExact(f, op.speed, op.w);
    ApplyTold(f, op.speed, op.w);
    SequenceRecordedIff(f, op.speed, op.w);
    var (g, exit) := ApplyManualSpeed(f, op.speed, op.w);
    if exit == Applied && !op.watchdogStarts {
      var c := g.(error := false);
      SameRecord(g, c);
      RestoreCutIff(c, op.fallback);
      RestoreAdds(c, op.fallback);
      WroteStays(f.q, g.q, RestoreFanAuto(c, op.fallback).0.q, op.speed);
    }
  }

  // -- The other operations -------------------------------------------------------------------------------

  /** The answer that a call of run gets back from the hardware, if the queue admits it and the schedule
      lets it arrive in time. */
  function CallSees(q: State, w: Wait): Option<HwResult> {
    if LostWaiting(q, w) || !Admits(LockAcquired(q, w.before)) then None else Seen(w.during, Queued)
  }

  lemma ValueIff(q: State, call: HwCall, recovery: Option<HwCall>, w: Wait)
    requires Inv(q)
    ensures var exit := RunCall(q, call, recovery, COMMAND_TIMEOUT, w).1;
            forall b :: exit == Value(b) <==> CallSees(q, w) == Some(Returned(b))
  {
    hide Inv, RunCall, Exec, LockAcquired, Items, Grows, Leaves, CommandQueue.Cut, Seen;
    RunCallLeaves(q, call, recovery, COMMAND_TIMEOUT, w);
    RefusalIff(q, call, recovery, COMMAND_TIMEOUT, w);
    if !LostWaiting(q, w) && Admits(LockAcquired(q, w.before)) {
      AdmittedExitIff(q, call, recovery, COMMAND_TIMEOUT, w);
    }
  }

  lemma CommandAnswers(f: Fan, call: HwCall, w: Wait)
    requires Recorded(f)
    ensures var exit := RunFanCommand(f, call, w).1;
            && (forall b :: exit == Value(b) <==> CallSees(f.q, w) == Some(Returned(b)))
            && (exit.Cancelled? <==> CallCut(f.q, w))
  {
    hide Inv, RunCall, RunFanCommand, Reserved, Linked, CallCut, CallSees;
    CommandQueueOnly(f, call, w);
    ValueIff(f.q, call, Some(FanAuto), w);
    CutIff(f.q, call, w);
  }

  /** A restoration answers yes exactly when a confirmation has arrived: that of the request already
      awaited, or else that of its own. */
  lemma RestoreAnswers(f: Fan, w: FanWait)
    requires Recorded(f)
    ensures var (g, r) := RestoreFanAuto(f, w);
            && (r == RestoreCancelled <==> RestoreCut(f, w))
            && (r == Restored <==>
                  if f.restoring.Some? then !w.call.cancelled && Told(g.q, f.restoring.value)
                  else CallSees(f.q, w.call) == Some(Returned(true)))
  {
    hide Inv, RunCall, Exec, Reserved, Linked, CallSees, CallCut;
    RestoreCutIff(f, w);
    ValueIff(f.q, FanAuto, Some(FanAuto), w.call);
  }

  /** A stock-auto request answers yes exactly when the controller's confirmation has arrived. */
  lemma StockAnswers(f: Fan, w: Wait, stop: Option<FanWait>)
    requires Recorded(f)
    ensures RequestStock(f, w, stop).1 <==> CallSees(f.q, w) == Some(Returned(true))
  {
    hide Inv, RunCall, RestoreFanAuto, Reserved, Linked, CallSees;
    ValueIff(f.q, FanAuto, None, w);
  }

  /** A reading between 1 and 150 degrees. */
  predicate Believed(temp: Option<int>) {
    temp.Some? && 1_000 <= temp.value <= 150_000
  }

  /** The speed that a poll writes, if one: full from 95 degrees and 80 from 90, over a lower target. */
  function Raise(temp: Option<int>, target: int): Option<int> {
    if !Believed(temp) then None
    else if temp.value >= 95_000 then if target < 100 then Some(100) else None
    else if temp.value >= 90_000 then if target < 80 then Some(80) else None
    else if target < 0 then Some(0) else None
  }

  /** How one pass of the watchdog ends, for every schedule, from the answers it gets. It goes on exactly
      when a believable temperature arrives and no speed has to be raised, or the raise is confirmed. */
  lemma WatchAnswers(f: Fan, target: int, k: Wake)
    requires Recorded(f) && ForeignWake(k)
    ensures var e := PollWatchdog(f, target, k).1; var g := RunFanCommand(f, ReadTemp, k.read).0;
            var read := !k.closing && CallSees(f.q, k.read).Some? && CallSees(f.q, k.read).value.Returned?;
            var raise := Raise(k.temp, target);
            && (e == Closing <==> k.closing)
            && (e == Held <==> read && Believed(k.temp) && raise.None?)
            && (e == BadTemperature <==> read && !Believed(k.temp) && !RestoreCut(g, k.cleanup))
            && (forall speed :: e == Lifted(speed) <==>
                  read && raise == Some(speed) && CallSees(g.q, k.write) == Some(Returned(true)))
            && (e == WriteRefused <==>
                  && read && raise.Some? && CallSees(g.q, k.write) == Some(Returned(false))
                  && !RestoreCut(RunFanCommand(g, FanSpeed(raise.value), k.write).0, k.cleanup))
            && e != Expired
  {
    hide Sound, Reserved, RunFanCommand, RestoreFanAuto, CallSees, CallCut, RestoreCut, CommandLost, Foreign;
    CommandExact(f, ReadTemp, k.read);
    CommandAnswers(f, ReadTemp, k.read);
    var (g, exit) := RunFanCommand(f, ReadTemp, k.read);
    if !k.closing && !exit.Cancelled? {
      RestoreCutIff(g, k.cleanup);
      var raise := Raise(k.temp, target);
      if exit.Value? && raise.Some? {
        CommandExact(g, FanSpeed(raise.value), k.write);
        CommandAnswers(g, FanSpeed(raise.value), k.write);
        var (h, written) := RunFanCommand(g, FanSpeed(raise.value), k.write);
        if !written.Cancelled? {
          RestoreCutIff(h, k.cleanup);
        }
      }
    }
  }

  /** How one pass of the curve loop ends, for every schedule: passed over exactly when another mode, an
      error or a restoration stands in the way; it keeps a speed only on a usable reading with nothing to
      write, and reports a write exactly when mode and speed stand confirmed. A failed pass gives up
      exactly on the third. */
  lemma CurveAnswers(f: Fan, t: CurveWake)
    requires Recorded(f) && ForeignCurve(t)
    ensures var (h, e) := PollCurve(f, t); var g := RunFanCommand(f, ReadTemp, t.read).0;
            var turn := !f.control.Override? && !f.error && f.restoring.None?;
            var read := turn && CallSees(f.q, t.read).Some? && CallSees(f.q, t.read).value.Returned?;
            && (e == PassedOver <==> !turn)
            && (e == Kept <==> read && t.usable && t.speed.None?)
            && (e == CurveExit.Wrote <==>
                  && read && t.usable && t.speed.Some? && !SequenceCut(g, t.speed.value, t.apply)
                  && Wrote(g.q, ApplyManualSpeed(g, t.speed.value, t.apply).0.q, t.speed.value))
            && (e == Failed ==> !t.third) && (e == GaveUp ==> t.third)
            && (e == CurveExit.Cut ==>
                  || CallCut(f.q, t.read) || t.third
                  || (read && t.usable && t.speed.Some? && SequenceCut(g, t.speed.value, t.apply)))
  {
    hide Sound, Reserved, RunFanCommand, RestoreFanAuto, CallSees, CallCut, RestoreCut, CommandLost, SequenceCut,
        Wrote, ApplyManualSpeed, ApplyLost;
    CommandExact(f, ReadTemp, t.read);
    CommandAnswers(f, ReadTemp, t.read);
    var (g, exit) := RunFanCommand(f, ReadTemp, t.read);
    if exit.Value? && t.usable && t.speed.Some? {
      ApplyTold(g, t.speed.value, t.apply);
    }
  }
}
