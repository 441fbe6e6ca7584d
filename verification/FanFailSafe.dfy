/** The fan fail-safe built on the command queue: whatever becomes of a manual-speed request,
the embedded controller is back in stock auto, or a restoration is queued, or an error is on
record. */
module FanFailSafe {
  import opened Wrappers
  import opened CommandQueue

  // -- What the hardware trace says about the embedded controller ------------------------

  predicate Manual(call: HwCall) {
    call.FanManual? || call.FanSpeed?
  }

  /** After these calls the controller is in stock auto: a confirmed auto request follows the
      last manual write. A refused or raising manual write counts as a write. */
  predicate Stock(trace: seq<Completed>) {
    if trace == [] then true
    else
      var last := trace[|trace| - 1];
      if Manual(last.item.call) then false
      else (last.item.call.FanAuto? && last.result == Returned(true)) || Stock(trace[..|trace| - 1])
  }

  /** Stock auto now, and no manual write is running or waiting to run. */
  ghost predicate StockAuto(q: State) {
    var items := Items(q.enqueued);
    && Stock(q.trace)
    && forall i | |q.trace| <= i < |items| :: !Manual(items[i].call)
  }

  /** Item f is an auto request, and no manual write stands behind it. */
  ghost predicate Reserved(q: State, f: nat) {
    var items := Items(q.enqueued);
    && f < |items| && items[f].call.FanAuto?
    && forall i | f < i < |items| :: !Manual(items[i].call)
  }

  // -- What the rest of the daemon does to the queue meanwhile ----------------------------

  /** Other tasks submit their own calls without a recovery: every fan command is issued under
      the mutation lock, which the operations below hold. */
  predicate ForeignAction(a: Action) {
    a.Submit? ==> a.call.OtherCall? && a.recovery.None?
  }

  predicate Foreign(actions: seq<Action>) {
    forall i | 0 <= i < |actions| :: ForeignAction(actions[i])
  }

  predicate Quiet(q: State) {
    q.active.Some? ==> q.active.value.recovery.None?
  }

  lemma StockAppend(trace: seq<Completed>, c: Completed)
    ensures Stock(trace + [c]) ==
            (!Manual(c.item.call) && ((c.item.call.FanAuto? && c.result == Returned(true)) || Stock(trace)))
  {
    assert (trace + [c])[..|trace|] == trace;
  }

  /** The items that an interleaving adds have nothing to do with the fan. */
  ghost predicate AddsHarmless(q: State, t: State) {
    && Items(q.enqueued) <= Items(t.enqueued)
    && forall i | |Items(q.enqueued)| <= i < |Items(t.enqueued)| :: Items(t.enqueued)[i].call.OtherCall?
  }

  lemma AppendHarmless(enqueued: seq<Request>, r: Request)
    requires r.Work? ==> r.item.call.OtherCall?
    ensures var longer := Items(enqueued + [r]); var items := Items(enqueued);
            && items <= longer
            && forall i | |items| <= i < |longer| :: longer[i].call.OtherCall?
  {
    ItemsConcat(enqueued, [r]);
    assert Items([r]) == if r.Work? then [r.item] else [];
  }

  lemma ForeignStep(q: State, a: Action)
    requires Quiet(q) && ForeignAction(a)
    ensures Quiet(Step(q, a)) && AddsHarmless(q, Step(q, a))
  {
    var t := Step(q, a);
    if t.enqueued != q.enqueued {
      var r := t.enqueued[|q.enqueued|];
      assert t.enqueued == q.enqueued + [r];
      AppendHarmless(q.enqueued, r);
    }
  }

  lemma {:induction false} ForeignExec(q: State, actions: seq<Action>)
    requires Quiet(q) && Foreign(actions)
    ensures Quiet(Exec(q, actions)) && AddsHarmless(q, Exec(q, actions))
    decreases |actions|
  {
    if actions != [] {
      ForeignStep(q, actions[0]);
      ForeignExec(Step(q, actions[0]), actions[1..]);
    }
  }

  /** A trace that grows by harmless calls stays in stock auto. */
  lemma {:induction false} StockGrows(short: seq<Completed>, long: seq<Completed>)
    requires short <= long && Stock(short)
    requires forall i | |short| <= i < |long| :: !Manual(long[i].item.call)
    ensures Stock(long)
    decreases |long|
  {
    if |short| < |long| {
      StockGrows(short, long[..|long| - 1]);
    } else {
      assert short == long;
    }
  }

  /** None of the items added is a manual write. */
  ghost predicate AddsNoManual(q: State, t: State) {
    && Items(q.enqueued) <= Items(t.enqueued)
    && forall i | |Items(q.enqueued)| <= i < |Items(t.enqueued)| :: !Manual(Items(t.enqueued)[i].call)
  }

  lemma NoManualKeepsStock(q: State, t: State)
    requires Inv(t) && Grows(q, t) && AddsNoManual(q, t) && StockAuto(q)
    ensures StockAuto(t)
  {
    TraceIsItems(t);
    hide Inv, Items, Stock;
    var before, items := Items(q.enqueued), Items(t.enqueued);
    assert forall i | 0 <= i < |before| :: items[i] == before[i];
    assert forall i | |q.trace| <= i < |items| :: !Manual(items[i].call);
    StockGrows(q.trace, t.trace);
  }

  lemma NoManualKeepsReserved(q: State, t: State, f: nat)
    requires AddsNoManual(q, t) && Reserved(q, f)
    ensures Reserved(t, f)
  {
    hide Items;
    var before, items := Items(q.enqueued), Items(t.enqueued);
    assert forall i | 0 <= i < |before| :: items[i] == before[i];
  }

  /** What other tasks, the worker and the loop may make of the queue. */
  ghost predicate Meanwhile(q: State, t: State) {
    && Inv(t) && Quiet(t) && Grows(q, t) && AddsHarmless(q, t)
    && (q.timedOut.Some? && !Done(t, q.timedOut.value) ==> t.timedOut == q.timedOut)
  }

  lemma ExecMeanwhile(q: State, actions: seq<Action>)
    requires Inv(q) && Quiet(q) && Foreign(actions)
    ensures Meanwhile(q, Exec(q, actions))
  {
    hide Inv, Items, Exec;
    ExecKeeps(q, actions);
    HistoryGrows(q, actions);
    ForeignExec(q, actions);
    if q.timedOut.Some? && !Done(Exec(q, actions), q.timedOut.value) {
      PoisonHasNoWaiter(q);
      StaysPoisoned(q, actions);
    }
  }

  lemma PoisonHasNoWaiter(q: State)
    requires Inv(q) && q.timedOut.Some?
    ensures q.active.None?
  {
  }

  lemma LockIsExec(q: State, before: seq<Action>)
    ensures LockAcquired(q, before) == Exec(q, before + [Wake, Deadline])
  {
    var s := Exec(q, before);
    ExecConcat(q, before, [Wake, Deadline]);
    assert [Wake, Deadline][1..] == [Deadline] && [Deadline][1..] == [];
    assert Exec(s, [Wake, Deadline]) == Exec(Step(s, Wake), [Deadline]);
  }

  lemma LockMeanwhile(q: State, before: seq<Action>)
    requires Inv(q) && Quiet(q) && Foreign(before)
    ensures Meanwhile(q, LockAcquired(q, before))
  {
    hide Inv, Exec, LockAcquired, Meanwhile;
    LockIsExec(q, before);
    ExecMeanwhile(q, before + [Wake, Deadline]);
  }

  /** What the environment does neither leaves stock auto nor loses a reservation. */
  lemma MeanwhileKeeps(q: State, t: State)
    requires Meanwhile(q, t)
    ensures StockAuto(q) ==> StockAuto(t)
    ensures forall f | Reserved(q, f) :: Reserved(t, f)
    ensures AddsNoManual(q, t)
  {
    hide Inv, StockAuto, Reserved, Grows, Items;
    if StockAuto(q) {
      NoManualKeepsStock(q, t);
    }
    forall f | Reserved(q, f) ensures Reserved(t, f) {
      NoManualKeepsReserved(q, t, f);
    }
  }

  /** Once a reserved auto request has completed truthily, the controller is in stock auto. */
  lemma ReservedDone(q: State, f: nat)
    requires Inv(q) && Reserved(q, f) && Done(q, f) && q.futures[f] == Returned(true)
    ensures StockAuto(q)
  {
    TraceIsItems(q);
    StockAppend(q.trace[..f], q.trace[f]);
    assert q.trace[..f + 1] == q.trace[..f] + [q.trace[f]];
    StockGrows(q.trace[..f + 1], q.trace);
  }

  // -- The fan layer -----------------------------------------------------------------------

  /** Whose manual speed the controller is meant to hold. */
  datatype Control = Nobody | Override | Curve

  /** `_fan_fail_safe_error` (as whether it is non-empty), the unfinished recovery task with the
      future it awaits (`_fan_restore_pending` is whether there is one), and who is in control. */
  datatype Fan = Fan(q: State, error: bool, restoring: Option<nat>, control: Control)

  /** What happens around one restoration or fan command: the queue's part, then the loop's
      while the failed-safe state is published, and whether the recovery task ran by then. */
  datatype FanWait = FanWait(call: Wait, publish: seq<Action>, observed: bool)

  const COMMAND_TIMEOUT := 10.0

  /** The fan layer at process start. */
  const FRESH := Fan(INITIAL, false, None, Nobody)

  function Track(f: Fan, future: Option<nat>): Fan {
    if future.None? || f.restoring.Some? then f
    else f.(restoring := future, error := true)
  }

  /** `_complete_fan_timeout_recovery`, once its future is done. */
  function CompleteRecovery(f: Fan): Fan {
    if f.restoring.None? || !Done(f.q, f.restoring.value) then f
    else f.(restoring := None, error := f.q.futures[f.restoring.value] != Returned(true))
  }

  /** `_run_fan_command`: any fan call, with stock auto reserved behind it. A recovery task whose
      future was done by then has resumed. */
  function RunFanCommand(f: Fan, call: HwCall, w: Wait): (Fan, Exit) {
    var (q, exit) := RunCall(f.q, call, Some(FanAuto), COMMAND_TIMEOUT, w);
    var g := CompleteRecovery(f.(q := q));
    (match exit
     case TimedOut(recovery) => Track(g, recovery)
     case Cancelled => Track(g, q.timedOut)
     case _ => g,
     exit)
  }

  datatype RestoreExit = Restored | NotRestored | RestoreCancelled

  /** `_restore_fan_auto`. */
  function RestoreFanAuto(f: Fan, w: FanWait): (Fan, RestoreExit) {
    if f.restoring.Some? then
      var g := f.(q := Exec(f.q, w.call.before));
      if w.call.cancelled then (g, RestoreCancelled)
      else if Done(g.q, f.restoring.value) then
        var h := CompleteRecovery(g);
        (h, if h.error then NotRestored else Restored)
      else (g.(error := true), NotRestored)
    else
      var (q, exit) := RunCall(f.q, FanAuto, Some(FanAuto), COMMAND_TIMEOUT, w.call);
      var g := f.(q := q);
      match exit
      case Cancelled => (g, RestoreCancelled)
      case Value(true) => (g.(error := false), Restored)
      case TimedOut(recovery) =>
        var h := Track(g, recovery).(error := true, q := Exec(q, w.publish));
        (if w.observed then CompleteRecovery(h) else h, NotRestored)
      case _ => (g.(error := true), NotRestored)
  }

  datatype ManualWait = ManualWait(mode: Wait, speed: Wait, cleanup: FanWait, shielded: FanWait)

  datatype ApplyExit =
    | Applied
    | Rejected            // returned False
    | TimeoutRaised
    | CancelRaised
    | ErrorRaised
    | CancelledInHandler  // cancelled while the `except Exception` handler restores

  /** asyncio.shield: the inner call is not cancelled. */
  function Shield(w: FanWait): FanWait {
    w.(call := w.call.(cancelled := false, during := Uncancelled(w.call.during)))
  }

  function Uncancelled(actions: seq<Action>): seq<Action> {
    if actions == [] then []
    else (if actions[0] == Cancel then [] else [actions[0]]) + Uncancelled(actions[1..])
  }

  function AfterCancel(f: Fan, w: ManualWait): (Fan, ApplyExit) {
    (if f.restoring.Some? then f else RestoreFanAuto(f, Shield(w.shielded)).0, CancelRaised)
  }

  function AfterRefusal(f: Fan, w: ManualWait): (Fan, ApplyExit) {
    var (g, r) := RestoreFanAuto(f, w.cleanup);
    if r.RestoreCancelled? then AfterCancel(g, w) else (g, Rejected)
  }

  function AfterError(f: Fan, w: ManualWait): (Fan, ApplyExit) {
    var (g, r) := RestoreFanAuto(f, w.cleanup);
    (g, if r.RestoreCancelled? then CancelledInHandler else ErrorRaised)
  }

  /** What `_apply_manual_fan_speed` does when one of its two commands did not return True. */
  function AfterCommand(f: Fan, exit: Exit, w: ManualWait): (Fan, ApplyExit)
    requires exit != Value(true)
  {
    match exit
    case Value(_) => AfterRefusal(f, w)
    case TimedOut(_) => (f, TimeoutRaised)
    case Cancelled => AfterCancel(f, w)
    case _ => AfterError(f, w)
  }

  /** `_apply_manual_fan_speed`. */
  function ApplyManualSpeed(f: Fan, speed: int, w: ManualWait): (Fan, ApplyExit) {
    var (g, mode) := RunFanCommand(f, FanManual, w.mode);
    if mode != Value(true) then AfterCommand(g, mode, w)
    else
      var (h, written) := RunFanCommand(g, FanSpeed(speed), w.speed);
      if written != Value(true) then AfterCommand(h, written, w) else (h, Applied)
  }

  // -- The record is honest ------------------------------------------------------------------

  /** A pending restoration is a queued auto request with no manual write behind it; with none
      pending, an empty record means stock auto. */
  ghost predicate Accounted(f: Fan) {
    if f.restoring.Some? then Reserved(f.q, f.restoring.value) else f.error || StockAuto(f.q)
  }

  /** The recovery that is awaited poisons the queue until it is done. */
  predicate Linked(f: Fan) {
    f.restoring.Some? && !Done(f.q, f.restoring.value) ==> f.q.timedOut == f.restoring
  }

  ghost predicate Sound(f: Fan) {
    Inv(f.q) && Quiet(f.q) && Linked(f)
  }

  /** Sound, and a pending restoration is what it claims to be. */
  ghost predicate Recorded(f: Fan) {
    Sound(f) && (f.restoring.Some? ==> Reserved(f.q, f.restoring.value))
  }

  predicate ForeignWait(w: FanWait) {
    Foreign(w.call.before) && Foreign(w.publish)
  }

  predicate ForeignManual(w: ManualWait) {
    Foreign(w.mode.before) && Foreign(w.speed.before) && ForeignWait(w.cleanup) && ForeignWait(w.shielded)
  }

  // -- What the schedule can spoil ---------------------------------------------------------------

  /** The hardware had confirmed the call. */
  predicate Confirmed(p: Progress) {
    (p.Answered? || p.Arrived?) && p.result == Returned(true)
  }

  /** A restoration that the schedule cancels to no effect: nothing is on record, and the controller
      was not in stock auto before nor was the auto request confirmed by then. */
  ghost predicate RestoreLost(f: Fan, w: FanWait) {
    && f.restoring.None? && !f.error
    && if LostWaiting(f.q, w.call) then !StockAuto(Exec(f.q, w.call.before))
       else
         var locked := LockAcquired(f.q, w.call.before); var cut := Cut(w.call.during, Queued);
         Admits(locked) && cut.Some? && !Confirmed(cut.value) && !Stock(locked.trace)
  }

  /** A fan command cancelled while it waits for the queue lock, at a moment when the queue is
      poisoned by something that is not a stock-auto request. */
  ghost predicate CommandLost(f: Fan, w: Wait) {
    && LostWaiting(f.q, w)
    && var g := CompleteRecovery(f.(q := Exec(f.q, w.before)));
       g.restoring.None? && g.q.timedOut.Some? && !Reserved(g.q, g.q.timedOut.value)
  }

  /** The `except Exception` handler's restoration is lost. */
  ghost predicate AfterLost(f: Fan, exit: Exit, w: ManualWait) {
    (exit.Failure? || exit.Busy? || exit.Unavailable?) && RestoreLost(f, w.cleanup)
  }

  /** One of the two commands, or the handler behind it, is lost. */
  ghost predicate ApplyLost(f: Fan, speed: int, w: ManualWait) {
    var (g, mode) := RunFanCommand(f, FanManual, w.mode);
    || CommandLost(f, w.mode)
    || if mode != Value(true) then AfterLost(g, mode, w)
       else
         var (h, written) := RunFanCommand(g, FanSpeed(speed), w.speed);
         CommandLost(g, w.speed) || AfterLost(h, written, w)
  }

  lemma FanMeanwhile(f: Fan, t: State)
    requires Recorded(f) && Meanwhile(f.q, t)
    ensures Recorded(f.(q := t)) && Recorded(CompleteRecovery(f.(q := t)))
    ensures f.restoring.Some? ==> Accounted(CompleteRecovery(f.(q := t)))
    ensures Accounted(f) ==> Accounted(f.(q := t))
  {
    MeanwhileKeeps(f.q, t);
    hide Inv, Items, StockAuto, Reserved;
    if f.restoring.Some? && Done(t, f.restoring.value) && t.futures[f.restoring.value] == Returned(true) {
      ReservedDone(t, f.restoring.value);
    }
  }

  /** A fan call that gave up left an auto request as the last item on the queue. */
  lemma LastIsReserved(items: seq<Item>, waiter: Waiter, t: State)
    requires waiter.recovery == Some(FanAuto) && |items| == waiter.item.future + 1
    requires Leaves(items, waiter, t, TimedOut(t.timedOut))
    ensures t.timedOut == Some(|items|) && Reserved(t, |items|)
  {
    hide Items;
  }

  /** How a fan call leaves the queue once it has been admitted. */
  lemma AdmittedLeaves(q: State, call: HwCall, w: Wait)
    requires Inv(q) && !LostWaiting(q, w)
    requires var exit := RunCall(q, call, Some(FanAuto), COMMAND_TIMEOUT, w).1; !exit.Busy? && !exit.Unavailable?
    ensures var (t, exit) := RunCall(q, call, Some(FanAuto), COMMAND_TIMEOUT, w);
            var locked := LockAcquired(q, w.before); var items := Items(locked.enqueued);
            && Inv(t) && t.active.None? && Grows(locked, t) && Admits(locked)
            && items + [Item(|items|, call)] <= Items(t.enqueued)
            && (t.timedOut.Some? ==> Reserved(t, t.timedOut.value))
            && (exit.TimedOut? ==> exit.recovery == t.timedOut && t.timedOut.Some?)
            && (exit.Value? || exit.Failure? ==>
                  && t.timedOut.None? && Items(t.enqueued) == items + [Item(|items|, call)]
                  && Done(t, |items|) && |t.trace| == |items| + 1)
            && (exit.Value? ==> t.futures[|items|] == Returned(exit.truthy))
            && (forall i | |items| < i < |Items(t.enqueued)| :: Items(t.enqueued)[i].call.FanAuto?)
  {
    hide Inv, Items, RunCall, LockAcquired, Grows, Reserved;
    RunCallLeaves(q, call, Some(FanAuto), COMMAND_TIMEOUT, w);
    AdmittedOrRefused(q, call, Some(FanAuto), w);
    var t := RunCall(q, call, Some(FanAuto), COMMAND_TIMEOUT, w).0;
    var items := Items(LockAcquired(q, w.before).enqueued);
    var item := Item(|items|, call);
    if t.timedOut.Some? {
      LastIsReserved(items + [item], Waiter(item, Some(FanAuto)), t);
    }
  }

  lemma AdmittedOrRefused(q: State, call: HwCall, recovery: Option<HwCall>, w: Wait)
    requires !LostWaiting(q, w)
    ensures var exit := RunCall(q, call, recovery, COMMAND_TIMEOUT, w).1;
            !exit.Busy? && !exit.Unavailable? ==> Admits(LockAcquired(q, w.before))
  {
    LockIsFree(q, w.before);
    hide LockAcquired, Await;
  }

  /** An admitted fan call finds any awaited recovery done. */
  lemma AdmittedCompletes(f: Fan, t: State, locked: State)
    requires Meanwhile(f.q, locked) && Linked(f) && Admits(locked) && Grows(locked, t)
    ensures CompleteRecovery(f.(q := t)).restoring.None?
  {
    hide Inv, Items;
  }

  /** How a fan command leaves the fan layer, for every schedule. */
  lemma CommandExact(f: Fan, call: HwCall, w: Wait)
    requires Recorded(f) && Foreign(w.before)
    ensures var (g, exit) := RunFanCommand(f, call, w);
            && Sound(g) && g.control == f.control && !exit.BadTimeout?
            && (Recorded(g) <==> !CommandLost(f, w))
            && (CommandLost(f, w) ==> exit.Cancelled? && g.restoring.Some?)
            && (exit.TimedOut? ==> g.restoring.Some?)
            && (exit.Value? || exit.Failure? ==> g.restoring.None?)
            && (f.restoring.None? && g.restoring.None? ==> g.error == f.error)
            && ((exit.TimedOut? || f.restoring.None?) && g.restoring.Some? ==> g.error)
  {
    hide Inv, Items, Reserved, RunCall, Exec, LockAcquired, Leaves, Meanwhile, Grows;
    RunCallLeaves(f.q, call, Some(FanAuto), COMMAND_TIMEOUT, w);
    ExecMeanwhile(f.q, w.before);
    LockMeanwhile(f.q, w.before);
    var (t, exit) := RunCall(f.q, call, Some(FanAuto), COMMAND_TIMEOUT, w);
    var locked := LockAcquired(f.q, w.before);
    if LostWaiting(f.q, w) {
      FanMeanwhile(f, t);
    } else if exit.Busy? || exit.Unavailable? {
      FanMeanwhile(f, t);
    } else {
      AdmittedCommand(f, call, w);
    }
  }

  lemma AdmittedCommand(f: Fan, call: HwCall, w: Wait)
    requires Recorded(f) && Foreign(w.before) && !LostWaiting(f.q, w)
    requires var exit := RunCall(f.q, call, Some(FanAuto), COMMAND_TIMEOUT, w).1; !exit.Busy? && !exit.Unavailable?
    ensures var (g, exit) := RunFanCommand(f, call, w);
            && Recorded(g) && (exit.TimedOut? ==> g.restoring.Some?)
            && (exit.Value? || exit.Failure? ==> g.restoring.None?)
            && (f.restoring.None? && g.restoring.None? ==> g.error == f.error)
            && ((exit.TimedOut? || f.restoring.None?) && g.restoring.Some? ==> g.error)
  {
    hide Inv, Items, Reserved, RunCall, Exec, LockAcquired, Meanwhile, Grows;
    AdmittedLeaves(f.q, call, w);
    LockMeanwhile(f.q, w.before);
    AdmittedCompletes(f, RunCall(f.q, call, Some(FanAuto), COMMAND_TIMEOUT, w).0, LockAcquired(f.q, w.before));
  }

  // -- Restoration, exactly --------------------------------------------------------------------

  lemma ConfirmedLast(items: seq<Item>, t: State)
    requires Inv(t) && Items(t.enqueued) == items + [Item(|items|, FanAuto)]
    requires Done(t, |items|) && t.futures[|items|] == Returned(true)
    ensures StockAuto(t)
  {
    ReservedDone(t, |items|);
  }

  lemma PendingRestoreExact(f: Fan, w: FanWait)
    requires Recorded(f) && f.restoring.Some? && ForeignWait(w)
    ensures var (g, r) := RestoreFanAuto(f, w); Recorded(g) && Accounted(g)
    ensures var (g, r) := RestoreFanAuto(f, w);
            && g.control == f.control && (r.Restored? ==> !g.error && g.restoring.None?)
            && (!r.RestoreCancelled? && g.restoring.Some? ==> g.error)
            && (r.RestoreCancelled? ==> g.error == f.error && g.restoring == f.restoring)
  {
    hide Inv, Items, Reserved, StockAuto, Exec, Meanwhile;
    ExecMeanwhile(f.q, w.call.before);
    FanMeanwhile(f, Exec(f.q, w.call.before));
  }

  /** Cancelled once it was admitted, a restoration leaves stock auto exactly when its request had
      been confirmed or the controller was there before. */
  lemma CutRestore(q: State, w: Wait)
    requires Inv(q) && Quiet(q) && Foreign(w.before) && !LostWaiting(q, w)
    requires RunCall(q, FanAuto, Some(FanAuto), COMMAND_TIMEOUT, w).1.Cancelled?
    ensures var t := RunCall(q, FanAuto, Some(FanAuto), COMMAND_TIMEOUT, w).0; var cut := Cut(w.during, Queued);
            cut.Some? && (StockAuto(t) <==> Confirmed(cut.value) || Stock(LockAcquired(q, w.before).trace))
  {
    hide Inv, Items, RunCall, LockAcquired, Grows, Exec, Stock;
    var t := RunCall(q, FanAuto, Some(FanAuto), COMMAND_TIMEOUT, w).0;
    var locked := LockAcquired(q, w.before);
    AdmittedLeaves(q, FanAuto, w);
    LockMeanwhile(q, w.before);
    CancelledIff(q, FanAuto, Some(FanAuto), COMMAND_TIMEOUT, w);
    DrainedOnAdmission(locked);
    AnsweredStock(locked.trace, Item(|locked.trace|, FanAuto), Cut(w.during, Queued).value);
    var items, before := Items(t.enqueued), Items(locked.enqueued);
    assert items[|before|] == Item(|before|, FanAuto);
    assert forall i | |locked.trace| <= i < |items| :: items[i].call.FanAuto?;
  }

  lemma DrainedOnAdmission(s: State)
    requires Inv(s) && Admits(s)
    ensures |s.trace| == |Items(s.enqueued)|
  {
    AdmittedStands(s, FanAuto, None);
  }

  lemma AnsweredStock(base: seq<Completed>, item: Item, p: Progress)
    requires item.call.FanAuto?
    ensures Stock(base + Answer(item, p)) <==> Confirmed(p) || Stock(base)
  {
    if p.Answered? || p.Arrived? {
      StockAppend(base, Completed(item, p.result));
    } else {
      assert base + [] == base;
    }
  }

  lemma UncutRestore(f: Fan, w: FanWait)
    requires Recorded(f) && f.restoring.None? && ForeignWait(w)
    requires !RunCall(f.q, FanAuto, Some(FanAuto), COMMAND_TIMEOUT, w.call).1.Cancelled?
    ensures var (g, r) := RestoreFanAuto(f, w);
            && Recorded(g) && Accounted(g) && g.control == f.control && !r.RestoreCancelled?
            && (g.restoring.Some? ==> g.error)
            && (r.Restored? ==> !g.error && g.restoring.None?)
  {
    hide Inv, Items, Reserved, RunCall, StockAuto, Exec, LockAcquired, Meanwhile, Grows, Leaves;
    RunCallLeaves(f.q, FanAuto, Some(FanAuto), COMMAND_TIMEOUT, w.call);
    LockMeanwhile(f.q, w.call.before);
    var (t, exit) := RunCall(f.q, FanAuto, Some(FanAuto), COMMAND_TIMEOUT, w.call);
    if !exit.Busy? && !exit.Unavailable? {
      AdmittedLeaves(f.q, FanAuto, w.call);
    }
    if exit == Value(true) {
      ConfirmedLast(Items(LockAcquired(f.q, w.call.before).enqueued), t);
    } else if exit.TimedOut? {
      var h := f.(q := t, restoring := t.timedOut, error := true);
      ExecMeanwhile(t, w.publish);
      FanMeanwhile(h, Exec(t, w.publish));
    }
  }

  /** What a restoration leaves, for every schedule: the record is honest exactly when the schedule
      does not lose it, and a lost one is a cancelled one. */
  lemma RestoreExact(f: Fan, w: FanWait)
    requires Recorded(f) && ForeignWait(w)
    ensures var (g, r) := RestoreFanAuto(f, w);
            && Recorded(g) && g.control == f.control
            && (Accounted(g) <==> !RestoreLost(f, w))
            && (RestoreLost(f, w) ==> r.RestoreCancelled?)
            && (r.Restored? ==> !g.error && g.restoring.None?)
            && (r.RestoreCancelled? ==> g.error == f.error && g.restoring == f.restoring)
            && (!r.RestoreCancelled? && g.restoring.Some? ==> g.error)
  {
    if f.restoring.Some? {
      PendingRestoreExact(f, w);
    } else if RunCall(f.q, FanAuto, Some(FanAuto), COMMAND_TIMEOUT, w.call).1.Cancelled? {
      CancelledRestoreExact(f, w);
    } else {
      UncutRestore(f, w);
      if !LostWaiting(f.q, w.call) {
        CancelledIff(f.q, FanAuto, Some(FanAuto), COMMAND_TIMEOUT, w.call);
      }
    }
  }

  /** A lost restoration that had been admitted leaves one of two things. If the answer of its request
      had not arrived, the queue still holds a stock-auto request with no manual write behind it, only
      nobody awaits it; if it had, nothing of the fan's is under way and the controller is given up. */
  lemma LostRestoreReservedIff(f: Fan, w: FanWait)
    requires Recorded(f) && ForeignWait(w) && RestoreLost(f, w) && !LostWaiting(f.q, w.call)
    ensures var q := RestoreFanAuto(f, w).0.q;
            && (q.timedOut.Some? && Reserved(q, q.timedOut.value) <==> !Cut(w.call.during, Queued).value.Arrived?)
            && (Cut(w.call.during, Queued).value.Arrived? ==>
                  q.timedOut.None? && |q.trace| == |Items(q.enqueued)| && !Stock(q.trace))
  {
    hide Inv, Items, RunCall, Exec, LockAcquired, Meanwhile, Grows, Stock, StockAuto, Reserved;
    CancelledIff(f.q, FanAuto, Some(FanAuto), COMMAND_TIMEOUT, w.call);
    AdmittedLeaves(f.q, FanAuto, w.call);
    LockMeanwhile(f.q, w.call.before);
    var locked := LockAcquired(f.q, w.call.before);
    var cut := Cut(w.call.during, Queued).value;
    MeanwhileInv(f.q, locked);
    DrainedOnAdmission(locked);
    AnsweredStock(locked.trace, Item(|locked.trace|, FanAuto), cut);
    if cut.Arrived? {
      RanAlone(f.q, w.call);
    }
  }

  lemma MeanwhileInv(q: State, t: State)
    requires Meanwhile(q, t)
    ensures Inv(t) && Quiet(t) && Grows(q, t)
  {
  }

  lemma RanAlone(q: State, w: Wait)
    requires Inv(q) && !LostWaiting(q, w)
    requires var (t, exit) := RunCall(q, FanAuto, Some(FanAuto), COMMAND_TIMEOUT, w);
            exit.Cancelled? && t.timedOut.None?
    ensures var t := RunCall(q, FanAuto, Some(FanAuto), COMMAND_TIMEOUT, w).0; |t.trace| == |Items(t.enqueued)|
  {
    hide Inv, Items, RunCall, LockAcquired, Grows;
    RunCallLeaves(q, FanAuto, Some(FanAuto), COMMAND_TIMEOUT, w);
  }

  lemma CancelledRestoreExact(f: Fan, w: FanWait)
    requires Recorded(f) && f.restoring.None? && ForeignWait(w)
    requires RunCall(f.q, FanAuto, Some(FanAuto), COMMAND_TIMEOUT, w.call).1.Cancelled?
    ensures var (g, r) := RestoreFanAuto(f, w);
            && Recorded(g) && g.control == f.control && r.RestoreCancelled?
            && g.error == f.error && g.restoring.None?
            && (Accounted(g) <==> !RestoreLost(f, w))
  {
    hide Inv, Items, RunCall, StockAuto, Exec, LockAcquired, Meanwhile, Grows, Leaves, Stock;
    RunCallLeaves(f.q, FanAuto, Some(FanAuto), COMMAND_TIMEOUT, w.call);
    if LostWaiting(f.q, w.call) {
      ExecMeanwhile(f.q, w.call.before);
      FanMeanwhile(f, Exec(f.q, w.call.before));
    } else {
      CancelledIff(f.q, FanAuto, Some(FanAuto), COMMAND_TIMEOUT, w.call);
      CutRestore(f.q, w.call);
    }
  }

  lemma {:induction false} ShieldedNeverCut(during: seq<Action>, p: Progress)
    ensures Cut(Uncancelled(during), p).None?
    decreases |during|
  {
    if during != [] {
      var rest := Uncancelled(during[1..]);
      if during[0] == Cancel {
        assert Uncancelled(during) == rest;
        ShieldedNeverCut(during[1..], p);
      } else {
        assert Uncancelled(during)[1..] == rest;
        ShieldedNeverCut(during[1..], p);
        ShieldedNeverCut(during[1..], Advance(p, during[0]));
      }
    }
  }

  /** A shielded restoration is never lost. */
  lemma ShieldedNeverLost(f: Fan, w: FanWait)
    ensures !RestoreLost(f, Shield(w))
  {
    ShieldedNeverCut(w.call.during, Queued);
  }

  // -- The manual-speed sequence, exactly -----------------------------------------------------

  lemma AfterCancelExact(f: Fan, w: ManualWait)
    requires Recorded(f) && ForeignManual(w)
    ensures var (g, e) := AfterCancel(f, w); Recorded(g) && Accounted(g) && g.control == f.control
  {
    hide Sound, Reserved, StockAuto, RestoreFanAuto, RestoreLost;
    RestoreExact(f, Shield(w.shielded));
    ShieldedNeverLost(f, w.shielded);
  }

  lemma AfterCommandExact(f: Fan, exit: Exit, w: ManualWait)
    requires Recorded(f) && ForeignManual(w) && exit != Value(true) && !exit.BadTimeout?
    requires exit.TimedOut? ==> f.restoring.Some?
    ensures var (g, e) := AfterCommand(f, exit, w);
            && Recorded(g) && g.control == f.control && e != Applied
            && (Accounted(g) <==> !AfterLost(f, exit, w))
            && (AfterLost(f, exit, w) ==> e == CancelledInHandler)
  {
    hide Sound, Reserved, StockAuto, RestoreFanAuto, RestoreLost;
    RestoreExact(f, w.cleanup);
    AfterCancelExact(f, w);
    AfterCancelExact(RestoreFanAuto(f, w.cleanup).0, w);
  }

  /** The manual-speed sequence against every schedule (mode refused, speed refused, exception,
      timeout, cancellation at any suspension point). A success leaves nothing pending. Any other
      exit leaves stock auto confirmed after the last manual write, or a stock-auto request queued
      with no manual write behind it, or an error on record, exactly when the schedule loses none of
      its steps. */
  lemma ApplyExact(f: Fan, speed: int, w: ManualWait)
    requires Recorded(f) && ForeignManual(w)
    ensures var (g, exit) := ApplyManualSpeed(f, speed, w);
            && Sound(g) && g.control == f.control
            && (exit == Applied ==> Recorded(g) && g.restoring.None? && !ApplyLost(f, speed, w))
            && (exit != Applied ==> (Recorded(g) && Accounted(g) <==> !ApplyLost(f, speed, w)))
            && (Recorded(g) && ApplyLost(f, speed, w) ==> exit == CancelledInHandler)
  {
    hide Sound, Reserved, StockAuto, RunFanCommand, AfterCommand, AfterLost, CommandLost;
    CommandExact(f, FanManual, w.mode);
    var (g, mode) := RunFanCommand(f, FanManual, w.mode);
    if CommandLost(f, w.mode) {
      LostStaysLost(g, w);
    } else if mode != Value(true) {
      AfterCommandExact(g, mode, w);
    } else {
      CommandExact(g, FanSpeed(speed), w.speed);
      var (h, written) := RunFanCommand(g, FanSpeed(speed), w.speed);
      if CommandLost(g, w.speed) {
        LostStaysLost(h, w);
      } else if written != Value(true) {
        AfterCommandExact(h, written, w);
      } else {
        SuccessLosesNothing(h, written, w);
      }
    }
  }

  lemma LostStaysLost(f: Fan, w: ManualWait)
    requires Sound(f) && !Recorded(f) && f.restoring.Some?
    ensures AfterCommand(f, Cancelled, w) == (f, CancelRaised) && !Accounted(f)
  {
  }

  lemma SuccessLosesNothing(f: Fan, exit: Exit, w: ManualWait)
    requires exit.Value?
    ensures !AfterLost(f, exit, w)
  {
  }

  // -- The two ways to lose it, from the outside --------------------------------------------------

  /** A fan command cancelled while it still waits for the queue lock takes whatever future
      poisons the queue for its own recovery. The record is honest exactly when there is none or
      it happens to be a stock-auto request. */
  lemma LockWaitCancelAccountedIff(f: Fan, call: HwCall, w: Wait, rest: ManualWait)
    requires Recorded(f) && f.restoring.None? && Foreign(w.before) && LostWaiting(f.q, w) && ForeignManual(rest)
    ensures var q := Exec(f.q, w.before);
            var g := AfterCancel(RunFanCommand(f, call, w).0, rest).0;
            Accounted(g) <==> (q.timedOut.None? || Reserved(q, q.timedOut.value))
  {
    hide Inv, Items, Reserved, StockAuto, RestoreFanAuto, Exec;
    CommandExact(f, call, w);
    var g := RunFanCommand(f, call, w).0;
    if Recorded(g) {
      AfterCancelExact(g, rest);
    }
  }

  /** The controller is not in stock auto and no auto request is under way. */
  ghost predicate LeftManual(q: State) {
    var items := Items(q.enqueued);
    && !Stock(q.trace)
    && forall i | |q.trace| <= i < |items| :: !items[i].call.FanAuto?
  }

  lemma {:induction false} NotStockGrows(short: seq<Completed>, long: seq<Completed>)
    requires short <= long && !Stock(short)
    requires forall i | |short| <= i < |long| :: !long[i].item.call.FanAuto?
    ensures !Stock(long)
    decreases |long|
  {
    if |short| < |long| {
      NotStockGrows(short, long[..|long| - 1]);
    } else {
      assert short == long;
    }
  }

  lemma MeanwhileStaysManual(q: State, t: State)
    requires Meanwhile(q, t) && LeftManual(q)
    ensures LeftManual(t)
  {
    TraceIsItems(t);
    hide Inv, Items, Stock;
    var before, items := Items(q.enqueued), Items(t.enqueued);
    assert forall i | 0 <= i < |before| :: items[i] == before[i];
    assert forall i | |q.trace| <= i < |items| :: !items[i].call.FanAuto?;
    NotStockGrows(q.trace, t.trace);
  }

  lemma WriteRan(items: seq<Item>, call: HwCall, t: State)
    requires Inv(t) && Manual(call) && Items(t.enqueued) == items + [Item(|items|, call)]
    requires |t.trace| == |items| + 1
    ensures LeftManual(t)
  {
    TraceIsItems(t);
  }

  /** After a manual write that returned or raised, or after any call that was refused while the
      controller was manual, it is still manual; a refused call keeps stock auto. */
  lemma CallLeavesManual(q: State, call: HwCall, w: Wait)
    requires Inv(q) && Quiet(q) && Foreign(w.before)
    ensures var (t, exit) := RunCall(q, call, Some(FanAuto), COMMAND_TIMEOUT, w);
            && (Manual(call) && (exit.Value? || exit.Failure?) ==> LeftManual(t) && Admits(LockAcquired(q, w.before)))
            && (exit.Busy? || exit.Unavailable? ==> !Admits(LockAcquired(q, w.before)))
            && (LeftManual(q) && (exit.Busy? || exit.Unavailable?) ==> LeftManual(t))
            && (StockAuto(q) && (exit.Busy? || exit.Unavailable?) ==> StockAuto(t))
  {
    hide Inv, Items, RunCall, LeftManual, StockAuto, LockAcquired, Exec, Grows, Leaves, Meanwhile;
    RunCallLeaves(q, call, Some(FanAuto), COMMAND_TIMEOUT, w);
    LockMeanwhile(q, w.before);
    var (t, exit) := RunCall(q, call, Some(FanAuto), COMMAND_TIMEOUT, w);
    var locked := LockAcquired(q, w.before);
    if exit.Busy? || exit.Unavailable? {
      MeanwhileKeeps(q, locked);
      if LeftManual(q) {
        MeanwhileStaysManual(q, locked);
      }
    } else if Manual(call) && (exit.Value? || exit.Failure?) {
      AdmittedLeaves(q, call, w);
      WriteRan(Items(locked.enqueued), call, t);
    }
  }

  /** The schedule cancels the wait after the hardware has confirmed the call. */
  predicate ConfirmedBy(during: seq<Action>) {
    var cut := Cut(during, Queued);
    cut.Some? && Confirmed(cut.value)
  }

  /** A cancelled restoration of a controller that was left manual is lost unless its auto request
      had been confirmed. */
  lemma ManualRestoreLostIff(f: Fan, w: FanWait)
    requires Recorded(f) && f.restoring.None? && !f.error && LeftManual(f.q) && ForeignWait(w)
    requires RestoreFanAuto(f, w).1.RestoreCancelled?
    ensures RestoreLost(f, w) <==> LostWaiting(f.q, w.call) || !ConfirmedBy(w.call.during)
  {
    hide Inv, Items, Stock, RunCall, Exec, LockAcquired, Meanwhile, Grows;
    if LostWaiting(f.q, w.call) {
      ExecMeanwhile(f.q, w.call.before);
      MeanwhileStaysManual(f.q, Exec(f.q, w.call.before));
    } else {
      LockMeanwhile(f.q, w.call.before);
      MeanwhileStaysManual(f.q, LockAcquired(f.q, w.call.before));
      CancelledIff(f.q, FanAuto, Some(FanAuto), COMMAND_TIMEOUT, w.call);
      assert RunCall(f.q, FanAuto, Some(FanAuto), COMMAND_TIMEOUT, w.call).1.Cancelled?;
      assert Admits(LockAcquired(f.q, w.call.before));
      assert Cut(w.call.during, Queued).Some?;
      assert !Stock(LockAcquired(f.q, w.call.before).trace);
    }
  }

  /** From a record that accounts for the controller, no restoration is lost. */
  lemma AccountedNeverLost(f: Fan, w: FanWait)
    requires Recorded(f) && Accounted(f) && ForeignWait(w)
    ensures !RestoreLost(f, w)
  {
    hide Inv, Items, Stock, Exec, LockAcquired, Meanwhile;
    if f.restoring.None? && !f.error {
      ExecMeanwhile(f.q, w.call.before);
      MeanwhileKeeps(f.q, Exec(f.q, w.call.before));
      LockMeanwhile(f.q, w.call.before);
      MeanwhileKeeps(f.q, LockAcquired(f.q, w.call.before));
    }
  }

  /** The fan layer when the `except Exception` handler starts. */
  function AtHandler(f: Fan, speed: int, w: ManualWait): Fan {
    var (g, mode) := RunFanCommand(f, FanManual, w.mode);
    if mode == Value(true) then RunFanCommand(g, FanSpeed(speed), w.speed).0 else g
  }

  /** Cancelled in the exception handler of a sequence that began in stock auto: the record is honest
      exactly when the manual-mode call had not been admitted, or the handler's own auto request was
      admitted and confirmed before the cancellation. */
  lemma HandlerCancelAccountedIff(f: Fan, speed: int, w: ManualWait)
    requires Recorded(f) && f.restoring.None? && !f.error && StockAuto(f.q) && ForeignManual(w)
    requires ApplyManualSpeed(f, speed, w).1 == CancelledInHandler
    ensures var g := ApplyManualSpeed(f, speed, w).0;
            Accounted(g) <==>
            || !Admits(LockAcquired(f.q, w.mode.before))
            || (!LostWaiting(AtHandler(f, speed, w).q, w.cleanup.call) && ConfirmedBy(w.cleanup.call.during))
  {
    hide Inv, Items, Stock, RunCall, Reserved, LockAcquired, LeftManual, StockAuto, RestoreFanAuto, RestoreLost,
        ConfirmedBy, LostWaiting;
    CommandExact(f, FanManual, w.mode);
    CallLeavesManual(f.q, FanManual, w.mode);
    var (g, mode) := RunFanCommand(f, FanManual, w.mode);
    CommandQueueOnly(f, FanManual, w.mode);
    if mode == Value(true) {
      CommandExact(g, FanSpeed(speed), w.speed);
      CallLeavesManual(g.q, FanSpeed(speed), w.speed);
      CommandQueueOnly(g, FanSpeed(speed), w.speed);
      var h := RunFanCommand(g, FanSpeed(speed), w.speed).0;
      HandlerManual(h, w);
    } else if mode.Failure? {
      HandlerManual(g, w);
    } else {
      RestoreExact(g, w.cleanup);
      AccountedNeverLost(g, w.cleanup);
    }
  }

  lemma CommandQueueOnly(f: Fan, call: HwCall, w: Wait)
    ensures var (g, exit) := RunFanCommand(f, call, w);
            (g.q, exit) == RunCall(f.q, call, Some(FanAuto), COMMAND_TIMEOUT, w)
  {
    hide RunCall;
  }

  lemma HandlerManual(f: Fan, w: ManualWait)
    requires Recorded(f) && f.restoring.None? && !f.error && LeftManual(f.q) && ForeignManual(w)
    requires RestoreFanAuto(f, w.cleanup).1.RestoreCancelled?
    ensures Accounted(RestoreFanAuto(f, w.cleanup).0) <==>
            !LostWaiting(f.q, w.cleanup.call) && ConfirmedBy(w.cleanup.call.during)
  {
    hide Sound, Items, Stock, RunCall, Reserved, LeftManual, StockAuto, RestoreFanAuto, RestoreLost, ConfirmedBy,
        LostWaiting;
    RestoreExact(f, w.cleanup);
    ManualRestoreLostIff(f, w.cleanup);
  }

  // -- Concrete runs ------------------------------------------------------------------------------

  function Completes(result: HwResult): Wait {
    Wait([], false, [Take, Finish(result), Deliver])
  }

  const UNDISTURBED := FanWait(Wait([], false, []), [], false)

  /** Another task's call, from getting the lock to releasing it. */
  const CONTENDING := [Submit(OtherCall, None), Take, Finish(Returned(true)), Deliver, Wake]

  /** A restoration that is cancelled while it waits for the lock behind that call. */
  const LOST_WAITING := FanWait(Wait(CONTENDING, true, []), [], false)

  /** Nothing outstanding, so that the next call is admitted and taken at once. */
  predicate Settled(q: State) {
    && q.active.None? && q.timedOut.None? && !q.closed && !q.stopped
    && q.requests == [] && q.executing.None? && q.callbacks == [] && !Done(q, q.nextFuture)
  }

  function WithCall(q: State, call: HwCall, result: HwResult): State {
    var item := Item(q.nextFuture, call);
    q.(nextFuture := q.nextFuture + 1, futures := q.futures[item.future := result],
    enqueued := q.enqueued + [Work(item)], trace := q.trace + [Completed(item, result)])
  }

  lemma CallCompletes(q: State, call: HwCall, recovery: Option<HwCall>, result: HwResult)
    requires Settled(q) && !result.RaisedTimeout?
    ensures RunCall(q, call, recovery, COMMAND_TIMEOUT, Completes(result)) ==
            (WithCall(q, call, result), if result.Returned? then Value(result.truthy) else Failure)
  {
    var s := Step(q, Submit(call, recovery));
    var s1 := Step(s, Take);
    var s2 := Step(s1, Finish(result));
    var s3 := Step(s2, Deliver);
    assert [Take, Finish(result), Deliver][1..] == [Finish(result), Deliver];
    assert [Finish(result), Deliver][1..] == [Deliver];
    assert [Deliver][1..] == [];
    assert Await(s1, [Finish(result), Deliver]) == Await(s2, [Deliver]);
    assert Await(s3, []) == Finished(s3);
    assert LockAcquired(q, []) == q;
    assert s3.(active := None) == WithCall(q, call, result);
  }

  lemma ForeignCompletes(q: State)
    requires Settled(q)
    ensures Exec(q, CONTENDING) == WithCall(q, OtherCall, Returned(true)) && Contended(q, CONTENDING)
  {
    var s := Step(q, Submit(OtherCall, None));
    assert CONTENDING[1..] == [Take, Finish(Returned(true)), Deliver, Wake];
    assert Contended(s, CONTENDING[1..]);
    var rest := [Take, Finish(Returned(true)), Deliver, Wake];
    assert rest == [Take, Finish(Returned(true)), Deliver] + [Wake];
    ExecConcat(s, [Take, Finish(Returned(true)), Deliver], [Wake]);
    ExecThree(s, Take, Finish(Returned(true)), Deliver);
    var t := Exec(s, [Take, Finish(Returned(true)), Deliver]);
    assert [Wake][1..] == [];
    assert Exec(t, [Wake]) == Step(t, Wake);
    ForeignDelivered(q);
  }

  lemma ForeignDelivered(q: State)
    requires Settled(q)
    ensures var s := Step(q, Submit(OtherCall, None));
            Step(Step(Step(Step(s, Take), Finish(Returned(true))), Deliver), Wake) ==
                WithCall(q, OtherCall, Returned(true))
  {
    var s1 := Step(Step(q, Submit(OtherCall, None)), Take);
    var s3 := Step(Step(s1, Finish(Returned(true))), Deliver);
    assert s3.requests == [] && s3.callbacks == [];
  }

  lemma CancelledWaiting(q: State)
    requires Settled(q)
    ensures LostWaiting(q, LOST_WAITING.call)
    ensures RunCall(q, FanAuto, Some(FanAuto), COMMAND_TIMEOUT, LOST_WAITING.call) ==
            (WithCall(q, OtherCall, Returned(true)), Cancelled)
  {
    ForeignCompletes(q);
  }

  lemma StockAppendWrite(q: State, call: HwCall, result: HwResult)
    requires Manual(call)
    ensures !Stock(WithCall(q, call, result).trace)
    ensures !Stock(WithCall(WithCall(q, call, result), OtherCall, Returned(true)).trace)
  {
    var t := WithCall(q, call, result);
    StockAppend(q.trace, Completed(Item(q.nextFuture, call), result));
    StockAppend(t.trace, Completed(Item(t.nextFuture, OtherCall), Returned(true)));
  }

  /** The speed write raises and the caller is cancelled while the handler waits for the queue
      lock behind another task's call: the controller is left in manual mode and nothing says so. */
  lemma HandlerCancelExample()
    ensures var w := ManualWait(Completes(Returned(true)), Completes(Raised), LOST_WAITING, UNDISTURBED);
            var (g, exit) := ApplyManualSpeed(FRESH, 50, w);
            && exit == CancelledInHandler
            && !g.error && g.restoring.None? && !Stock(g.q.trace)
  {
    var w := ManualWait(Completes(Returned(true)), Completes(Raised), LOST_WAITING, UNDISTURBED);
    var q := WithCall(INITIAL, FanManual, Returned(true));
    var t := WithCall(q, FanSpeed(50), Raised);
    CallCompletes(INITIAL, FanManual, Some(FanAuto), Returned(true));
    CallCompletes(q, FanSpeed(50), Some(FanAuto), Raised);
    RestoreLostWaiting(FRESH.(q := t));
    StockAppendWrite(q, FanSpeed(50), Raised);
    hide WithCall, Completes, RunCall, Stock, Exec, Step, RestoreFanAuto, Contended;
    assert RunFanCommand(FRESH, FanManual, w.mode) == (FRESH.(q := q), Value(true));
    assert RunFanCommand(FRESH.(q := q), FanSpeed(50), w.speed) == (FRESH.(q := t), Failure);
    assert AfterError(FRESH.(q := t), w).1 == CancelledInHandler;
  }

  lemma RestoreLostWaiting(f: Fan)
    requires Settled(f.q) && f.restoring.None?
    ensures RestoreFanAuto(f, LOST_WAITING) == (f.(q := WithCall(f.q, OtherCall, Returned(true))), RestoreCancelled)
  {
    CancelledWaiting(f.q);
    hide WithCall, RunCall, Exec;
  }

  /** Other work on the queue: one call of another task whose deadline passes. */
  const FOREIGN_TIMEOUT := [Submit(OtherCall, None), Deadline]

  lemma ForeignTimesOut(q: State)
    requires Settled(q)
    ensures var item := Item(q.nextFuture, OtherCall);
            && Contended(q, FOREIGN_TIMEOUT)
            && Exec(q, FOREIGN_TIMEOUT) ==
               q.(nextFuture := q.nextFuture + 1, requests := [Work(item)],
               enqueued := q.enqueued + [Work(item)], timedOut := Some(q.nextFuture))
  {
    var s := Step(q, Submit(OtherCall, None));
    assert FOREIGN_TIMEOUT[1..] == [Deadline] && [Deadline][1..] == [];
    assert Exec(q, FOREIGN_TIMEOUT) == Exec(s, [Deadline]) == Step(s, Deadline);
    assert Contended(s, [Deadline]);
  }

  lemma LateCompletion(t: State, item: Item)
    requires !t.stopped && t.executing.None? && t.callbacks == [] && t.requests == [Work(item)]
    requires !Done(t, item.future) && !item.call.FanAuto? && !Stock(t.trace)
    ensures var u := Exec(t, [Take, Finish(Returned(true)), Deliver]);
            Done(u, item.future) && u.futures[item.future] == Returned(true) && !Stock(u.trace)
  {
    ExecThree(t, Take, Finish(Returned(true)), Deliver);
    StockAppend(t.trace, Completed(item, Returned(true)));
  }

  /** The speed command is cancelled while it waits for the lock behind a read that has just timed
      out. The read's own completion is then taken for the confirmation of stock auto. */
  lemma AdoptionExample()
    ensures var w := ManualWait(Completes(Returned(true)), Wait(FOREIGN_TIMEOUT, true, []), UNDISTURBED, UNDISTURBED);
            var (g, exit) := ApplyManualSpeed(FRESH, 50, w);
            var late := CompleteRecovery(g.(q := Exec(g.q, [Take, Finish(Returned(true)), Deliver])));
            && exit == CancelRaised && g.restoring == Some(1)
            && !late.error && late.restoring.None? && !Stock(late.q.trace)
  {
    var q := WithCall(INITIAL, FanManual, Returned(true));
    CallCompletes(INITIAL, FanManual, Some(FanAuto), Returned(true));
    ForeignTimesOut(q);
    AdoptedWaiting(q, FanSpeed(50));
    StockAppendWrite(INITIAL, FanManual, Returned(true));
    var t := Exec(q, FOREIGN_TIMEOUT);
    LateCompletion(t, Item(1, OtherCall));
    hide Exec, Stock, LockAcquired, Contended, WithCall, Step;
    var w := ManualWait(Completes(Returned(true)), Wait(FOREIGN_TIMEOUT, true, []), UNDISTURBED, UNDISTURBED);
    hide RunCall;
    assert RunFanCommand(FRESH, FanManual, w.mode) == (FRESH.(q := q), Value(true));
    assert RunFanCommand(FRESH.(q := q), FanSpeed(50), w.speed) ==
        (FRESH.(q := t, restoring := Some(1), error := true), Cancelled);
  }

  lemma AdoptedWaiting(q: State, call: HwCall)
    requires Settled(q)
    ensures RunCall(q, call, Some(FanAuto), COMMAND_TIMEOUT, Wait(FOREIGN_TIMEOUT, true, [])) ==
            (Exec(q, FOREIGN_TIMEOUT), Cancelled)
  {
    ForeignTimesOut(q);
    hide Exec, Contended;
  }
}
