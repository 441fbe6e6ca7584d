/**
 * The curve loop over the fan layer: its wake-ups issue real commands on the
 * hardware queue.  Read off the hardware trace, every such loop is a run of the
 * controller in `FanControllers`, so that what holds of all those runs holds here.
 */
module FanCurveLoop {
  import opened Wrappers
  import opened CommandQueue
  import opened FanFailSafe
  import opened FanRuns
  import C = FanControllers
  import FanWatchdog
  import FanService

  /** What the controller is doing after these calls. */
  function EcOf(trace: seq<Completed>): (r: C.Ec) {
    if trace == [] then C.Auto
    else
      var c := trace[|trace| - 1];
      if c.item.call.FanAuto? && c.result == Returned(true) then C.Auto
      else if c.item.call.FanSpeed? && c.result == Returned(true) then C.Fixed(c.item.call.speed)
      else if Manual(c.item.call) then C.Unknown
      else EcOf(trace[..|trace| - 1])
  }

  /** Stock auto is what the fan layer takes it for. */
  lemma {:induction false} EcIsStock(trace: seq<Completed>)
    ensures EcOf(trace) == C.Auto <==> Stock(trace)
    decreases |trace|
  {
    if trace != [] { EcIsStock(trace[..|trace| - 1]); }
  }

  // --------------------------------------------------------------------- the loop

  datatype Loop = Loop(last: Option<int>, failures: nat, fan: Fan, writes: seq<int>, gaveUp: bool, cut: bool)

  /** What happens to the loop between and at its wake-ups. */
  datatype Turn =
    | Elsewhere(ops: seq<Op>)      // other tasks, and other fan use cases
    | Away                         // another mode, or no capability
    | Overtaken                    // the mode changed while the mutation lock was awaited
    | NoText
    | Visit(read: Wait, temp: Option<int>, curve: string, apply: ManualWait, cleanup: FanWait)

  /** The speed to write, if the aim calls for one. */
  function Wanted(last: Option<int>, aim: Option<int>): (r: Option<int>) {
    if aim.None? || last == Some(C.Choose(last, aim.value)) then None else Some(C.Choose(last, aim.value))
  }

  function WakeOf(l: Loop, t: Turn): (r: CurveWake)
    requires t.Visit?
  {
    var aim := C.Aim(t.temp, t.curve);
    CurveWake(t.read, aim.Some?, Wanted(l.last, aim), t.apply, l.failures + 1 >= 3, t.cleanup)
  }

  function Settle(l: Loop, g: Fan, e: CurveExit, speed: Option<int>): (r: Loop) {
    match e
    case PassedOver => l.(fan := g, last := None)
    case Kept => l.(fan := g, failures := 0)
    case Wrote =>
      l.(fan := g, failures := 0, last := speed, writes := l.writes + if speed.Some? then [speed.value] else [])
    case Failed => l.(fan := g, failures := l.failures + 1)
    case GaveUp => l.(fan := g, failures := l.failures + 1, gaveUp := true)
    case Cut => l.(fan := g, cut := true)
  }

  function Next(l: Loop, t: Turn): (r: Loop) {
    if l.gaveUp || l.cut then l
    else
      match t
      case Elsewhere(ops) => l.(fan := FanRun(l.fan, ops))
      case Away => l.(last := None)
      case Overtaken => l
      case NoText => l
      case Visit(_, _, _, _, _) =>
        var (g, e) := PollCurve(l.fan, WakeOf(l, t));
        Settle(l, g, e, WakeOf(l, t).speed)
  }

  function LoopRun(l: Loop, turns: seq<Turn>): (r: Loop)
    decreases |turns|
  {
    if turns == [] then l else LoopRun(Next(l, turns[0]), turns[1..])
  }

  /** Other operations of the service, in turn. */
  method PerformOps(controller: FanService.FanController, ops: seq<Op>)
    requires controller.Valid()
    modifies controller, controller.queue
    ensures controller.Valid() && controller.View() == FanRun(old(controller.View()), ops)
  {
    hide FanStep;
    var i := 0;
    while i < |ops|
      invariant 0 <= i <= |ops| && controller.Valid()
      invariant FanRun(controller.View(), ops[i..]) == FanRun(old(controller.View()), ops)
    {
      assert ops[i..][1..] == ops[i + 1..];
      controller.Perform(ops[i]);
      i := i + 1;
    }
  }

  /** One wake-up in curve mode: choose a speed and poll. */
  method VisitOnce(controller: FanService.FanController, last: Option<int>, failures: nat, t: Turn)
    returns (e: CurveExit, speed: Option<int>)
    requires controller.Valid() && t.Visit?
    modifies controller, controller.queue
    ensures controller.Valid() && speed == Wanted(last, C.Aim(t.temp, t.curve))
    ensures (controller.View(), e) ==
            PollCurve(old(controller.View()),
                      CurveWake(t.read, C.Aim(t.temp, t.curve).Some?, speed, t.apply, failures + 1 >= 3, t.cleanup))
  {
    hide PollCurve, C.Aim;
    var aim := C.ReadAim(t.temp, t.curve);
    speed := None;
    if aim.Some? {
      var chosen := aim.value;
      if last.Some? && C.Abs(chosen - last.value) < C.HYSTERESIS {
        chosen := last.value;
      }
      if last != Some(chosen) {
        speed := Some(chosen);
      }
    }
    e := controller.CurveControl(CurveWake(t.read, aim.Some?, speed, t.apply, failures + 1 >= 3, t.cleanup));
  }

  /** `_fan_curve_loop`, until it gives up or is cancelled or the given turns are used up. */
  method CurveLoop(controller: FanService.FanController, turns: seq<Turn>)
    returns (last: Option<int>, failures: nat, writes: seq<int>, gaveUp: bool, cut: bool)
    requires controller.Valid()
    modifies controller, controller.queue
    ensures controller.Valid()
    ensures Loop(last, failures, controller.View(), writes, gaveUp, cut) ==
            LoopRun(Loop(None, 0, old(controller.View()), [], false, false), turns)
  {
    hide PollCurve, FanRun, C.Aim, Wanted;
    last, failures, writes, gaveUp, cut := None, 0, [], false, false;
    ghost var start := Loop(None, 0, controller.View(), [], false, false);
    var i := 0;
    while i < |turns| && !gaveUp && !cut
      invariant 0 <= i <= |turns| && controller.Valid()
      invariant LoopRun(Loop(last, failures, controller.View(), writes, gaveUp, cut), turns[i..]) ==
              LoopRun(start, turns)
    {
      assert turns[i..][1..] == turns[i + 1..];
      match turns[i] {
        case Elsewhere(ops) => PerformOps(controller, ops);
        case Away => last := None;
        case Overtaken =>
        case NoText =>
        case Visit(read, temp, curve, apply, cleanup) =>
          var e, speed := VisitOnce(controller, last, failures, turns[i]);
          match e {
            case PassedOver => last := None;
            case Kept => failures := 0;
            case Wrote =>
              last, failures := speed, 0;
              writes := writes + if speed.Some? then [speed.value] else [];
            case Failed => failures := failures + 1;
            case GaveUp => failures, gaveUp := failures + 1, true;
            case Cut => cut := true;
          }
      }
      i := i + 1;
    }
    LoopEnds(Loop(last, failures, controller.View(), writes, gaveUp, cut), turns[i..]);
  }

  lemma {:induction false} LoopEnds(l: Loop, turns: seq<Turn>)
    requires l.gaveUp || l.cut || turns == []
    ensures LoopRun(l, turns) == l
    decreases |turns|
  {
    if turns != [] { LoopEnds(l, turns[1..]); }
  }

  // ------------------------------------------------------------------- simulation

  /** The loop as the controller of `FanControllers`, with what the hardware trace says of the EC. */
  function Abstract(l: Loop): (r: C.Controller) {
    C.Controller(l.last, l.failures, EcOf(l.fan.q.trace), l.writes, l.gaveUp)
  }

  /** A change of the EC that is none of the loop's doing. */
  function Shift(before: C.Ec, after: C.Ec): (r: seq<C.Tick>) {
    if before == after then [] else [C.Overtaken(after)]
  }

  /** What the controller would have to observe to do what the loop did. */
  function Ticks(l: Loop, t: Turn): (r: seq<C.Tick>) {
    var before, after := EcOf(l.fan.q.trace), EcOf(Next(l, t).fan.q.trace);
    if l.gaveUp || l.cut then []
    else
      match t
      case Elsewhere(_) => Shift(before, after)
      case Away => [C.Skip(after)]
      case Overtaken => []
      case NoText => [C.NoCurve]
      case Visit(read, temp, curve, _, _) =>
        var e := PollCurve(l.fan, WakeOf(l, t)).1;
        if e.PassedOver? then [C.Skip(after)]
        else if e.Cut? then Shift(before, after)
        else Shift(before, AfterRead(l, t)) + [Observed(l, t, after)]
  }

  /** The observations of a whole run, turn by turn. */
  function AllTicks(l: Loop, turns: seq<Turn>): (r: seq<C.Tick>)
    decreases |turns|
  {
    if turns == [] then [] else Ticks(l, turns[0]) + AllTicks(Next(l, turns[0]), turns[1..])
  }

  function AfterRead(l: Loop, t: Turn): (r: C.Ec)
    requires t.Visit?
  {
    EcOf(RunFanCommand(l.fan, ReadTemp, t.read).0.q.trace)
  }

  /** The poll as the controller sees it: no temperature if the read failed, and where the write and a
      final restoration left the EC. */
  function Observed(l: Loop, t: Turn, after: C.Ec): (r: C.Tick)
    requires t.Visit?
  {
    var (g, exit) := RunFanCommand(l.fan, ReadTemp, t.read);
    var speed := WakeOf(l, t).speed;
    var applied := if exit.Value? && speed.Some? then ApplyManualSpeed(g, speed.value, t.apply) else (g, Applied);
    C.Poll(if exit.Value? then t.temp else None, t.curve,
           if applied.1 == Applied then C.Accepted else C.Failed(EcOf(applied.0.q.trace)), after)
  }

  predicate ForeignTurn(t: Turn) {
    match t
    case Elsewhere(ops) => ForeignOps(ops)
    case Visit(read, _, _, apply, cleanup) => Foreign(read.before) && ForeignManual(apply) && ForeignWait(cleanup)
    case _ => true
  }

  function Steps(c: C.Controller, ticks: seq<C.Tick>): (r: C.Controller)
    decreases |ticks|
  {
    if ticks == [] then c else Steps(C.Step(c, ticks[0]), ticks[1..])
  }

  /** An applied speed is what the controller holds. */
  lemma AppliedHeld(f: Fan, speed: int, w: ManualWait)
    requires Recorded(f) && ForeignManual(w) && ApplyManualSpeed(f, speed, w).1 == Applied
    ensures EcOf(ApplyManualSpeed(f, speed, w).0.q.trace) == C.Fixed(speed)
  {
    hide Inv, Items, RunCall, Reserved, AfterCommand, CommandLost, LockAcquired;
    FanWatchdog.AppliedNotLost(f, speed, w);
    CommandExact(f, FanManual, w.mode);
    var g := RunFanCommand(f, FanManual, w.mode).0;
    CommandQueueOnly(g, FanSpeed(speed), w.speed);
    FanWatchdog.CallEnds(g.q, FanSpeed(speed), w.speed);
  }

  lemma NoReadingNoAim(curve: string)
    ensures C.Aim(None, curve).None?
  {}

  /** A visit whose read failed or was unusable. */
  lemma BlindVisit(l: Loop, t: Turn)
    requires t.Visit? && !l.gaveUp && !l.cut && l.failures < 3
    requires l.fan.restoring.None? && !l.fan.error && !l.fan.control.Override?
    requires var exit := RunFanCommand(l.fan, ReadTemp, t.read).1;
             !exit.Cancelled? && (!exit.Value? || C.Aim(t.temp, t.curve).None?)
    ensures var e := PollCurve(l.fan, WakeOf(l, t)).1; var after := EcOf(Next(l, t).fan.q.trace);
            e.Cut? || (!e.PassedOver?
                && C.Step(Abstract(l).(ec := AfterRead(l, t)), Observed(l, t, after)) == Abstract(Next(l, t)))
  {
    hide RunFanCommand, ApplyManualSpeed, EcOf, C.Aim, C.Choose, RestoreFanAuto;
    NoReadingNoAim(t.curve);
  }

  /** A visit with an aim that calls for no write. */
  lemma KeepingVisit(l: Loop, t: Turn)
    requires t.Visit? && !l.gaveUp && !l.cut
    requires l.fan.restoring.None? && !l.fan.error && !l.fan.control.Override?
    requires RunFanCommand(l.fan, ReadTemp, t.read).1.Value? && C.Aim(t.temp, t.curve).Some? && WakeOf(l, t).speed.None?
    ensures var e := PollCurve(l.fan, WakeOf(l, t)).1; var after := EcOf(Next(l, t).fan.q.trace);
            e.Kept? && C.Step(Abstract(l).(ec := AfterRead(l, t)), Observed(l, t, after)) == Abstract(Next(l, t))
  {
    hide RunFanCommand, ApplyManualSpeed, EcOf, C.Aim, C.Choose, RestoreFanAuto;
  }

  /** A visit that writes. */
  lemma WritingVisit(l: Loop, t: Turn)
    requires t.Visit? && Recorded(l.fan) && ForeignTurn(t) && !l.gaveUp && !l.cut && l.failures < 3
    requires l.fan.restoring.None? && !l.fan.error && !l.fan.control.Override?
    requires RunFanCommand(l.fan, ReadTemp, t.read).1.Value? && WakeOf(l, t).speed.Some?
    ensures var e := PollCurve(l.fan, WakeOf(l, t)).1; var after := EcOf(Next(l, t).fan.q.trace);
            e.Cut? || (!e.PassedOver?
                && C.Step(Abstract(l).(ec := AfterRead(l, t)), Observed(l, t, after)) == Abstract(Next(l, t)))
  {
    hide RunFanCommand, ApplyManualSpeed, EcOf, C.Aim, C.Choose, RestoreFanAuto, Sound, Reserved, CommandLost;
    CommandExact(l.fan, ReadTemp, t.read);
    var g := RunFanCommand(l.fan, ReadTemp, t.read).0;
    var speed := WakeOf(l, t).speed.value;
    if ApplyManualSpeed(g, speed, t.apply).1 == Applied {
      AppliedHeld(g, speed, t.apply);
    }
  }

  lemma VisitSimulates(l: Loop, t: Turn)
    requires t.Visit? && Recorded(l.fan) && ForeignTurn(t) && !l.gaveUp && !l.cut && l.failures < 3
    ensures Abstract(Next(l, t)) == Steps(Abstract(l), Ticks(l, t))
  {
    hide RunFanCommand, EcOf, C.Aim, C.Choose, Sound, Reserved, FailCurve, WriteCurve, Observed, AfterRead;
    var exit := RunFanCommand(l.fan, ReadTemp, t.read).1;
    var ticks := Ticks(l, t);
    if l.fan.restoring.None? && !l.fan.error && !l.fan.control.Override? && !exit.Cancelled? {
      if !exit.Value? || C.Aim(t.temp, t.curve).None? {
        BlindVisit(l, t);
      } else if WakeOf(l, t).speed.None? {
        KeepingVisit(l, t);
      } else {
        WritingVisit(l, t);
      }
    }
    var before := EcOf(l.fan.q.trace);
    var e := PollCurve(l.fan, WakeOf(l, t)).1;
    if !e.PassedOver? && !e.Cut? {
      var shift := Shift(before, AfterRead(l, t));
      ShiftSteps(Abstract(l), AfterRead(l, t));
      StepsConcat(Abstract(l), shift, [ticks[|ticks| - 1]]);
      OneStep(Abstract(l).(ec := AfterRead(l, t)), ticks[|ticks| - 1]);
      assert ticks == shift + [ticks[|ticks| - 1]];
    } else {
      ShiftSteps(Abstract(l), EcOf(Next(l, t).fan.q.trace));
      OneStep(Abstract(l), C.Skip(EcOf(Next(l, t).fan.q.trace)));
    }
  }

  lemma OneStep(c: C.Controller, a: C.Tick)
    ensures Steps(c, [a]) == C.Step(c, a)
  {
    assert [a][1..] == [];
  }

  lemma ShiftSteps(c: C.Controller, after: C.Ec)
    requires !c.stopped
    ensures Steps(c, Shift(c.ec, after)) == c.(ec := after)
  {
    OneStep(c, C.Overtaken(after));
  }

  /** One turn of the loop over the hardware is a few steps of the controller. */
  lemma TurnSimulates(l: Loop, t: Turn)
    requires Recorded(l.fan) && ForeignTurn(t) && (l.gaveUp || l.failures < 3)
    ensures Abstract(Next(l, t)) == Steps(Abstract(l), Ticks(l, t))
    ensures Next(l, t).gaveUp || Next(l, t).failures < 3
  {
    hide PollCurve, EcOf, FanRun, Recorded;
    if t.Visit? && !l.gaveUp && !l.cut {
      VisitSimulates(l, t);
      VisitCounts(l, t);
    } else if !l.gaveUp && !l.cut {
      ShiftSteps(Abstract(l), EcOf(Next(l, t).fan.q.trace));
      OneStep(Abstract(l), C.Skip(EcOf(l.fan.q.trace)));
      OneStep(Abstract(l), C.NoCurve);
    }
  }

  lemma VisitCounts(l: Loop, t: Turn)
    requires t.Visit? && !l.gaveUp && !l.cut && l.failures < 3
    ensures Next(l, t).gaveUp || Next(l, t).failures < 3
  {
    hide RunFanCommand, ApplyManualSpeed, RestoreFanAuto, C.Aim, C.Choose;
  }

  /** The record is sound at every turn: nothing foreign has been adopted. */
  ghost predicate RecordedThroughout(l: Loop, turns: seq<Turn>)
    decreases |turns|
  {
    Recorded(l.fan) && (turns != [] ==> RecordedThroughout(Next(l, turns[0]), turns[1..]))
  }

  lemma {:induction false} StepsConcat(c: C.Controller, a: seq<C.Tick>, b: seq<C.Tick>)
    ensures Steps(c, a + b) == Steps(Steps(c, a), b)
    decreases |a|
  {
    if a == [] {
      assert a + b == b;
    } else {
      assert (a + b)[1..] == a[1..] + b;
      StepsConcat(C.Step(c, a[0]), a[1..], b);
    }
  }

  lemma {:induction false} StepsIsRun(c: C.Controller, ticks: seq<C.Tick>)
    ensures Steps(c, ticks) == C.Run(c, ticks)
    decreases |ticks|
  {
    if ticks != [] {
      var n := |ticks| - 1;
      StepsIsRun(c, ticks[..n]);
      StepsConcat(c, ticks[..n], [ticks[n]]);
      assert ticks[..n] + [ticks[n]] == ticks && [ticks[n]][1..] == [];
      assert Steps(Steps(c, ticks[..n]), [ticks[n]]) == C.Step(Steps(c, ticks[..n]), ticks[n]);
    }
  }

  lemma {:induction false} LoopSimulates(l: Loop, turns: seq<Turn>)
    requires forall i | 0 <= i < |turns| :: ForeignTurn(turns[i])
    requires RecordedThroughout(l, turns) && (l.gaveUp || l.failures < 3)
    ensures Abstract(LoopRun(l, turns)) == C.Run(Abstract(l), AllTicks(l, turns))
    decreases |turns|
  {
    hide Recorded, Next, Ticks, ForeignTurn;
    StepsIsRun(Abstract(l), AllTicks(l, turns));
    if turns != [] {
      var m := Next(l, turns[0]);
      TurnSimulates(l, turns[0]);
      LoopSimulates(m, turns[1..]);
      StepsIsRun(Abstract(m), AllTicks(m, turns[1..]));
      StepsConcat(Abstract(l), Ticks(l, turns[0]), AllTicks(m, turns[1..]));
    }
  }

  const START := Loop(None, 0, FRESH, [], false, false)

  /** Every run of the loop over the hardware, from process start, is the run of the abstract controller
      on what the loop observed, with the EC read off the hardware trace. */
  lemma CurveLoopIsController(turns: seq<Turn>)
    requires forall i | 0 <= i < |turns| :: ForeignTurn(turns[i])
    requires RecordedThroughout(START, turns)
    ensures Abstract(LoopRun(START, turns)) == C.Run(C.FRESH, AllTicks(START, turns))
  {
    hide RecordedThroughout, Next;
    LoopSimulates(START, turns);
  }

  // ------------------------------------------------------- tracking, on the hardware

  lemma {:induction false} EcHarmless(short: seq<Completed>, long: seq<Completed>)
    requires short <= long
    requires forall i | |short| <= i < |long| :: !Manual(long[i].item.call) && !long[i].item.call.FanAuto?
    ensures EcOf(long) == EcOf(short)
    decreases |long|
  {
    if |short| < |long| {
      EcHarmless(short, long[..|long| - 1]);
    } else {
      assert short == long;
    }
  }

  /** What the rest of the daemon does leaves the EC and the accepted speeds alone. */
  lemma MeanwhileEc(q: State, t: State)
    requires Meanwhile(q, t) && FanWatchdog.FanIdle(q)
    ensures FanWatchdog.FanIdle(t) && EcOf(t.trace) == EcOf(q.trace)
    ensures FanWatchdog.Speeds(t.trace) == FanWatchdog.Speeds(q.trace)
  {
    FanWatchdog.MeanwhileSpeeds(q, t);
    TraceIsItems(t);
    hide Inv, Items, EcOf, FanWatchdog.Speeds;
    var before, items := Items(q.enqueued), Items(t.enqueued);
    assert forall i | 0 <= i < |before| :: items[i] == before[i];
    assert forall i | |q.trace| <= i < |items| :: items[i].call.OtherCall?;
    EcHarmless(q.trace, t.trace);
  }

  /** The loop may poll: nobody overrides it, nothing is on record, nothing of the fan's is under way. */
  ghost predicate Free(f: Fan) {
    Recorded(f) && f.restoring.None? && !f.error && !f.control.Override? && FanWatchdog.FanIdle(f.q)
  }

  /** A read that neither times out nor is cancelled leaves everything as it was. */
  lemma ReadLeaves(f: Fan, w: Wait)
    requires Free(f) && Foreign(w.before)
    requires var exit := RunFanCommand(f, ReadTemp, w).1; !exit.TimedOut? && !exit.Cancelled?
    ensures var g := RunFanCommand(f, ReadTemp, w).0;
            && Free(g) && g.control == f.control && EcOf(g.q.trace) == EcOf(f.q.trace)
            && FanWatchdog.Speeds(g.q.trace) == FanWatchdog.Speeds(f.q.trace)
  {
    hide Inv, Items, RunCall, Reserved, LockAcquired, EcOf, FanWatchdog.Speeds, FanWatchdog.FanIdle, Meanwhile, Exec;
    CommandExact(f, ReadTemp, w);
    CommandQueueOnly(f, ReadTemp, w);
    RunCallLeaves(f.q, ReadTemp, Some(FanAuto), COMMAND_TIMEOUT, w);
    LockMeanwhile(f.q, w.before);
    var locked := LockAcquired(f.q, w.before);
    MeanwhileEc(f.q, locked);
    var (t, exit) := RunCall(f.q, ReadTemp, Some(FanAuto), COMMAND_TIMEOUT, w);
    if exit.Value? || exit.Failure? {
      FanWatchdog.CallEnds(f.q, ReadTemp, w);
      ReadAppends(locked.trace, Completed(Item(|locked.trace|, ReadTemp), t.futures[|locked.trace|]));
    } else {
      RestoringUnchanged(f, ReadTemp, w);
    }
  }

  lemma ReadAppends(trace: seq<Completed>, c: Completed)
    requires c.item.call.ReadTemp?
    ensures EcOf(trace + [c]) == EcOf(trace) && FanWatchdog.Speeds(trace + [c]) == FanWatchdog.Speeds(trace)
  {
    FanWatchdog.SpeedsAppend(trace, c);
    assert (trace + [c])[..|trace|] == trace;
  }

  lemma RestoringUnchanged(f: Fan, call: HwCall, w: Wait)
    requires f.restoring.None?
    ensures var (g, exit) := RunFanCommand(f, call, w);
            exit.Busy? || exit.Unavailable? ==> g.restoring.None? && g.error == f.error
  {
    hide RunCall;
  }

  /** An applied speed is the only one put on the wire, and what the controller then holds. */
  lemma AppliedOnWire(f: Fan, speed: int, w: ManualWait)
    requires Free(f) && ForeignManual(w) && ApplyManualSpeed(f, speed, w).1 == Applied
    ensures var g := ApplyManualSpeed(f, speed, w).0;
            && Recorded(g) && g.restoring.None? && FanWatchdog.FanIdle(g.q) && EcOf(g.q.trace) == C.Fixed(speed)
            && FanWatchdog.Speeds(g.q.trace) == FanWatchdog.Speeds(f.q.trace) + [speed]
  {
    hide Inv, Items, RunCall, Reserved, AfterCommand, CommandLost, LockAcquired, EcOf, FanWatchdog.Speeds,
        FanWatchdog.FanIdle;
    FanWatchdog.AppliedSpeed(f, speed, w);
    AppliedHeld(f, speed, w);
    FanWatchdog.AppliedNotLost(f, speed, w);
    CommandExact(f, FanManual, w.mode);
    var g := RunFanCommand(f, FanManual, w.mode).0;
    CommandQueueOnly(f, FanManual, w.mode);
    FanWatchdog.CallSpeeds(f.q, FanManual, w.mode);
    CommandQueueOnly(g, FanSpeed(speed), w.speed);
    FanWatchdog.CallSpeeds(g.q, FanSpeed(speed), w.speed);
  }

  /** Nothing but other tasks and the worker. */
  predicate Bystanders(ops: seq<Op>) {
    forall i | 0 <= i < |ops| :: ops[i].Environment? || ops[i].RecoveryTask?
  }

  lemma {:induction false} BystandersLeave(f: Fan, ops: seq<Op>)
    requires Free(f) && ForeignOps(ops) && Bystanders(ops)
    ensures var g := FanRun(f, ops);
            && Free(g) && g.control == f.control && EcOf(g.q.trace) == EcOf(f.q.trace)
            && FanWatchdog.Speeds(g.q.trace) == FanWatchdog.Speeds(f.q.trace)
    decreases |ops|
  {
    hide Inv, Items, Reserved, Exec, EcOf, FanWatchdog.Speeds, FanWatchdog.FanIdle, Meanwhile;
    if ops != [] {
      assert ForeignOp(ops[0]);
      if ops[0].Environment? {
        ExecMeanwhile(f.q, ops[0].actions);
        MeanwhileEc(f.q, Exec(f.q, ops[0].actions));
        FanMeanwhile(f, Exec(f.q, ops[0].actions));
      }
      BystandersLeave(FanStep(f, ops[0]), ops[1..]);
    }
  }

  /** A turn without interference: no read and no write is refused, times out or is cancelled, and only
      other tasks run between wake-ups. A read may fail, and may be unusable. */
  predicate CleanTurn(l: Loop, t: Turn) {
    match t
    case Elsewhere(ops) => Bystanders(ops)
    case Away => false
    case Overtaken => false
    case NoText => true
    case Visit(read, _, _, apply, _) =>
      var (g, exit) := RunFanCommand(l.fan, ReadTemp, read); var speed := WakeOf(l, t).speed;
      && !exit.TimedOut? && !exit.Cancelled? && !PollCurve(l.fan, WakeOf(l, t)).1.Cut?
      && (exit.Value? && speed.Some? ==> ApplyManualSpeed(g, speed.value, apply).1 == Applied)
  }

  ghost predicate CleanRun(l: Loop, turns: seq<Turn>) {
    turns != [] ==>
      var n := |turns| - 1;
      CleanRun(l, turns[..n]) && (LoopRun(l, turns[..n]).gaveUp || CleanTurn(LoopRun(l, turns[..n]), turns[n]))
  }

  /** The loop is alive, or gave up. */
  ghost predicate Alive(l: Loop) {
    !l.cut && (l.gaveUp || (Free(l.fan) && l.failures < 3))
  }

  /** What a clean visit does to the fan. */
  lemma CleanVisitLeaves(l: Loop, t: Turn)
    requires t.Visit? && Alive(l) && !l.gaveUp && ForeignTurn(t) && CleanTurn(l, t)
    ensures var n := Next(l, t);
            && Alive(n) && AfterRead(l, t) == EcOf(l.fan.q.trace) && PollCurve(l.fan, WakeOf(l, t)).1 != PassedOver
            && l.writes <= n.writes
            && (!n.gaveUp ==>
                  FanWatchdog.Speeds(n.fan.q.trace) == FanWatchdog.Speeds(l.fan.q.trace) + n.writes[|l.writes|..])
  {
    hide RunFanCommand, ApplyManualSpeed, RestoreFanAuto, EcOf, C.Aim, C.Choose, Recorded, FanWatchdog.Speeds,
        FanWatchdog.FanIdle;
    ReadLeaves(l.fan, t.read);
    var (g, exit) := RunFanCommand(l.fan, ReadTemp, t.read);
    var k := WakeOf(l, t);
    if exit.Value? && k.speed.Some? {
      AppliedOnWire(g, k.speed.value, t.apply);
      var h := ApplyManualSpeed(g, k.speed.value, t.apply).0;
      SameRecord(h, h.(error := false, control := Curve));
      assert Next(l, t).writes == l.writes + [k.speed.value];
    } else {
      assert FanWatchdog.Speeds(g.q.trace) + [] == FanWatchdog.Speeds(g.q.trace);
    }
  }

  lemma CleanTicks(l: Loop, t: Turn)
    requires Alive(l) && !l.gaveUp && ForeignTurn(t) && CleanTurn(l, t)
    ensures forall i | 0 <= i < |Ticks(l, t)| :: C.Clean(Ticks(l, t)[i])
    ensures t.Visit? ==>
              var ticks := Ticks(l, t);
              && |ticks| == 1 && ticks[0].Poll? && ticks[0].curve == t.curve
              && (RunFanCommand(l.fan, ReadTemp, t.read).1.Value? ==> ticks[0].temp == t.temp)
  {
    hide RunFanCommand, ApplyManualSpeed, RestoreFanAuto, EcOf, C.Aim, C.Choose, Recorded, FanRun, PollCurve;
    if t.Visit? {
      CleanVisitLeaves(l, t);
    } else if t.Elsewhere? {
      BystandersLeave(l.fan, t.ops);
    }
  }

  /** The loop's writes are what the wire carries beyond `base`. */
  ghost predicate OnWire(base: seq<int>, l: Loop) {
    !l.gaveUp ==> FanWatchdog.Speeds(l.fan.q.trace) == base + l.writes
  }

  lemma CleanTurnTracks(l: Loop, t: Turn, base: seq<int>)
    requires Alive(l) && !l.gaveUp && ForeignTurn(t) && CleanTurn(l, t) && C.InStep(Abstract(l)) && OnWire(base, l)
    ensures var n := Next(l, t);
            && Alive(n) && C.InStep(Abstract(n)) && OnWire(base, n)
            && (t.Visit? && !n.gaveUp && RunFanCommand(l.fan, ReadTemp, t.read).1.Value? ==>
                  C.OnTarget(Abstract(n), t.temp, t.curve))
  {
    hide Free, RunFanCommand, EcOf, CleanTurn, Next, FanWatchdog.Speeds, C.OnTarget, C.InStep, ForeignTurn, Abstract;
    CleanTurnInStep(l, t);
    if t.Visit? {
      CleanVisitLeaves(l, t);
      var n := Next(l, t);
      assert base + l.writes + n.writes[|l.writes|..] == base + n.writes;
    } else {
      OtherTurnLeaves(l, t);
    }
  }

  lemma CleanTurnInStep(l: Loop, t: Turn)
    requires Alive(l) && !l.gaveUp && ForeignTurn(t) && CleanTurn(l, t) && C.InStep(Abstract(l))
    ensures var n := Next(l, t);
            && C.InStep(Abstract(n))
            && (t.Visit? && !n.gaveUp && RunFanCommand(l.fan, ReadTemp, t.read).1.Value? ==>
                  C.OnTarget(Abstract(n), t.temp, t.curve))
  {
    hide Recorded, RunFanCommand, EcOf, CleanTurn, Next, Ticks, FanWatchdog.FanIdle, C.OnTarget, C.InStep, ForeignTurn;
    CleanTicks(l, t);
    TurnSimulates(l, t);
    StepsIsRun(Abstract(l), Ticks(l, t));
    C.CleanRunsTrack(Abstract(l), Ticks(l, t));
    hide C.Run, Steps;
  }

  lemma OtherTurnLeaves(l: Loop, t: Turn)
    requires Alive(l) && !l.gaveUp && ForeignTurn(t) && CleanTurn(l, t) && !t.Visit?
    ensures var n := Next(l, t);
            && Alive(n) && n.writes == l.writes && !n.gaveUp
            && FanWatchdog.Speeds(n.fan.q.trace) == FanWatchdog.Speeds(l.fan.q.trace)
  {
    hide FanRun, EcOf, Recorded, FanWatchdog.Speeds, FanWatchdog.FanIdle;
    if t.Elsewhere? {
      BystandersLeave(l.fan, t.ops);
    }
  }

  lemma {:induction false} LoopRunSnoc(l: Loop, turns: seq<Turn>)
    requires turns != []
    ensures var n := |turns| - 1; LoopRun(l, turns) == Next(LoopRun(l, turns[..n]), turns[n])
    decreases |turns|
  {
    hide Next;
    if |turns| > 1 {
      var n := |turns| - 1;
      assert turns[..n][1..] == turns[1..][..n - 1];
      LoopRunSnoc(Next(l, turns[0]), turns[1..]);
    }
  }

  /**
   * Every run of the curve loop over the hardware queue without interference, from
   * any fan that is free for it: the speeds on the wire are exactly the loop's
   * writes, each at least 3 points from the one before; the controller, read off
   * the hardware trace, holds the last of them; and right after a wake-up whose
   * read returned it is within 2 points of that target, so at least 98 when hot.
   */
  lemma {:induction false} CleanLoopTracks(f: Fan, turns: seq<Turn>)
    requires Free(f) && forall i | 0 <= i < |turns| :: ForeignTurn(turns[i])
    requires CleanRun(START.(fan := f), turns)
    ensures var l := LoopRun(START.(fan := f), turns);
            && C.Apart(l.writes) && C.Percentages(l.writes)
            && (!l.gaveUp ==>
                  && FanWatchdog.Speeds(l.fan.q.trace) == FanWatchdog.Speeds(f.q.trace) + l.writes
                  && (l.last.Some? ==> EcOf(l.fan.q.trace) == C.Fixed(l.last.value) && l.writes != []))
    ensures turns != [] && turns[|turns| - 1].Visit? ==>
              var before, t := LoopRun(START.(fan := f), turns[..|turns| - 1]), turns[|turns| - 1];
              var l := LoopRun(START.(fan := f), turns);
              !l.gaveUp && RunFanCommand(before.fan, ReadTemp, t.read).1.Value? ==>
                C.OnTarget(Abstract(l), t.temp, t.curve)
  {
    hide RunFanCommand, EcOf, CleanTurn, FanWatchdog.Speeds, C.OnTarget, Free, Next, ForeignTurn;
    CleanLoopKeeps(f, turns);
    if turns != [] {
      var n := |turns| - 1;
      LoopRunSnoc(START.(fan := f), turns);
      CleanLoopKeeps(f, turns[..n]);
      var before := LoopRun(START.(fan := f), turns[..n]);
      if before.gaveUp {
        GaveUpStays(before, turns[n]);
      } else {
        CleanTurnTracks(before, turns[n], FanWatchdog.Speeds(f.q.trace));
      }
    }
  }

  lemma GaveUpStays(l: Loop, t: Turn)
    requires l.gaveUp
    ensures Next(l, t) == l
  {}

  lemma {:induction false} CleanLoopKeeps(f: Fan, turns: seq<Turn>)
    requires Free(f) && forall i | 0 <= i < |turns| :: ForeignTurn(turns[i])
    requires CleanRun(START.(fan := f), turns)
    ensures var l := LoopRun(START.(fan := f), turns);
            Alive(l) && C.InStep(Abstract(l)) && OnWire(FanWatchdog.Speeds(f.q.trace), l)
  {
    hide RunFanCommand, EcOf, CleanTurn, FanWatchdog.Speeds, Free, Next, ForeignTurn;
    if turns == [] {
      assert FanWatchdog.Speeds(f.q.trace) + [] == FanWatchdog.Speeds(f.q.trace);
    } else {
      var n := |turns| - 1;
      CleanLoopKeeps(f, turns[..n]);
      LoopRunSnoc(START.(fan := f), turns);
      var before := LoopRun(START.(fan := f), turns[..n]);
      if before.gaveUp {
        GaveUpStays(before, turns[n]);
      } else {
        CleanTurnTracks(before, turns[n], FanWatchdog.Speeds(f.q.trace));
      }
    }
  }

  // ------------------------------------------------------------ a stale belief

  /**
   * A wake-up that reports success, from any state in which the loop may poll: the
   * controller holds the speed the loop believes exactly when it did before, or the
   * loop had no belief, or the target was far enough from that belief to be written.
   */
  lemma StaleIff(l: Loop, t: Turn)
    requires Alive(l) && !l.gaveUp && t.Visit? && ForeignTurn(t)
    requires var e := PollCurve(l.fan, WakeOf(l, t)).1; e.Kept? || e.Wrote?
    ensures var n := Next(l, t); var aim := C.Aim(t.temp, t.curve);
            && aim.Some? && n.last.Some? && n.failures == 0
            && (EcOf(n.fan.q.trace) == C.Fixed(n.last.value) <==>
                  || l.last.None? || EcOf(l.fan.q.trace) == C.Fixed(l.last.value)
                  || C.Abs(aim.value - l.last.value) >= 3)
  {
    hide RunFanCommand, ApplyManualSpeed, EcOf, C.Aim, C.Choose, Recorded, FanWatchdog.Speeds, FanWatchdog.FanIdle,
        C.Step;
    SuccessfulVisit(l, t);
    CleanTicks(l, t);
    TurnSimulates(l, t);
    OneStep(Abstract(l), Ticks(l, t)[0]);
    assert Ticks(l, t) == [Ticks(l, t)[0]];
    C.StaleIff(Abstract(l), Ticks(l, t)[0]);
  }

  /** The loop is not in charge at this wake-up: another mode, an override, an error or a restoration. */
  predicate StandsBack(l: Loop, t: Turn) {
    t.Away? || (t.Visit? && (l.fan.control.Override? || l.fan.error || l.fan.restoring.Some?))
  }

  /** What the loop is left with after it stood back and others have done this. */
  function Resumed(l: Loop, t: Turn, ops: seq<Op>): (r: Loop) { Next(Next(l, t), Elsewhere(ops)) }

  /** The first successful wake-up after that writes, and puts the target into effect. */
  lemma ResumingWrites(l: Loop, t: Turn, ops: seq<Op>, next: Turn)
    requires !l.gaveUp && !l.cut && StandsBack(l, t)
    requires Alive(Resumed(l, t, ops)) && next.Visit? && ForeignTurn(next)
    requires var e := PollCurve(Resumed(l, t, ops).fan, WakeOf(Resumed(l, t, ops), next)).1; e.Kept? || e.Wrote?
    ensures var m := Resumed(l, t, ops); var n := Next(m, next); var aim := C.Aim(next.temp, next.curve);
            && PollCurve(m.fan, WakeOf(m, next)).1.Wrote?
            && aim.Some? && n.last == aim && n.writes == m.writes + [aim.value]
            && EcOf(n.fan.q.trace) == C.Fixed(aim.value)
  {
    hide RunFanCommand, ApplyManualSpeed, EcOf, C.Aim, Recorded, FanWatchdog.Speeds, FanWatchdog.FanIdle, C.Step, Alive,
        FanRun;
    StaleIff(Resumed(l, t, ops), next);
  }

  lemma SuccessfulVisit(l: Loop, t: Turn)
    requires Alive(l) && !l.gaveUp && t.Visit?
    requires var e := PollCurve(l.fan, WakeOf(l, t)).1; e.Kept? || e.Wrote?
    ensures CleanTurn(l, t) && RunFanCommand(l.fan, ReadTemp, t.read).1.Value? && C.Aim(t.temp, t.curve).Some?
  {
    hide RunFanCommand, ApplyManualSpeed, RestoreFanAuto, C.Aim, C.Choose, Recorded, FanWatchdog.FanIdle;
  }

  /** After a write that failed, without the loop being cut or giving up, the next wake-up is passed over,
      which clears the last speed, or else the controller is in stock auto, whatever that speed is. */
  lemma FailedWriteMeansStock(l: Loop, t: Turn)
    requires Alive(l) && !l.gaveUp && t.Visit? && ForeignTurn(t) && PollCurve(l.fan, WakeOf(l, t)).1.Failed?
    requires RunFanCommand(l.fan, ReadTemp, t.read).1.Value? && WakeOf(l, t).speed.Some?
    ensures var n := Next(l, t);
            && n.last == l.last && n.failures == l.failures + 1
            && (n.fan.error || n.fan.restoring.Some? || EcOf(n.fan.q.trace) == C.Auto)
  {
    hide RunFanCommand, ApplyManualSpeed, RestoreFanAuto, EcOf, C.Aim, C.Choose, Sound, Reserved, ApplyLost,
        SequenceAdopts, Stock, FanWatchdog.FanIdle;
    CommandExact(l.fan, ReadTemp, t.read);
    var g := RunFanCommand(l.fan, ReadTemp, t.read).0;
    var speed := WakeOf(l, t).speed.value;
    ApplyExact(g, speed, t.apply);
    SequenceRecordedIff(g, speed, t.apply);
    EcIsStock(ApplyManualSpeed(g, speed, t.apply).0.q.trace);
  }

  // ---------------------------------------------------------------- concrete runs

  const DONE := Completes(Returned(true))

  const ACCEPTED := ManualWait(DONE, DONE, UNDISTURBED, UNDISTURBED)

  /** The speed write is refused, and stock auto confirmed. */
  const REFUSED := ManualWait(DONE, Completes(Returned(false)), FanWait(DONE, [], false), UNDISTURBED)

  function Cool(): Turn { Visit(DONE, Some(40_000), C.RampText(), ACCEPTED, UNDISTURBED) }

  function HotRefused(): Turn { Visit(DONE, Some(90_000), C.RampText(), REFUSED, UNDISTURBED) }

  /** Stock auto and then curve mode again, between two wake-ups. */
  function Reset(): Turn { Elsewhere([StockRequest(DONE, None)]) }

  /** Settled, with no future ahead of its time. */
  ghost predicate Calm(f: Fan) {
    && Settled(f.q) && f.restoring.None? && !f.error && !f.control.Override?
    && forall n: nat :: n >= f.q.nextFuture ==> !Done(f.q, n)
  }

  lemma CommandCompletes(f: Fan, call: HwCall, b: bool)
    requires Calm(f)
    ensures var g := f.(q := WithCall(f.q, call, Returned(b)));
            RunFanCommand(f, call, Completes(Returned(b))) == (g, Value(b)) && Calm(g)
  {
    CallCompletes(f.q, call, Some(FanAuto), Returned(b));
    CalmAfter(f, call, b);
    hide RunCall, WithCall, Calm;
  }

  lemma CalmAfter(f: Fan, call: HwCall, b: bool)
    requires Calm(f)
    ensures Calm(f.(q := WithCall(f.q, call, Returned(b))))
  {
    var q := WithCall(f.q, call, Returned(b));
    assert !Done(f.q, q.nextFuture);
    forall n: nat | n >= q.nextFuture ensures !Done(q, n) {
      assert !Done(f.q, n);
    }
  }

  function After(f: Fan, call: HwCall, b: bool): Fan { f.(q := WithCall(f.q, call, Returned(b))) }

  lemma EcAfter(f: Fan, call: HwCall, b: bool)
    ensures var ec := EcOf(After(f, call, b).q.trace);
            && (call.FanAuto? && b ==> ec == C.Auto) && (call.FanSpeed? && b ==> ec == C.Fixed(call.speed))
            && (call.ReadTemp? ==> ec == EcOf(f.q.trace))
  {
    var c := Completed(Item(f.q.nextFuture, call), Returned(b));
    assert (f.q.trace + [c])[..|f.q.trace|] == f.q.trace;
  }

  /** What a wake-up whose read returned makes of the loop. */
  lemma VisitOutcome(l: Loop, t: Turn, g: Fan, aim: int)
    requires t.Visit? && !l.gaveUp && !l.cut && l.fan.restoring.None? && !l.fan.error && !l.fan.control.Override?
    requires RunFanCommand(l.fan, ReadTemp, t.read) == (g, Value(true)) && C.Aim(t.temp, t.curve) == Some(aim)
    ensures var v := C.Choose(l.last, aim); var (h, exit) := ApplyManualSpeed(g, v, t.apply);
            if l.last == Some(v) then Next(l, t) == l.(fan := g, failures := 0)
            else
              && (exit == Applied ==>
                    Next(l, t) == l.(fan := h.(error := false, control := Curve), failures := 0, last := Some(v),
                                     writes := l.writes + [v]))
              && (exit == Rejected && l.failures < 2 ==>
                    Next(l, t) == l.(fan := h.(control := Nobody), failures := l.failures + 1))
  {
    hide RunFanCommand, ApplyManualSpeed, RestoreFanAuto, C.Aim, C.Choose;
  }

  lemma CoolTurn()
    ensures var t := Cool();
            t.Visit? && t.read == DONE && t.apply == ACCEPTED && C.Aim(t.temp, t.curve) == Some(20)
    ensures var t := HotRefused();
            t.Visit? && t.read == DONE && t.apply == REFUSED && C.Aim(t.temp, t.curve) == Some(100)
  {
    hide C.Aim, C.RampText;
    C.RampAims();
  }

  /** The first wake-up writes 20. */
  lemma CoolWrites(l: Loop)
    requires Calm(l.fan) && !l.gaveUp && !l.cut && l.last.None?
    ensures var n := Next(l, Cool());
            && Calm(n.fan) && n.last == Some(20) && n.failures == 0 && n.writes == l.writes + [20]
            && n.gaveUp == l.gaveUp && n.cut == l.cut && EcOf(n.fan.q.trace) == C.Fixed(20)
  {
    hide RunFanCommand, ApplyManualSpeed, EcOf, Calm, WithCall, C.Aim, Next, Cool, Completes;
    CoolTurn();
    CommandCompletes(l.fan, ReadTemp, true);
    var g := After(l.fan, ReadTemp, true);
    AcceptedApply(g, 20);
    CalmFree(l.fan);
    CalmAs(ApplyManualSpeed(g, 20, ACCEPTED).0);
    VisitOutcome(l, Cool(), g, 20);
  }

  lemma AcceptedApply(f: Fan, speed: int)
    requires Calm(f)
    ensures var (g, exit) := ApplyManualSpeed(f, speed, ACCEPTED);
            exit == Applied && Calm(g) && EcOf(g.q.trace) == C.Fixed(speed)
  {
    hide RunFanCommand, EcOf, Calm, WithCall, Completes;
    CommandCompletes(f, FanManual, true);
    var h := After(f, FanManual, true);
    CommandCompletes(h, FanSpeed(speed), true);
    EcAfter(h, FanSpeed(speed), true);
  }

  lemma CalmFree(f: Fan)
    requires Calm(f)
    ensures f.restoring.None? && !f.error && !f.control.Override?
  {}

  lemma CalmAs(f: Fan)
    requires Calm(f)
    ensures Calm(f.(error := false, control := Curve)) && Calm(f.(control := Nobody))
  {}

  /** A cool wake-up at 20 writes nothing. */
  lemma CoolKeeps(l: Loop)
    requires Calm(l.fan) && !l.gaveUp && !l.cut && l.last == Some(20)
    ensures Next(l, Cool()) == l.(fan := After(l.fan, ReadTemp, true), failures := 0)
    ensures EcOf(Next(l, Cool()).fan.q.trace) == EcOf(l.fan.q.trace)
  {
    hide RunFanCommand, ApplyManualSpeed, EcOf, Calm, WithCall, C.Aim, Next, Cool, Completes;
    CoolTurn();
    CommandCompletes(l.fan, ReadTemp, true);
    EcAfter(l.fan, ReadTemp, true);
    CalmFree(l.fan);
    VisitOutcome(l, Cool(), After(l.fan, ReadTemp, true), 20);
  }

  /** A hot wake-up whose write is refused leaves stock auto. */
  lemma HotFails(l: Loop)
    requires Calm(l.fan) && !l.gaveUp && !l.cut && l.last == Some(20) && l.failures == 0
    ensures var n := Next(l, HotRefused());
            && Calm(n.fan) && n.last == Some(20) && n.failures == 1 && n.writes == l.writes && !n.gaveUp && !n.cut
            && EcOf(n.fan.q.trace) == C.Auto
  {
    hide RunFanCommand, ApplyManualSpeed, EcOf, Calm, WithCall, C.Aim, Next, HotRefused, Completes;
    CoolTurn();
    CommandCompletes(l.fan, ReadTemp, true);
    var g := After(l.fan, ReadTemp, true);
    RefusedApply(g, 100);
    CalmFree(l.fan);
    CalmAs(ApplyManualSpeed(g, 100, REFUSED).0);
    VisitOutcome(l, HotRefused(), g, 100);
  }

  lemma RefusedApply(f: Fan, speed: int)
    requires Calm(f)
    ensures var (g, exit) := ApplyManualSpeed(f, speed, REFUSED);
            exit == Rejected && Calm(g) && EcOf(g.q.trace) == C.Auto
  {
    hide RunFanCommand, RestoreFanAuto, EcOf, Calm, WithCall;
    CommandCompletes(f, FanManual, true);
    var h := After(f, FanManual, true);
    CommandCompletes(h, FanSpeed(speed), false);
    var k := After(h, FanSpeed(speed), false);
    RestoreCompletes(k);
    EcAfter(k, FanAuto, true);
    assert ApplyManualSpeed(f, speed, REFUSED) == AfterRefusal(k, REFUSED);
  }

  lemma RestoreCompletes(f: Fan)
    requires Calm(f)
    ensures RestoreFanAuto(f, FanWait(DONE, [], false)) == (After(f, FanAuto, true), Restored)
    ensures Calm(After(f, FanAuto, true))
  {
    CommandCompletes(f, FanAuto, true);
    CallCompletes(f.q, FanAuto, Some(FanAuto), Returned(true));
    hide RunCall;
  }

  lemma ResetLeaves(l: Loop)
    requires Calm(l.fan) && !l.gaveUp && !l.cut
    ensures var n := Next(l, Reset());
            && n == l.(fan := After(l.fan, FanAuto, true).(control := Nobody)) && Calm(n.fan)
            && EcOf(n.fan.q.trace) == C.Auto
  {
    hide EcOf, WithCall, FanRun, FanStep, Calm;
    StockCompletes(l.fan);
    CommandCompletes(l.fan, FanAuto, true) by { hide RunFanCommand; }
    EcAfter(l.fan, FanAuto, true);
    CalmAs(After(l.fan, FanAuto, true));
    OneOp(l.fan, StockRequest(DONE, None));
  }

  lemma StockCompletes(f: Fan)
    requires Calm(f)
    ensures FanStep(f, StockRequest(DONE, None)) == After(f, FanAuto, true).(control := Nobody)
  {
    CallCompletes(f.q, FanAuto, None, Returned(true));
    hide RunCall, WithCall, Settled;
  }

  lemma OneOp(f: Fan, op: Op)
    ensures FanRun(f, [op]) == FanStep(f, op)
  {
    hide FanStep;
    assert [op][1..] == [];
  }

  lemma ThreeTurns(l: Loop, a: Turn, b: Turn, c: Turn)
    ensures LoopRun(l, [a, b, c]) == Next(Next(Next(l, a), b), c)
  {
    hide Next;
    assert [a, b, c][1..] == [b, c] && [b, c][1..] == [c] && [c][1..] == [];
    assert LoopRun(Next(l, a), [b, c]) == LoopRun(Next(Next(l, a), b), [c]);
  }

  /**
   * Two runs over the hardware after which the loop reports success with 20 while
   * the controller is in stock auto and nothing says so: a refused write between
   * two cool wake-ups, and stock auto and curve mode set again between them.
   */
  lemma StockAutoUnnoticed()
    ensures var refused := LoopRun(START, [Cool(), HotRefused(), Cool()]);
            && refused.last == Some(20) && refused.failures == 0 && EcOf(refused.fan.q.trace) == C.Auto
            && !refused.fan.error && refused.fan.restoring.None? && !refused.gaveUp && !refused.cut
    ensures var reset := LoopRun(START, [Cool(), Reset(), Cool()]);
            && reset.last == Some(20) && reset.failures == 0 && EcOf(reset.fan.q.trace) == C.Auto
            && !reset.fan.error && reset.fan.restoring.None? && !reset.gaveUp && !reset.cut
  {
    assert Calm(FRESH);
    hide Next, EcOf, Calm, Cool, HotRefused, Reset;
    CoolWrites(START);
    var l := Next(START, Cool());
    HotFails(l);
    CoolKeeps(Next(l, HotRefused()));
    CalmFree(Next(l, HotRefused()).fan);
    ResetLeaves(l);
    CoolKeeps(Next(l, Reset()));
    CalmFree(Next(l, Reset()).fan);
    ThreeTurns(START, Cool(), HotRefused(), Cool());
    ThreeTurns(START, Cool(), Reset(), Cool());
  }

  /** There are runs without interference: a cool wake-up from process start is one. */
  lemma CoolRunIsClean()
    ensures Free(FRESH) && ForeignTurn(Cool()) && CleanRun(START, [Cool()])
  {
    FreshIsFree();
    assert Calm(FRESH);
    CoolIsClean(START);
    assert [Cool()][..0] == [];
    hide Cool, CleanTurn, Free, Calm;
    assert CleanRun(START, []);
    assert LoopRun(START, []) == START;
  }

  lemma FreshIsFree()
    ensures Free(FRESH)
  {
    FreshHonest();
    assert Items([]) == [];
  }

  lemma CoolIsClean(l: Loop)
    requires Calm(l.fan) && l.last.None?
    ensures CleanTurn(l, Cool()) && ForeignTurn(Cool())
  {
    hide RunFanCommand, ApplyManualSpeed, Calm, WithCall, C.Aim, C.RampText, EcOf;
    CoolTurn();
    CommandCompletes(l.fan, ReadTemp, true);
    AcceptedApply(After(l.fan, ReadTemp, true), 20);
    CalmFree(l.fan);
  }
}
