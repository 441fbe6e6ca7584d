/**
 * Writing the battery's two charge thresholds: which is written first, what is
 * seen in between, rollback after a partial write, and when the desired state
 * changes.  The kernel's rule is that start never exceeds end.
 */
module BatteryThresholds {
  import opened Wrappers

  datatype Levels = Levels(end: int, start: int)

  predicate InOrder(l: Levels) { l.start <= l.end }

  predicate AllInOrder(trace: seq<Levels>) { forall i :: 0 <= i < |trace| ==> InOrder(trace[i]) }

  /** What the driver does with one write; `Altered` is an accepted write that stores something else. */
  datatype Reply = Stored | Refused | Altered(value: int)

  /** What one call of the adapter meets. */
  datatype Device = Device(
    startReadable: bool,
    first: Reply, second: Reply,
    endReadback: bool, startReadback: bool)

  predicate Honest(d: Device) { !d.first.Altered? && !d.second.Altered? }

  predicate Willing(d: Device) {
    d.startReadable && d.first.Stored? && d.second.Stored? && d.endReadback && d.startReadback
  }

  datatype Report = Report(endOk: bool, startOk: bool, readbackOk: bool)

  function Store(was: int, value: int, reply: Reply): (r: int) {
    match reply
    case Stored => value
    case Refused => was
    case Altered(other) => other
  }

  predicate StartFirst(cur: Levels, want: Levels, d: Device) { d.startReadable && want.end < cur.start }

  /** Every state after one adapter call, the one before it first. */
  function Trace(cur: Levels, want: Levels, d: Device): (r: seq<Levels>)
    ensures |r| > 0 && r[0] == cur
  {
    if StartFirst(cur, want, d) then
      var one := cur.(start := Store(cur.start, want.start, d.first));
      if d.first.Refused? then [cur, one]
      else [cur, one, one.(end := Store(one.end, want.end, d.second))]
    else
      var one := cur.(end := Store(cur.end, want.end, d.first));
      if d.first.Refused? then [cur, one]
      else [cur, one, one.(start := Store(one.start, want.start, d.second))]
  }

  function Last(trace: seq<Levels>): (r: Levels)
    requires |trace| > 0
  {
    trace[|trace|-1]
  }

  function Outcome(cur: Levels, want: Levels, d: Device): (r: Report) {
    var firstOk := !d.first.Refused?;
    var secondOk := firstOk && !d.second.Refused?;
    var final := Last(Trace(cur, want, d));
    var seen := d.endReadback && d.startReadback && final == want;
    if StartFirst(cur, want, d) then Report(secondOk, firstOk, seen) else Report(firstOk, secondOk, seen)
  }

  // --------------------------------------------------------------- what is true

  /** The order of writing is safe: start could be read, or end is not lowered below it, or nothing is written. */
  predicate KeepsOrder(cur: Levels, want: Levels, d: Device) {
    d.startReadable || cur.start <= want.end || d.first.Refused?
  }

  /**
   * Between any two pairs that are in order, a driver that stores what it
   * accepts passes only through pairs in order, unless the present start could
   * not be read while end is being lowered below it: exactly then end is lowered first.
   */
  lemma InOrderThroughoutIff(cur: Levels, want: Levels, d: Device)
    requires InOrder(cur) && InOrder(want) && Honest(d)
    ensures AllInOrder(Trace(cur, want, d)) <==> KeepsOrder(cur, want, d)
  {
    var trace := Trace(cur, want, d);
    if !d.startReadable && want.end < cur.start && !d.first.Refused? {
      assert !InOrder(trace[1]);
    }
  }

  /** Lowering 90/85 to 60/55 with an unreadable start leaves end below start in between. */
  lemma UnreadableStartExample()
    ensures var d := Device(false, Stored, Stored, true, true);
            !AllInOrder(Trace(Levels(90, 85), Levels(60, 55), d))
  {
    assert Trace(Levels(90, 85), Levels(60, 55), Device(false, Stored, Stored, true, true))[1] == Levels(60, 85);
  }

  /** All three flags together mean that both thresholds now read as requested. */
  lemma ConfirmedMeansWritten(cur: Levels, want: Levels, d: Device)
    ensures var r := Outcome(cur, want, d);
            r.endOk && r.startOk && r.readbackOk ==> Last(Trace(cur, want, d)) == want && |Trace(cur, want, d)| == 3
    ensures Willing(d) ==> Outcome(cur, want, d) == Report(true, true, true)
  {}

  /** On a driver that stores what it accepts, each flag says of its own threshold, where that had to move,
      whether it did; and start moves first exactly when it was read and end is to fall below it. */
  lemma FlagsMean(cur: Levels, want: Levels, d: Device)
    requires Honest(d)
    ensures var r := Outcome(cur, want, d); var final := Last(Trace(cur, want, d));
            && (cur.end != want.end ==> (r.endOk <==> final.end == want.end))
            && (cur.start != want.start ==> (r.startOk <==> final.start == want.start))
            && (r.readbackOk <==> d.endReadback && d.startReadback && final == want)
    ensures !d.first.Refused? ==>
              Trace(cur, want, d)[1] ==
              if d.startReadable && want.end < cur.start then cur.(start := want.start) else cur.(end := want.end)
  {}

  // ------------------------------------------------------------------- use case

  datatype Mode = Off | Home | Travel | Storage | Custom

  function Preset(m: Mode): (r: Option<Levels>) {
    match m
    case Off => Some(Levels(100, 95))
    case Home => Some(Levels(90, 85))
    case Travel => Some(Levels(80, 75))
    case Storage => Some(Levels(60, 55))
    case Custom => None
  }

  function DeriveMode(l: Levels): (r: Mode)
    ensures r.Custom? || Preset(r) == Some(l)
    ensures forall m :: Preset(m) == Some(l) ==> r == m
  {
    if l == Levels(100, 95) then Off
    else if l == Levels(90, 85) then Home
    else if l == Levels(80, 75) then Travel
    else if l == Levels(60, 55) then Storage
    else Custom
  }

  predicate Acceptable(l: Levels) {
    40 <= l.end <= 100 && 40 <= l.start <= 100 && l.start <= l.end && l.end - l.start >= 5
  }

  datatype Desired = Desired(levels: Levels, mode: Mode)

  datatype Result = BadArgument | Unavailable | Applied | NotPersisted | PartialWrite(rolledBack: bool) | Failed

  /** The whole use case on values: what the levels go through, what is answered, what is desired afterwards. */
  datatype Run = Run(trace: seq<Levels>, result: Result, desired: Desired)

  function SetThresholds(cur: Levels, desired: Desired, want: Levels, writable: bool, remembered: Option<Levels>,
                         d: Device, rollback: Device, saves: bool): (r: Run)
  {
    if !Acceptable(want) then Run([cur], BadArgument, desired)
    else if !writable then Run([cur], Unavailable, desired)
    else
      var trace, report := Trace(cur, want, d), Outcome(cur, want, d);
      if report.endOk && report.startOk && report.readbackOk then
        if saves then Run(trace, Applied, Desired(want, DeriveMode(want))) else Run(trace, NotPersisted, desired)
      else if report.endOk || report.startOk then
        if remembered.None? then Run(trace, PartialWrite(false), desired)
        else
          var back := Trace(Last(trace), remembered.value, rollback);
          Run(trace + back[1..], PartialWrite(Outcome(Last(trace), remembered.value, rollback).readbackOk), desired)
      else Run(trace, Failed, desired)
  }

  /** The request gets as far as the driver. */
  predicate Reaches(want: Levels, writable: bool) { Acceptable(want) && writable }

  /** Some write was accepted and the request did not succeed, so that a remembered pair is written back. */
  predicate RollsBack(cur: Levels, want: Levels, remembered: Option<Levels>, d: Device) {
    var report := Outcome(cur, want, d);
    remembered.Some? && (report.endOk || report.startOk) && !(report.endOk && report.startOk && report.readbackOk)
  }

  /**
   * Through the write, a failure in it and the rollback from there, on a driver
   * that stores what it accepts: start never exceeds end exactly when the order of
   * both writes is safe.
   */
  lemma UseCaseInOrderIff(cur: Levels, desired: Desired, want: Levels, writable: bool, remembered: Option<Levels>,
                          d: Device, rollback: Device, saves: bool)
    requires InOrder(cur) && (remembered.Some? ==> InOrder(remembered.value)) && Honest(d) && Honest(rollback)
    ensures AllInOrder(SetThresholds(cur, desired, want, writable, remembered, d, rollback, saves).trace) <==>
            (Reaches(want, writable) ==>
               && KeepsOrder(cur, want, d)
               && (RollsBack(cur, want, remembered, d) ==>
                   KeepsOrder(Last(Trace(cur, want, d)), remembered.value, rollback)))
  {
    hide Outcome, Trace, KeepsOrder;
    if Reaches(want, writable) {
      var trace := Trace(cur, want, d);
      InOrderThroughoutIff(cur, want, d);
      if RollsBack(cur, want, remembered, d) {
        var back := Trace(Last(trace), remembered.value, rollback);
        AppendInOrder(trace, back);
        if AllInOrder(trace) {
          InOrderThroughoutIff(Last(trace), remembered.value, rollback);
        }
      }
    } else {
      assert AllInOrder([cur]);
    }
  }

  lemma AppendInOrder(trace: seq<Levels>, back: seq<Levels>)
    requires |trace| > 0 && |back| > 0 && back[0] == Last(trace)
    ensures AllInOrder(trace + back[1..]) <==> AllInOrder(trace) && AllInOrder(back)
  {
    var all := trace + back[1..];
    assert forall i :: 0 <= i < |trace| ==> all[i] == trace[i];
    assert forall i :: 1 <= i < |back| ==> all[|trace| + i - 1] == back[i];
  }

  /**
   * Success is answered only for levels that read back as requested; the desired
   * state changes exactly then and to exactly that pair and its mode; a refused
   * request moves nothing; a willing driver rolls a partial write back exactly.
   */
  lemma UseCaseOutcome(cur: Levels, desired: Desired, want: Levels, writable: bool, remembered: Option<Levels>,
                       d: Device, rollback: Device, saves: bool)
    ensures
      var r := SetThresholds(cur, desired, want, writable, remembered, d, rollback, saves);
      && |r.trace| > 0
      && (r.result.Applied? || r.result.NotPersisted? ==> Last(r.trace) == want && Acceptable(want))
      && (r.result.Applied? ==> r.desired == Desired(want, DeriveMode(want)))
      && (!r.result.Applied? ==> r.desired == desired)
      && (r.result.BadArgument? || r.result.Unavailable? || r.result.Failed? ==> Last(r.trace) == cur)
      && (r.result == PartialWrite(true) ==> remembered == Some(Last(r.trace)))
      && (r.result.PartialWrite? && remembered.Some? && Willing(rollback) ==>
            r.result.rolledBack && Last(r.trace) == remembered.value)
  {
    hide Acceptable, DeriveMode;
    ConfirmedMeansWritten(cur, want, d);
    if remembered.Some? {
      var at := Last(Trace(cur, want, d));
      RollbackReads(at, remembered.value, rollback);
      var back := Trace(at, remembered.value, rollback);
      assert Last(Trace(cur, want, d) + back[1..]) == Last(back);
    }
  }

  /** Both writes are accepted and both thresholds read back as requested. */
  predicate Confirms(cur: Levels, want: Levels, d: Device) {
    && !d.first.Refused? && !d.second.Refused? && d.endReadback && d.startReadback
    && Last(Trace(cur, want, d)) == want
  }

  /** Which answer is given: a bad pair first, then a read-only battery; success exactly on confirmation,
      by whether the choice could be saved; failure exactly when the first write is refused; anything in
      between is partial, and rolled back exactly when the remembered pair reads back. */
  lemma AnswerIff(cur: Levels, desired: Desired, want: Levels, writable: bool, remembered: Option<Levels>,
                  d: Device, rollback: Device, saves: bool)
    ensures
      var result := SetThresholds(cur, desired, want, writable, remembered, d, rollback, saves).result;
      var bad := want.end < 40 || want.end > 100 || want.start < 40 || want.start > 100 || want.end < want.start + 5;
      var reaches := !bad && writable;
      && (result == BadArgument <==> bad)
      && (result == Unavailable <==> !bad && !writable)
      && (result == Applied <==> reaches && Confirms(cur, want, d) && saves)
      && (result == NotPersisted <==> reaches && Confirms(cur, want, d) && !saves)
      && (result == Failed <==> reaches && d.first.Refused?)
      && (result.PartialWrite? <==> reaches && !d.first.Refused? && !Confirms(cur, want, d))
      && (result.PartialWrite? ==>
            (result.rolledBack <==>
               && remembered.Some? && rollback.endReadback && rollback.startReadback
               && Last(Trace(Last(Trace(cur, want, d)), remembered.value, rollback)) == remembered.value))
  {
    hide Trace, DeriveMode;
  }

  lemma RollbackReads(at: Levels, back: Levels, d: Device)
    ensures Outcome(at, back, d).readbackOk ==> Last(Trace(at, back, d)) == back
    ensures Willing(d) ==> Outcome(at, back, d).readbackOk
    ensures |Trace(at, back, d)| > 1
  {}

  lemma JoinSeen(before: seq<Levels>, trace: seq<Levels>, back: seq<Levels>)
    requires |trace| > 0 && |back| > 1
    ensures before + (trace + back[1..])[1..] == (before + trace[1..]) + back[1..]
    ensures Last(trace + back[1..]) == Last(back)
  {
    assert (trace + back[1..])[1..] == trace[1..] + back[1..];
  }

  // --------------------------------------------------------------- the files

  /** The two sysfs files, as the adapter writes them; `seen` records every state they pass through. */
  class ChargeControl {
    var end: int
    var start: int
    var desired: Desired
    ghost var seen: seq<Levels>

    ghost function Now(): (l: Levels) reads this { Levels(end, start) }

    constructor (levels: Levels, wanted: Desired)
      ensures Now() == levels && desired == wanted && seen == [levels]
    {
      end, start, desired := levels.end, levels.start, wanted;
      seen := [levels];
    }

    method WriteEnd(value: int, reply: Reply) returns (ok: bool)
      modifies this`end, this`seen
      ensures end == Store(old(end), value, reply) && ok == !reply.Refused?
      ensures seen == old(seen) + [Now()]
    {
      if !reply.Refused? {
        end := if reply.Altered? then reply.value else value;
      }
      ok := !reply.Refused?;
      seen := seen + [Now()];
    }

    method WriteStart(value: int, reply: Reply) returns (ok: bool)
      modifies this`start, this`seen
      ensures start == Store(old(start), value, reply) && ok == !reply.Refused?
      ensures seen == old(seen) + [Now()]
    {
      if !reply.Refused? {
        start := if reply.Altered? then reply.value else value;
      }
      ok := !reply.Refused?;
      seen := seen + [Now()];
    }

    /** One adapter call. */
    method WriteThresholds(want: Levels, d: Device) returns (r: Report)
      modifies this`end, this`start, this`seen
      ensures r == Outcome(old(Now()), want, d)
      ensures seen == old(seen) + Trace(old(Now()), want, d)[1..]
      ensures Now() == Last(Trace(old(Now()), want, d))
    {
      var endOk, startOk := false, false;
      if d.startReadable && want.end < start {
        startOk := WriteStart(want.start, d.first);
        if startOk {
          endOk := WriteEnd(want.end, d.second);
        }
      } else {
        endOk := WriteEnd(want.end, d.first);
        if endOk {
          startOk := WriteStart(want.start, d.second);
        }
      }
      var readback := d.endReadback && d.startReadback && end == want.end && start == want.start;
      r := Report(endOk, startOk, readback);
    }

    /** The use case: validate, write, read back, then save or roll back. */
    method Set(want: Levels, writable: bool, remembered: Option<Levels>, d: Device, rollback: Device, saves: bool)
      returns (result: Result)
      modifies this
      ensures var run := SetThresholds(old(Now()), old(desired), want, writable, remembered, d, rollback, saves);
              && result == run.result && desired == run.desired
              && seen == old(seen) + run.trace[1..] && Now() == Last(run.trace)
    {
      hide Outcome, Trace, Acceptable, DeriveMode;
      ghost var cur, before := Now(), seen;
      if !Acceptable(want) {
        assert before + [cur][1..] == before;
        return BadArgument;
      }
      if !writable {
        assert before + [cur][1..] == before;
        return Unavailable;
      }
      var report := WriteThresholds(want, d);
      ghost var trace := Trace(cur, want, d);
      if report.endOk && report.startOk && report.readbackOk {
        if saves {
          desired := Desired(want, DeriveMode(want));
          return Applied;
        }
        return NotPersisted;
      }
      if report.endOk || report.startOk {
        if remembered.None? {
          return PartialWrite(false);
        }
        ghost var at := Now();
        var back := WriteThresholds(remembered.value, rollback);
        RollbackReads(at, remembered.value, rollback);
        JoinSeen(before, trace, Trace(at, remembered.value, rollback));
        return PartialWrite(back.readbackOk);
      }
      return Failed;
    }
  }
}
