/** Applying a power profile: ordered, verified sysfs writes around a power-profiles-daemon call
that may disturb every field, and the rollback of a snapshot. */
module PowerTransaction {

  datatype Target = Governor(cpu: nat) | Epp(cpu: nat) | Pl1(tree: nat) | Pl2(tree: nat) | NoTurbo | MaxPerf

  datatype Value = Text(text: string) | Number(number: int)

  /** The controls as they read: the sysfs files and the daemon's active profile. */
  datatype Sysfs = Sysfs(files: map<Target, Value>, ppd: string)

  /** A write raises or not, and leaves some state; the daemon call succeeds or not, and leaves
      some state. The number is the count of calls made before, so that two equal calls may
      answer differently. */
  datatype Device = Device(
    write: (nat, Target, Value, Sysfs) -> (bool, Sysfs),
    setPpd: (nat, string, Sysfs) -> (bool, Sysfs))

  datatype Machine = Machine(cpus: seq<nat>, trees: seq<nat>, device: Device)

  datatype Hw = Hw(sys: Sysfs, calls: nat)

  datatype Definition = Definition(
    pl1: int, pl2: int, governor: string, epp: string, ppd: string, turbo: bool, maxPerf: int)

  const PL1_MIN := 3_000_000
  const PL1_MAX := 35_000_000
  const PL2_MAX := 55_000_000

  /** What `_normalize_power_definition` accepts. */
  predicate Normal(d: Definition) {
    && PL1_MIN <= d.pl1 <= PL1_MAX && d.pl1 <= d.pl2 <= PL2_MAX
    && d.governor in {"powersave", "performance"}
    && d.epp in {"power", "default", "balance_power", "balance_performance", "performance"}
    && d.ppd in {"power-saver", "balanced", "performance"}
    && 1 <= d.maxPerf <= 100
  }

  // -- Targets ------------------------------------------------------------------------------

  function Governors(cpus: seq<nat>): seq<Target> {
    seq(|cpus|, i requires 0 <= i < |cpus| => Governor(cpus[i]))
  }

  function Epps(cpus: seq<nat>): seq<Target> {
    seq(|cpus|, i requires 0 <= i < |cpus| => Epp(cpus[i]))
  }

  function Rapl(trees: seq<nat>): seq<Target> {
    if trees == [] then [] else [Pl1(trees[0]), Pl2(trees[0])] + Rapl(trees[1..])
  }

  const MISC := [NoTurbo, MaxPerf]

  /** The value the definition asks for. */
  function Wanted(d: Definition, t: Target): Value {
    match t
    case Governor(_) => Text(d.governor)
    case Epp(_) => Text(d.epp)
    case Pl1(_) => Number(d.pl1)
    case Pl2(_) => Number(d.pl2)
    case NoTurbo => Number(if d.turbo then 0 else 1)
    case MaxPerf => Number(d.maxPerf)
  }

  function Saved(previous: Sysfs, t: Target): Value {
    if t in previous.files then previous.files[t] else Text("")
  }

  const POWERSAVE := Text("powersave")
  const PERFORMANCE := Text("performance")

  // -- Verified writes --------------------------------------------------------------------------

  predicate Reads(sys: Sysfs, t: Target, v: Value) {
    t in sys.files && sys.files[t] == v
  }

  /** `_write_text_verified`: write, and require exact readback. */
  function Write(m: Machine, h: Hw, t: Target, v: Value): (Hw, bool) {
    var (raised, sys) := m.device.write(h.calls, t, v, h.sys);
    (Hw(sys, h.calls + 1), !raised && Reads(sys, t, v))
  }

  function WriteAll(m: Machine, h: Hw, targets: seq<Target>, value: Target -> Value): (Hw, bool)
    decreases |targets|
  {
    if targets == [] then (h, true)
    else
      var (g, ok) := Write(m, h, targets[0], value(targets[0]));
      var (final, others) := WriteAll(m, g, targets[1..], value);
      (final, ok && others)
  }

  /** Up to three attempts, as long as the common deadline allows. */
  function WriteRetried(m: Machine, h: Hw, t: Target, v: Value, attempts: nat): (Hw, bool)
    decreases attempts
  {
    var (g, ok) := Write(m, h, t, v);
    if ok || attempts <= 1 then (g, ok) else WriteRetried(m, g, t, v, attempts - 1)
  }

  /** `_write_epp`; `attempts` gives how many tries the deadline leaves each CPU, at most three. */
  function WriteEpp(m: Machine, h: Hw, targets: seq<Target>, v: Value, attempts: seq<nat>): (Hw, bool)
    decreases |targets|
  {
    if targets == [] then (h, true)
    else
      var (g, ok) := WriteRetried(m, h, targets[0], v, Allowed(attempts));
      var (final, others) := WriteEpp(m, g, targets[1..], v, if attempts == [] then [] else attempts[1..]);
      (final, ok && others)
  }

  function SetPpd(m: Machine, h: Hw, profile: string): (Hw, bool) {
    var (ok, sys) := m.device.setPpd(h.calls, profile, h.sys);
    (Hw(sys, h.calls + 1), ok)
  }

  // -- Verification -------------------------------------------------------------------------------

  predicate AllRead(sys: Sysfs, targets: seq<Target>, value: Target -> Value) {
    forall i | 0 <= i < |targets| :: Reads(sys, targets[i], value(targets[i]))
  }

  datatype Checks = Checks(governor: bool, epp: bool, ppd: bool, rapl: bool, misc: bool) {
    predicate All() {
      governor && epp && ppd && rapl && misc
    }
  }

  /** `verify_power_definition`: an empty set of CPUs or trees never verifies. */
  function Verify(m: Machine, sys: Sysfs, d: Definition): Checks {
    var value := t => Wanted(d, t);
    Checks(m.cpus != [] && AllRead(sys, Governors(m.cpus), value),
           m.cpus != [] && AllRead(sys, Epps(m.cpus), value),
           sys.ppd == d.ppd,
           m.trees != [] && AllRead(sys, Rapl(m.trees), value),
           AllRead(sys, MISC, value))
  }

  // -- The transaction --------------------------------------------------------------------------

  /** `_restore_power_status`: best effort, and whether everything reads as it did before. */
  function Restore(m: Machine, h: Hw, previous: Sysfs): (Hw, bool) {
    var h0 := WriteAll(m, h, Governors(m.cpus), _ => POWERSAVE).0;
    var h1 := if previous.ppd == "" then h0 else SetPpd(m, h0, previous.ppd).0;
    var saved := t => Saved(previous, t);
    var h2 := WriteAll(m, h1, Rapl(m.trees), saved).0;
    var h3 := WriteAll(m, h2, Governors(m.cpus), saved).0;
    var h4 := WriteAll(m, h3, Epps(m.cpus), saved).0;
    var h5 := WriteAll(m, h4, MISC, saved).0;
    (h5, h5.sys == previous)
  }

  datatype Outcome =
    | Invalid                                                     // {"error": ...}
    | Applied(checks: Checks, observed: Sysfs)
    | RolledBack(checks: Checks, observed: Sysfs, restored: bool)

  function WriteDefinition(m: Machine, h: Hw, d: Definition, attempts: seq<nat>): (Hw, Checks) {
    var value := t => Wanted(d, t);
    var (h1, rapl) := WriteAll(m, h, Rapl(m.trees), value);
    var (h2, governor) := WriteAll(m, h1, Governors(m.cpus), value);
    var (h3, epp) := WriteEpp(m, h2, Epps(m.cpus), Text(d.epp), attempts);
    var (h4, misc) := WriteAll(m, h3, MISC, value);
    (h4, Checks(governor, epp, true, rapl, misc))
  }

  /** `apply_power_profile`. */
  function Apply(m: Machine, h: Hw, d: Definition, attempts: seq<nat>): (Hw, Outcome) {
    if !Normal(d) then (h, Invalid)
    else
      var previous := h.sys;
      var (h0, pre) := WriteAll(m, h, Governors(m.cpus), _ => POWERSAVE);
      var (h1, ppd) := SetPpd(m, h0, d.ppd);
      if !ppd then
        var checks := Checks(pre && Verify(m, h1.sys, d).governor, false, false, false, false);
        var (h2, restored) := Restore(m, h1, previous);
        (h2, RolledBack(checks, h1.sys, restored))
      else
        var (h2, written) := WriteDefinition(m, h1, d, attempts);
        var verified := Verify(m, h2.sys, d);
        var checks := Checks(pre && written.governor && verified.governor, written.epp && verified.epp,
                             verified.ppd, written.rapl && verified.rapl, written.misc && verified.misc);
        if checks.All() then (h2, Applied(checks, h2.sys))
        else
          var (h3, restored) := Restore(m, h2, previous);
          (h3, RolledBack(checks, h2.sys, restored))
  }

  // -- Soundness on every device ----------------------------------------------------------------

  /** Every control reads as the definition says. */
  ghost predicate Matches(m: Machine, sys: Sysfs, d: Definition) {
    && sys.ppd == d.ppd
    && (forall c | c in m.cpus :: Reads(sys, Governor(c), Text(d.governor)) && Reads(sys, Epp(c), Text(d.epp)))
    && (forall t | t in m.trees :: Reads(sys, Pl1(t), Number(d.pl1)) && Reads(sys, Pl2(t), Number(d.pl2)))
    && Reads(sys, NoTurbo, Number(if d.turbo then 0 else 1)) && Reads(sys, MaxPerf, Number(d.maxPerf))
  }

  lemma {:induction false} RaplTargets(trees: seq<nat>)
    ensures forall t | t in trees :: Pl1(t) in Rapl(trees) && Pl2(t) in Rapl(trees)
    ensures forall x | x in Rapl(trees) :: (x.Pl1? || x.Pl2?) && x.tree in trees
  {
    if trees != [] {
      RaplTargets(trees[1..]);
    }
  }

  lemma VerifyMatches(m: Machine, sys: Sysfs, d: Definition)
    ensures Verify(m, sys, d).All() <==> (m.cpus != [] && m.trees != [] && Matches(m, sys, d))
  {
    RaplTargets(m.trees);
    var value := t => Wanted(d, t);
    assert forall i | 0 <= i < |m.cpus| ::
        Governors(m.cpus)[i] == Governor(m.cpus[i]) && Epps(m.cpus)[i] == Epp(m.cpus[i]);
    if Verify(m, sys, d).All() {
      forall c | c in m.cpus
        ensures Reads(sys, Governor(c), Text(d.governor)) && Reads(sys, Epp(c), Text(d.epp))
      {
        var i :| 0 <= i < |m.cpus| && m.cpus[i] == c;
        assert Reads(sys, Governors(m.cpus)[i], value(Governors(m.cpus)[i]));
        assert Reads(sys, Epps(m.cpus)[i], value(Epps(m.cpus)[i]));
      }
      assert MISC[0] == NoTurbo && MISC[1] == MaxPerf;
    }
  }

  ghost predicate GovernorsRead(m: Machine, sys: Sysfs, d: Definition) {
    m.cpus != [] && forall c | c in m.cpus :: Reads(sys, Governor(c), Text(d.governor))
  }

  ghost predicate PreferencesRead(m: Machine, sys: Sysfs, d: Definition) {
    m.cpus != [] && forall c | c in m.cpus :: Reads(sys, Epp(c), Text(d.epp))
  }

  ghost predicate LimitsRead(m: Machine, sys: Sysfs, d: Definition) {
    m.trees != [] && forall t | t in m.trees :: Reads(sys, Pl1(t), Number(d.pl1)) && Reads(sys, Pl2(t), Number(d.pl2))
  }

  ghost predicate SwitchesRead(sys: Sysfs, d: Definition) {
    Reads(sys, NoTurbo, Number(if d.turbo then 0 else 1)) && Reads(sys, MaxPerf, Number(d.maxPerf))
  }

  /** Each of the five flags by itself. */
  lemma VerifyFlags(m: Machine, sys: Sysfs, d: Definition)
    ensures var v := Verify(m, sys, d);
            && (v.governor <==> GovernorsRead(m, sys, d)) && (v.epp <==> PreferencesRead(m, sys, d))
            && (v.ppd <==> sys.ppd == d.ppd) && (v.rapl <==> LimitsRead(m, sys, d))
            && (v.misc <==> SwitchesRead(sys, d))
  {
    var value := t => Wanted(d, t);
    var governors, epps, limits := Governors(m.cpus), Epps(m.cpus), Rapl(m.trees);
    RaplTargets(m.trees);
    assert forall i | 0 <= i < |m.cpus| :: governors[i] == Governor(m.cpus[i]) && epps[i] == Epp(m.cpus[i]);
    assert MISC[0] == NoTurbo && MISC[1] == MaxPerf;
    CpuFlags(m, sys, d);
    LimitFlag(m, sys, d);
  }

  lemma CpuFlags(m: Machine, sys: Sysfs, d: Definition)
    ensures m.cpus != [] && AllRead(sys, Governors(m.cpus), t => Wanted(d, t)) <==> GovernorsRead(m, sys, d)
    ensures m.cpus != [] && AllRead(sys, Epps(m.cpus), t => Wanted(d, t)) <==> PreferencesRead(m, sys, d)
  {
    var value := t => Wanted(d, t);
    var governors, epps := Governors(m.cpus), Epps(m.cpus);
    assert forall i | 0 <= i < |m.cpus| :: governors[i] == Governor(m.cpus[i]) && epps[i] == Epp(m.cpus[i]);
    forall c | c in m.cpus && AllRead(sys, governors, value) ensures Reads(sys, Governor(c), Text(d.governor)) {
      var i :| 0 <= i < |m.cpus| && m.cpus[i] == c;
      assert Reads(sys, governors[i], value(governors[i]));
    }
    forall c | c in m.cpus && AllRead(sys, epps, value) ensures Reads(sys, Epp(c), Text(d.epp)) {
      var i :| 0 <= i < |m.cpus| && m.cpus[i] == c;
      assert Reads(sys, epps[i], value(epps[i]));
    }
  }

  lemma LimitFlag(m: Machine, sys: Sysfs, d: Definition)
    ensures m.trees != [] && AllRead(sys, Rapl(m.trees), t => Wanted(d, t)) <==> LimitsRead(m, sys, d)
  {
    var value := t => Wanted(d, t);
    var limits := Rapl(m.trees);
    RaplTargets(m.trees);
    if AllRead(sys, limits, value) {
      forall t | t in m.trees ensures Reads(sys, Pl1(t), Number(d.pl1)) && Reads(sys, Pl2(t), Number(d.pl2)) {
        var i :| 0 <= i < |limits| && limits[i] == Pl1(t);
        var j :| 0 <= j < |limits| && limits[j] == Pl2(t);
        assert Reads(sys, limits[i], value(limits[i])) && Reads(sys, limits[j], value(limits[j]));
      }
    }
    forall i | 0 <= i < |limits| && LimitsRead(m, sys, d) ensures Reads(sys, limits[i], value(limits[i])) {
      assert limits[i] in limits;
    }
  }

  /** An invalid definition, and nothing else, is refused before anything is touched. */
  lemma InvalidTouchesNothing(m: Machine, h: Hw, d: Definition, attempts: seq<nat>)
    ensures Apply(m, h, d, attempts).1.Invalid? <==> !Normal(d)
    ensures !Normal(d) ==> Apply(m, h, d, attempts).0 == h
  {
    hide WriteAll, WriteDefinition, Restore, Verify;
  }

  /** On any device, each check that is reported to hold is true of the controls as they were observed. */
  lemma ChecksMean(m: Machine, h: Hw, d: Definition, attempts: seq<nat>)
    requires Normal(d)
    ensures var outcome := Apply(m, h, d, attempts).1;
            && (outcome.checks.governor ==> GovernorsRead(m, outcome.observed, d))
            && (outcome.checks.epp ==> PreferencesRead(m, outcome.observed, d))
            && (outcome.checks.ppd ==> outcome.observed.ppd == d.ppd)
            && (outcome.checks.rapl ==> LimitsRead(m, outcome.observed, d))
            && (outcome.checks.misc ==> SwitchesRead(outcome.observed, d))
  {
    InvalidTouchesNothing(m, h, d, attempts);
    VerifyFlags(m, Apply(m, h, d, attempts).1.observed, d);
    hide WriteAll, WriteDefinition, Restore, Verify;
  }

  // -- Sequences of writes, on every device -------------------------------------------------------

  /** The hardware after the first k writes of a sequence. */
  function AfterWrites(m: Machine, h: Hw, targets: seq<Target>, value: Target -> Value, k: nat): (r: Hw)
    requires k <= |targets|
  {
    if k == 0 then h
    else Write(m, AfterWrites(m, h, targets, value, k - 1), targets[k - 1], value(targets[k - 1])).0
  }

  lemma {:induction false} AfterShift(m: Machine, h: Hw, targets: seq<Target>, value: Target -> Value, k: nat)
    requires k < |targets|
    ensures AfterWrites(m, Write(m, h, targets[0], value(targets[0])).0, targets[1..], value, k) ==
            AfterWrites(m, h, targets, value, k + 1)
  {
    hide Write;
    if k > 0 { AfterShift(m, h, targets, value, k - 1); }
  }

  predicate EachSucceeds(m: Machine, h: Hw, targets: seq<Target>, value: Target -> Value) {
    forall k | 0 <= k < |targets| :: Write(m, AfterWrites(m, h, targets, value, k), targets[k], value(targets[k])).1
  }

  /** A sequence of verified writes makes every one of them in order, whatever becomes of the others, and
      reports success exactly when each one reads back. */
  lemma {:induction false} WriteAllExact(m: Machine, h: Hw, targets: seq<Target>, value: Target -> Value)
    ensures var (g, ok) := WriteAll(m, h, targets, value);
            && g == AfterWrites(m, h, targets, value, |targets|) && g.calls == h.calls + |targets|
            && (ok <==> EachSucceeds(m, h, targets, value))
    decreases |targets|
  {
    if targets != [] {
      var (g1, ok1) := Write(m, h, targets[0], value(targets[0]));
      var rest := targets[1..];
      WriteCounts(m, h, targets[0], value(targets[0]));
      hide Write;
      WriteAllExact(m, g1, rest, value);
      AfterShift(m, h, targets, value, |targets| - 1);
      forall k | 0 <= k < |rest|
        ensures AfterWrites(m, g1, rest, value, k) == AfterWrites(m, h, targets, value, k + 1)
      {
        AfterShift(m, h, targets, value, k);
      }
      EachSplits(m, h, targets, value);
    }
  }

  /** The governors were all moved to powersave first, each write reading back. */
  predicate AllMovedAside(m: Machine, h: Hw) {
    var powersave: Target -> Value := _ => POWERSAVE;
    EachSucceeds(m, h, Governors(m.cpus), powersave)
  }

  /** The governor check never holds, and so the definition never counts as applied, unless they were. */
  lemma MovedAsideFirst(m: Machine, h: Hw, d: Definition, attempts: seq<nat>)
    requires Normal(d)
    ensures Apply(m, h, d, attempts).1.checks.governor ==> AllMovedAside(m, h)
  {
    hide WriteAll, WriteDefinition, Restore, Verify, EachSucceeds;
    var powersave: Target -> Value := _ => POWERSAVE;
    WriteAllExact(m, h, Governors(m.cpus), powersave);
  }

  lemma EachSplits(m: Machine, h: Hw, targets: seq<Target>, value: Target -> Value)
    requires targets != []
    ensures var (g1, ok1) := Write(m, h, targets[0], value(targets[0]));
            EachSucceeds(m, h, targets, value) <==> ok1 && EachSucceeds(m, g1, targets[1..], value)
  {
    hide Write;
    var (g1, ok1) := Write(m, h, targets[0], value(targets[0]));
    var rest := targets[1..];
    forall k | 0 <= k < |rest|
      ensures AfterWrites(m, g1, rest, value, k) == AfterWrites(m, h, targets, value, k + 1)
    {
      AfterShift(m, h, targets, value, k);
    }
    assert AfterWrites(m, h, targets, value, 0) == h;
    hide AfterWrites;
    if EachSucceeds(m, h, targets, value) {
      forall k | 0 <= k < |rest| ensures Write(m, AfterWrites(m, g1, rest, value, k), rest[k], value(rest[k])).1 {
        assert Write(m, AfterWrites(m, h, targets, value, k + 1), targets[k + 1], value(targets[k + 1])).1;
      }
    }
    if ok1 && EachSucceeds(m, g1, rest, value) {
      forall k | 0 <= k < |targets|
        ensures Write(m, AfterWrites(m, h, targets, value, k), targets[k], value(targets[k])).1
      {
        if k > 0 { assert Write(m, AfterWrites(m, g1, rest, value, k - 1), rest[k - 1], value(rest[k - 1])).1; }
      }
    }
  }

  /** Preferences get at least one and at most three tries each; success means every CPU's last try did. */
  lemma {:induction false} WriteEppBounds(m: Machine, h: Hw, targets: seq<Target>, v: Value, attempts: seq<nat>)
    ensures var (g, ok) := WriteEpp(m, h, targets, v, attempts);
            && h.calls + |targets| <= g.calls <= h.calls + 3 * |targets|
            && (targets != [] ==>
                  var (one, first) := WriteRetried(m, h, targets[0], v, Allowed(attempts));
                  var (rest, others) := WriteEpp(m, one, targets[1..], v, if attempts == [] then [] else attempts[1..]);
                  1 <= Tries(Allowed(attempts)) <= 3 && g == rest && (ok <==> first && others))
    decreases |targets|
  {
    hide WriteRetried;
    if targets != [] {
      RetryExact(m, h, targets[0], v, Allowed(attempts));
      var g := WriteRetried(m, h, targets[0], v, Allowed(attempts)).0;
      WriteEppBounds(m, g, targets[1..], v, if attempts == [] then [] else attempts[1..]);
    }
  }

  /** Whatever the device does: when all five checks hold nothing was rolled back and every control
      reads as the definition says; when some check fails a rollback was attempted, and it reports
      success only if the controls read exactly as before. */
  lemma ApplySound(m: Machine, h: Hw, d: Definition, attempts: seq<nat>)
    requires Normal(d)
    ensures var (g, outcome) := Apply(m, h, d, attempts);
            match outcome
            case Invalid => false
            case Applied(checks, observed) => checks.All() && observed == g.sys && Matches(m, g.sys, d)
            case RolledBack(checks, _, restored) => !checks.All() && (restored <==> g.sys == h.sys)
  {
    VerifyMatches(m, Apply(m, h, d, attempts).0.sys, d);
    hide Verify, WriteDefinition, WriteAll;
  }

  // -- Devices that accept what intel_pstate accepts ----------------------------------------------

  function AllTargets(m: Machine): seq<Target> {
    Governors(m.cpus) + Epps(m.cpus) + Rapl(m.trees) + MISC
  }

  ghost predicate Complete(m: Machine, sys: Sysfs) {
    forall t :: t in sys.files <==> t in AllTargets(m)
  }

  /** A write to t may change t; a governor write may also reset that CPU's preference. */
  predicate Disturbs(t: Target, f: Target) {
    f == t || (t.Governor? && f == Epp(t.cpu))
  }

  predicate Untouched(targets: seq<Target>, f: Target) {
    forall t | t in targets :: !Disturbs(t, f)
  }

  predicate Refuses(sys: Sysfs, t: Target) {
    t.Epp? && Reads(sys, Governor(t.cpu), PERFORMANCE)
  }

  ghost predicate Accepted(m: Machine, sys: Sysfs, t: Target, v: Value, after: Sysfs) {
    && Complete(m, after) && after.ppd == sys.ppd && Reads(after, t, v)
    && forall f | f in sys.files && !Disturbs(t, f) :: Reads(after, f, sys.files[f])
  }

  /** Call number n accepts the write. */
  ghost predicate Takes(m: Machine, n: nat, t: Target, v: Value, sys: Sysfs) {
    var (raised, after) := m.device.write(n, t, v, sys);
    !raised && Accepted(m, sys, t, v, after)
  }

  /** Call number n fails, by raising or by its readback, and changes nothing. */
  ghost predicate Balks(m: Machine, n: nat, t: Target, v: Value, sys: Sysfs) {
    var (raised, after) := m.device.write(n, t, v, sys);
    after == sys && (raised || !Reads(after, t, v))
  }

  /** Of k calls in a row from number n on, one accepts the write. */
  ghost predicate TakesWithin(m: Machine, n: nat, k: nat, t: Target, v: Value, sys: Sysfs) {
    exists c: nat :: n <= c < n + k && Takes(m, c, t, v, sys)
  }

  /** From call number `start` on: a preference is refused exactly while that CPU's governor is
      performance, and otherwise accepted within `tries` calls in a row; every other write is
      accepted at once; the daemon call succeeds but may disturb every file. */
  ghost predicate Obeys(m: Machine, start: nat, tries: nat) {
    && (forall n, t, v, sys | n >= start && t in AllTargets(m) && Complete(m, sys) ::
          if Refuses(sys, t) then Balks(m, n, t, v, sys) && m.device.write(n, t, v, sys).0
          else if t.Epp? then
            (Takes(m, n, t, v, sys) || Balks(m, n, t, v, sys)) && TakesWithin(m, n, tries, t, v, sys)
          else Takes(m, n, t, v, sys))
    && (forall n, p, sys | n >= start && Complete(m, sys) ::
          var (ok, after) := m.device.setPpd(n, p, sys);
          ok && Complete(m, after) && after.ppd == p)
  }

  /** The state after accepted writes to all the targets. */
  ghost predicate Written(m: Machine, sys: Sysfs, targets: seq<Target>, value: Target -> Value, after: Sysfs) {
    && Complete(m, after) && after.ppd == sys.ppd
    && (forall t | t in targets :: Reads(after, t, value(t)))
    && (forall f | f in sys.files && Untouched(targets, f) :: Reads(after, f, sys.files[f]))
  }

  /** Governor, limit and switch writes, or preference writes while no governor is performance. */
  ghost predicate Writable(m: Machine, sys: Sysfs, targets: seq<Target>) {
    && (forall t | t in targets :: t in AllTargets(m))
    && ((forall t | t in targets :: !t.Epp?) || (forall t | t in targets :: t.Epp? && !Refuses(sys, t)))
  }

  lemma {:induction false} WriteAllAccepted(m: Machine, h: Hw, targets: seq<Target>, value: Target -> Value, tries: nat)
    requires Obeys(m, h.calls, tries) && Complete(m, h.sys) && Writable(m, h.sys, targets)
    requires tries == 1 || forall t | t in targets :: !t.Epp?
    ensures var (g, ok) := WriteAll(m, h, targets, value);
            ok && g.calls >= h.calls && Written(m, h.sys, targets, value, g.sys)
    decreases |targets|
  {
    hide AllTargets;
    if targets != [] {
      var t := targets[0];
      assert t in targets;
      var (g, ok) := Write(m, h, t, value(t));
      if t.Epp? { TakesAtOnce(m, h, t, value(t)); }
      assert Takes(m, h.calls, t, value(t), h.sys);
      assert Accepted(m, h.sys, t, value(t), g.sys);
      ObeysLater(m, h.calls, g.calls, tries);
      WriteAllAccepted(m, g, targets[1..], value, tries);
      WrittenCons(m, h.sys, targets, value, g.sys, WriteAll(m, g, targets[1..], value).0.sys);
    }
  }

  lemma TakesAtOnce(m: Machine, h: Hw, t: Target, v: Value)
    requires Obeys(m, h.calls, 1) && Complete(m, h.sys) && t in AllTargets(m) && t.Epp? && !Refuses(h.sys, t)
    ensures Takes(m, h.calls, t, v, h.sys)
  {
    hide AllTargets, Complete;
    assert TakesWithin(m, h.calls, 1, t, v, h.sys);
  }

  lemma ObeysLater(m: Machine, start: nat, later: nat, tries: nat)
    requires Obeys(m, start, tries) && start <= later
    ensures Obeys(m, later, tries)
  {
  }

  lemma WrittenCons(m: Machine, sys: Sysfs, targets: seq<Target>, value: Target -> Value, mid: Sysfs, after: Sysfs)
    requires targets != [] && Writable(m, sys, targets)
    requires Accepted(m, sys, targets[0], value(targets[0]), mid)
    requires Written(m, mid, targets[1..], value, after)
    ensures Written(m, sys, targets, value, after)
  {
    hide AllTargets, Complete;
    var t := targets[0];
    assert t in targets && forall x | x in targets :: x == t || x in targets[1..];
    assert forall x | x in targets[1..] :: x in targets;
    if t !in targets[1..] {
      assert Untouched(targets[1..], t);
    }
    forall f | f in sys.files && Untouched(targets, f)
      ensures Reads(after, f, sys.files[f])
    {
      assert !Disturbs(t, f) && Untouched(targets[1..], f);
    }
  }

  // -- Retries ------------------------------------------------------------------------------------

  /** The hardware after k writes in a row of the same value. */
  function Repeated(m: Machine, h: Hw, t: Target, v: Value, k: nat): (r: Hw)
    ensures r.calls == h.calls + k
  {
    if k == 0 then h else Write(m, Repeated(m, h, t, v, k - 1), t, v).0
  }

  /** The k-th of them, from 0, succeeds. */
  predicate Succeeds(m: Machine, h: Hw, t: Target, v: Value, k: nat) {
    Write(m, Repeated(m, h, t, v, k), t, v).1
  }

  function Tries(attempts: nat): nat { if attempts == 0 then 1 else attempts }

  lemma {:induction false} RepeatedShift(m: Machine, h: Hw, t: Target, v: Value, k: nat)
    ensures Repeated(m, Write(m, h, t, v).0, t, v, k) == Repeated(m, h, t, v, k + 1)
  {
    if k > 0 { RepeatedShift(m, h, t, v, k - 1); }
  }

  /** On any device: a retried write succeeds exactly when one of the tries it is allowed does; it stops
      after the first that does, and otherwise after the last, and makes exactly that many calls. */
  lemma {:induction false} RetryExact(m: Machine, h: Hw, t: Target, v: Value, attempts: nat)
    ensures var (g, ok) := WriteRetried(m, h, t, v, attempts); var n := Tries(attempts);
            && (ok <==> exists k: nat :: k < n && Succeeds(m, h, t, v, k))
            && h.calls < g.calls <= h.calls + n && g == Repeated(m, h, t, v, g.calls - h.calls)
            && (forall k: nat | k < g.calls - h.calls - 1 :: !Succeeds(m, h, t, v, k))
            && (ok ==> Succeeds(m, h, t, v, g.calls - h.calls - 1))
            && (!ok ==> g.calls == h.calls + n)
    decreases attempts
  {
    hide Write;
    var (g1, ok1) := Write(m, h, t, v);
    WriteCounts(m, h, t, v);
    assert Repeated(m, h, t, v, 0) == h && Repeated(m, h, t, v, 1) == g1;
    assert ok1 == Succeeds(m, h, t, v, 0);
    if !ok1 && attempts > 1 {
      RetryExact(m, g1, t, v, attempts - 1);
      SucceedsShift(m, h, t, v);
      var g := WriteRetried(m, h, t, v, attempts).0;
      RepeatedShift(m, h, t, v, g.calls - g1.calls);
      hide Repeated, Succeeds, WriteRetried;
      if WriteRetried(m, h, t, v, attempts).1 {
        assert Succeeds(m, g1, t, v, g.calls - g1.calls - 1);
        assert Succeeds(m, h, t, v, g.calls - g1.calls - 1 + 1);
      }
      forall k: nat | k < attempts && Succeeds(m, h, t, v, k)
        ensures Succeeds(m, g1, t, v, k - 1)
      {
        assert k - 1 + 1 == k;
      }
      forall k: nat | k < g.calls - h.calls - 1 ensures !Succeeds(m, h, t, v, k) {
        if k > 0 { assert Succeeds(m, h, t, v, k - 1 + 1) == Succeeds(m, g1, t, v, k - 1); }
      }
    }
  }

  lemma WriteCounts(m: Machine, h: Hw, t: Target, v: Value)
    ensures Write(m, h, t, v).0.calls == h.calls + 1
  {
  }

  lemma SucceedsShift(m: Machine, h: Hw, t: Target, v: Value)
    ensures forall k: nat :: Succeeds(m, Write(m, h, t, v).0, t, v, k) == Succeeds(m, h, t, v, k + 1)
  {
    hide Write, Repeated;
    forall k: nat ensures Succeeds(m, Write(m, h, t, v).0, t, v, k) == Succeeds(m, h, t, v, k + 1) {
      RepeatedShift(m, h, t, v, k);
    }
  }

  /** The tries the deadline leaves a CPU. */
  function Allowed(attempts: seq<nat>): nat {
    if attempts == [] || attempts[0] > 3 then 3 else attempts[0]
  }

  /** The deadline leaves every CPU the tries a driver may need. */
  predicate Patient(attempts: seq<nat>, tries: nat) {
    tries == 1 || (1 <= tries <= 3 && forall i | 0 <= i < |attempts| :: attempts[i] >= tries)
  }

  lemma {:induction false} RetryAccepted(m: Machine, h: Hw, t: Target, v: Value, attempts: nat, within: nat, tries: nat)
    requires Obeys(m, h.calls, tries) && Complete(m, h.sys) && t in AllTargets(m) && t.Epp? && !Refuses(h.sys, t)
    requires within <= Tries(attempts) && TakesWithin(m, h.calls, within, t, v, h.sys)
    ensures var (g, ok) := WriteRetried(m, h, t, v, attempts);
            ok && g.calls > h.calls && Accepted(m, h.sys, t, v, g.sys)
    decreases attempts
  {
    hide AllTargets, Complete, Obeys, Accepted, Write, Takes, Balks, Refuses, WriteRetried;
    EppTakesOrBalks(m, h, t, v, tries);
    RetryUnfolds(m, h, t, v, attempts);
    var (g1, ok1) := Write(m, h, t, v);
    WriteCounts(m, h, t, v);
    if Takes(m, h.calls, t, v, h.sys) {
      TakenWrite(m, h, t, v);
    } else {
      BalkedWrite(m, h, t, v);
      var c: nat :| h.calls <= c < h.calls + within && Takes(m, c, t, v, h.sys);
      assert c != h.calls && attempts > 1;
      assert TakesWithin(m, g1.calls, within - 1, t, v, g1.sys);
      ObeysLater(m, h.calls, g1.calls, tries);
      RetryAccepted(m, g1, t, v, attempts - 1, within - 1, tries);
    }
  }

  lemma RetryUnfolds(m: Machine, h: Hw, t: Target, v: Value, attempts: nat)
    ensures var (g, ok) := Write(m, h, t, v);
            WriteRetried(m, h, t, v, attempts) ==
            if ok || attempts <= 1 then (g, ok) else WriteRetried(m, g, t, v, attempts - 1)
  {
    hide Write;
  }

  lemma EppTakesOrBalks(m: Machine, h: Hw, t: Target, v: Value, tries: nat)
    requires Obeys(m, h.calls, tries) && Complete(m, h.sys) && t in AllTargets(m) && t.Epp? && !Refuses(h.sys, t)
    ensures Takes(m, h.calls, t, v, h.sys) || Balks(m, h.calls, t, v, h.sys)
    ensures TakesWithin(m, h.calls, tries, t, v, h.sys)
  {
    hide AllTargets, Complete, Takes, Balks, TakesWithin, Refuses;
  }

  lemma TakenWrite(m: Machine, h: Hw, t: Target, v: Value)
    requires Takes(m, h.calls, t, v, h.sys)
    ensures Write(m, h, t, v).1 && Accepted(m, h.sys, t, v, Write(m, h, t, v).0.sys)
  {
    hide Complete;
  }

  lemma BalkedWrite(m: Machine, h: Hw, t: Target, v: Value)
    requires Balks(m, h.calls, t, v, h.sys)
    ensures !Write(m, h, t, v).1 && Write(m, h, t, v).0.sys == h.sys
  {
  }

  lemma {:induction false} WriteEppAccepted(m: Machine, h: Hw, targets: seq<Target>, v: Value, attempts: seq<nat>,
      tries: nat)
    requires Obeys(m, h.calls, tries) && Complete(m, h.sys) && Writable(m, h.sys, targets) && Patient(attempts, tries)
    requires forall t | t in targets :: t.Epp? && !Refuses(h.sys, t)
    ensures var (g, ok) := WriteEpp(m, h, targets, v, attempts);
            ok && g.calls >= h.calls && Written(m, h.sys, targets, _ => v, g.sys)
    decreases |targets|
  {
    hide AllTargets, WriteRetried, Obeys, Complete;
    if targets != [] {
      var t := targets[0];
      assert t in targets;
      EppTakesOrBalks(m, h, t, v, tries);
      RetryAccepted(m, h, t, v, Allowed(attempts), tries, tries);
      var (g, ok) := WriteRetried(m, h, t, v, Allowed(attempts));
      ObeysLater(m, h.calls, g.calls, tries);
      var left := if attempts == [] then [] else attempts[1..];
      StillUnrefused(m, h.sys, t, v, g.sys, targets);
      WriteEppAccepted(m, g, targets[1..], v, left, tries);
      WrittenCons(m, h.sys, targets, _ => v, g.sys, WriteEpp(m, g, targets[1..], v, left).0.sys);
    }
  }

  /** A preference write leaves the governors, so that the other preferences stay writable. */
  lemma StillUnrefused(m: Machine, sys: Sysfs, t: Target, v: Value, after: Sysfs, targets: seq<Target>)
    requires t.Epp? && Accepted(m, sys, t, v, after) && Complete(m, sys)
    requires targets != [] && forall x | x in targets :: x.Epp? && !Refuses(sys, x) && x in AllTargets(m)
    ensures Writable(m, after, targets[1..]) && Complete(m, after)
    ensures forall x | x in targets[1..] :: x.Epp? && !Refuses(after, x)
  {
    TargetKinds(m);
    hide AllTargets, Governors, Epps, Rapl;
    forall x | x in targets[1..]
      ensures x.Epp? && !Refuses(after, x) && x in AllTargets(m)
    {
      assert x in targets;
      if Governor(x.cpu) in sys.files {
        assert !Disturbs(t, Governor(x.cpu));
      }
    }
  }

  lemma {:induction false} RetryRefused(m: Machine, h: Hw, t: Target, v: Value, attempts: nat, tries: nat)
    requires Obeys(m, h.calls, tries) && Complete(m, h.sys) && t in AllTargets(m) && Refuses(h.sys, t)
    ensures !WriteRetried(m, h, t, v, attempts).1
    decreases attempts
  {
    hide AllTargets, Complete;
    var g := Write(m, h, t, v).0;
    assert Balks(m, h.calls, t, v, h.sys);
    assert g.sys == h.sys;
    if attempts > 1 {
      ObeysLater(m, h.calls, g.calls, tries);
      RetryRefused(m, g, t, v, attempts - 1, tries);
    }
  }

  lemma TargetKinds(m: Machine)
    ensures forall t | t in Governors(m.cpus) :: t.Governor? && t.cpu in m.cpus && t in AllTargets(m)
    ensures forall t | t in Epps(m.cpus) :: t.Epp? && t.cpu in m.cpus && t in AllTargets(m)
    ensures forall t | t in Rapl(m.trees) :: (t.Pl1? || t.Pl2?) && t.tree in m.trees && t in AllTargets(m)
    ensures forall t | t in MISC :: (t.NoTurbo? || t.MaxPerf?) && t in AllTargets(m)
    ensures forall c | c in m.cpus :: Governor(c) in Governors(m.cpus) && Epp(c) in Epps(m.cpus)
    ensures forall t | t in m.trees :: Pl1(t) in Rapl(m.trees) && Pl2(t) in Rapl(m.trees)
    ensures forall t | t in AllTargets(m) ::
            t in Governors(m.cpus) || t in Epps(m.cpus) || t in Rapl(m.trees) || t in MISC
  {
    RaplTargets(m.trees);
    forall c | c in m.cpus
      ensures Governor(c) in Governors(m.cpus) && Epp(c) in Epps(m.cpus)
    {
      var i :| 0 <= i < |m.cpus| && m.cpus[i] == c;
      assert Governors(m.cpus)[i] == Governor(c) && Epps(m.cpus)[i] == Epp(c);
    }
  }

  lemma PlainWritable(m: Machine, sys: Sysfs)
    ensures Writable(m, sys, Governors(m.cpus)) && Writable(m, sys, Rapl(m.trees)) && Writable(m, sys, MISC)
  {
    TargetKinds(m);
  }

  /** No CPU of the snapshot is under the performance governor. */
  ghost predicate NonePerformance(m: Machine, sys: Sysfs) {
    forall c | c in m.cpus :: !Reads(sys, Governor(c), PERFORMANCE)
  }

  /** Limits, governors, preferences, switches, in that order, all accepted: everything reads as
      asked, whatever the files held before. */
  ghost predicate AllWritten(m: Machine, sys: Sysfs, value: Target -> Value, after: Sysfs) {
    && Complete(m, after) && after.ppd == sys.ppd
    && forall t | t in AllTargets(m) :: Reads(after, t, value(t))
  }

  lemma FourPhases(m: Machine, value: Target -> Value, s: Sysfs, s1: Sysfs, s2: Sysfs, s3: Sysfs, s4: Sysfs)
    requires Complete(m, s)
    requires Written(m, s, Rapl(m.trees), value, s1) && Written(m, s1, Governors(m.cpus), value, s2)
    requires Written(m, s2, Epps(m.cpus), value, s3) && Written(m, s3, MISC, value, s4)
    ensures AllWritten(m, s, value, s4)
  {
    TargetKinds(m);
    hide AllTargets, Governors, Epps, Rapl, Complete;
    forall t | t in AllTargets(m)
      ensures Reads(s4, t, value(t))
    {
      if t in Rapl(m.trees) {
        assert Reads(s1, t, value(t)) && Untouched(Governors(m.cpus), t);
      }
      if t in Rapl(m.trees) || t in Governors(m.cpus) {
        assert Reads(s2, t, value(t)) && Untouched(Epps(m.cpus), t);
      }
      if t !in MISC {
        assert Reads(s3, t, value(t)) && Untouched(MISC, t);
      }
    }
  }

  lemma EppWritable(m: Machine, value: Target -> Value, s1: Sysfs, s2: Sysfs)
    requires Written(m, s1, Governors(m.cpus), value, s2)
    requires forall c | c in m.cpus :: value(Governor(c)) != PERFORMANCE
    ensures Writable(m, s2, Epps(m.cpus)) && forall t | t in Epps(m.cpus) :: t.Epp? && !Refuses(s2, t)
  {
    TargetKinds(m);
  }

  lemma WriteDefinitionAccepted(m: Machine, h: Hw, d: Definition, attempts: seq<nat>, tries: nat)
    requires Patient(attempts, tries)
    requires Obeys(m, h.calls, tries) && Complete(m, h.sys) && d.governor != "performance"
    ensures var (g, written) := WriteDefinition(m, h, d, attempts);
            && written.governor && written.epp && written.rapl && written.misc
            && AllWritten(m, h.sys, t => Wanted(d, t), g.sys)
  {
    hide AllTargets, Governors, Epps, Rapl, Complete, Obeys, Written, AllWritten, WriteAll, WriteEpp, Writable;
    var value := t => Wanted(d, t);
    var h1 := WriteAll(m, h, Rapl(m.trees), value).0;
    PhaseAccepted(m, h, Rapl(m.trees), value, tries);
    var h2 := WriteAll(m, h1, Governors(m.cpus), value).0;
    PhaseAccepted(m, h1, Governors(m.cpus), value, tries);
    EppWritable(m, value, h1.sys, h2.sys);
    var h3 := WriteEpp(m, h2, Epps(m.cpus), Text(d.epp), attempts).0;
    WriteEppAccepted(m, h2, Epps(m.cpus), Text(d.epp), attempts, tries);
    ObeysLater(m, h2.calls, h3.calls, tries);
    WrittenSame(m, h2.sys, Epps(m.cpus), _ => Text(d.epp), value, h3.sys);
    WrittenComplete(m, h2.sys, Epps(m.cpus), value, h3.sys);
    PhaseAccepted(m, h3, MISC, value, tries);
    FourPhases(m, value, h.sys, h1.sys, h2.sys, h3.sys, WriteAll(m, h3, MISC, value).0.sys);
  }

  lemma WrittenComplete(m: Machine, sys: Sysfs, targets: seq<Target>, value: Target -> Value, after: Sysfs)
    requires Written(m, sys, targets, value, after)
    ensures Complete(m, after) && after.ppd == sys.ppd
  {
  }

  lemma WrittenSame(m: Machine, sys: Sysfs, targets: seq<Target>, a: Target -> Value, b: Target -> Value, after: Sysfs)
    requires Written(m, sys, targets, a, after)
    requires (forall t | t in targets :: a(t) == b(t))
            || (targets == Epps(m.cpus) && forall c :: a(Epp(c)) == b(Epp(c)))
    ensures Written(m, sys, targets, b, after)
  {
  }

  lemma PowersaveFirst(m: Machine, h: Hw, profile: string, tries: nat)
    requires Obeys(m, h.calls, tries) && Complete(m, h.sys)
    ensures var (h0, pre) := WriteAll(m, h, Governors(m.cpus), _ => POWERSAVE);
            var (h1, ppd) := SetPpd(m, h0, profile);
            && pre && ppd && h0.calls >= h.calls && h1.calls >= h.calls && Obeys(m, h1.calls, tries)
            && Complete(m, h1.sys) && h1.sys.ppd == profile
  {
    TargetKinds(m);
    hide AllTargets, Governors, WriteAll;
    WriteAllAccepted(m, h, Governors(m.cpus), _ => POWERSAVE, tries);
    var h0 := WriteAll(m, h, Governors(m.cpus), _ => POWERSAVE).0;
    ObeysLater(m, h.calls, h0.calls + 1, tries);
  }

  lemma AllWrittenMatches(m: Machine, sys: Sysfs, d: Definition, after: Sysfs)
    requires AllWritten(m, sys, t => Wanted(d, t), after) && sys.ppd == d.ppd
    ensures Matches(m, after, d)
  {
    TargetKinds(m);
    hide AllTargets, Governors, Epps, Rapl, Complete;
    assert NoTurbo in MISC && MaxPerf in MISC;
  }

  /** On an obeying device, even if the daemon call disturbs every file and preferences are taken only
      after as many tries as the deadline leaves, the write order makes a definition with the powersave
      governor the final state. A performance-governor definition is refused, because its preference
      is written last and refused. */
  lemma ApplySucceedsIff(m: Machine, h: Hw, d: Definition, attempts: seq<nat>, tries: nat)
    requires Normal(d) && m.cpus != [] && m.trees != [] && Patient(attempts, tries)
    requires Obeys(m, h.calls, tries) && Complete(m, h.sys)
    ensures Apply(m, h, d, attempts).1.Applied? <==> d.governor == "powersave"
  {
    hide Obeys, Complete, WriteAll, WriteDefinition, Restore, Verify, Matches;
    PowersaveFirst(m, h, d.ppd, tries);
    var h0 := WriteAll(m, h, Governors(m.cpus), _ => POWERSAVE).0;
    var h1 := SetPpd(m, h0, d.ppd).0;
    if d.governor == "powersave" {
      WriteDefinitionAccepted(m, h1, d, attempts, tries);
      var h2 := WriteDefinition(m, h1, d, attempts).0;
      AllWrittenMatches(m, h1.sys, d, h2.sys);
      VerifyMatches(m, h2.sys, d);
    } else {
      PreferenceRefused(m, h1, d, attempts, tries);
    }
  }

  /** A driver that balks at every other preference write. */
  function Hesitant(): Device {
    Device(
      (n: nat, t: Target, v: Value, sys: Sysfs) =>
        if Refuses(sys, t) || (t.Epp? && n % 2 == 0) then (true, sys)
        else (false, sys.(files := sys.files[t := v])),
      (n: nat, p: string, sys: Sysfs) => (true, sys.(ppd := p)))
  }

  lemma HesitantObeys(m: Machine, start: nat)
    requires m.device == Hesitant()
    ensures Obeys(m, start, 2)
  {
    hide AllTargets;
    forall n, t, v, sys |
      n >= start && t in AllTargets(m) && Complete(m, sys) && !Refuses(sys, t) && (!t.Epp? || n % 2 == 1)
      ensures Takes(m, n, t, v, sys)
    {
      assert t in sys.files;
    }
    forall n, t, v, sys | n >= start && t in AllTargets(m) && Complete(m, sys) && !Refuses(sys, t) && t.Epp?
      ensures TakesWithin(m, n, 2, t, v, sys)
    {
      var c := if n % 2 == 1 then n else n + 1;
      assert Takes(m, c, t, v, sys);
    }
  }

  /** A profile is applied on it, because the preference is tried again. */
  lemma RetriedExample()
    ensures var m := Machine([0], [0], Hesitant());
            var d := Definition(12_000_000, 18_000_000, "powersave", "power", "power-saver", true, 100);
            Normal(d) && Apply(m, Hw(AtRest(), 0), d, []).1.Applied?
  {
    var m := Machine([0], [0], Hesitant());
    var d := Definition(12_000_000, 18_000_000, "powersave", "power", "power-saver", true, 100);
    HesitantObeys(m, 0);
    AtRestComplete(m);
    hide Obeys, Complete, Apply;
    ApplySucceedsIff(m, Hw(AtRest(), 0), d, [], 2);
  }

  /** One CPU, one package, everything at rest. */
  function AtRest(): Sysfs {
    Sysfs(map[Governor(0) := POWERSAVE, Epp(0) := Text("balance_power"), Pl1(0) := Number(25_000_000),
              Pl2(0) := Number(35_000_000), NoTurbo := Number(0), MaxPerf := Number(100)], "balanced")
  }

  /** On a driver that refuses preferences under the performance governor, a valid definition that
      asks for both is not applied. */
  lemma PerformanceRefusedExample(attempts: seq<nat>)
    ensures var m := Machine([0], [0], Straying(0, Text("power")));
            var d := Definition(35_000_000, 55_000_000, "performance", "performance", "performance", true, 100);
            Normal(d) && Obeys(m, 0, 1) && !Apply(m, Hw(AtRest(), 0), d, attempts).1.Applied?
  {
    var m := Machine([0], [0], Straying(0, Text("power")));
    var d := Definition(35_000_000, 55_000_000, "performance", "performance", "performance", true, 100);
    StrayingObeys(m, 0, Text("power"), 0);
    AtRestComplete(m);
    hide Obeys, Complete, Apply;
    ApplySucceedsIff(m, Hw(AtRest(), 0), d, attempts, 1);
  }

  lemma AtRestComplete(m: Machine)
    requires m.cpus == [0] && m.trees == [0]
    ensures Complete(m, AtRest())
  {
    assert Rapl([0]) == [Pl1(0), Pl2(0)] by { RaplTargets([0]); }
    assert Governors([0]) == [Governor(0)] && Epps([0]) == [Epp(0)];
    assert AllTargets(m) == [Governor(0), Epp(0), Pl1(0), Pl2(0), NoTurbo, MaxPerf];
  }

  lemma PreferenceRefused(m: Machine, h: Hw, d: Definition, attempts: seq<nat>, tries: nat)
    requires Obeys(m, h.calls, tries) && Complete(m, h.sys) && d.governor == "performance" && m.cpus != []
    ensures !WriteDefinition(m, h, d, attempts).1.epp
  {
    TargetKinds(m);
    hide AllTargets, Rapl, Complete, Obeys, WriteAll;
    var value := t => Wanted(d, t);
    var h1 := WriteAll(m, h, Rapl(m.trees), value).0;
    WriteAllAccepted(m, h, Rapl(m.trees), value, tries);
    ObeysLater(m, h.calls, h1.calls, tries);
    var h2 := WriteAll(m, h1, Governors(m.cpus), value).0;
    WriteAllAccepted(m, h1, Governors(m.cpus), value, tries);
    ObeysLater(m, h1.calls, h2.calls, tries);
    var t := Epps(m.cpus)[0];
    assert t == Epp(m.cpus[0]) && t in Epps(m.cpus);
    assert Reads(h2.sys, Governor(m.cpus[0]), value(Governor(m.cpus[0])));
    RetryRefused(m, h2, t, Text(d.epp), Allowed(attempts), tries);
  }

  // -- Rollback -------------------------------------------------------------------------------

  lemma RestoredIsPrevious(m: Machine, sys: Sysfs, previous: Sysfs, after: Sysfs)
    requires Complete(m, previous) && AllWritten(m, sys, t => Saved(previous, t), after) && sys.ppd == previous.ppd
    ensures after == previous
  {
    hide AllTargets;
    assert after.files.Keys == previous.files.Keys;
    assert forall t | t in previous.files :: t in AllTargets(m) && Reads(after, t, Saved(previous, t));
    assert after.files == previous.files;
  }

  /** A rollback whose writes are accepted re-establishes the snapshot from any state, if no prior
      governor was performance. */
  lemma RestoreExact(m: Machine, h: Hw, previous: Sysfs)
    requires Obeys(m, h.calls, 1) && Complete(m, h.sys)
    requires Complete(m, previous) && previous.ppd != "" && NonePerformance(m, previous)
    ensures Restore(m, h, previous).0.sys == previous && Restore(m, h, previous).1
  {
    hide AllTargets, Governors, Epps, Rapl, Complete, Obeys, Written, AllWritten, WriteAll, Saved, Writable;
    PowersaveFirst(m, h, previous.ppd, 1);
    SavedGovernors(m, previous);
    var saved := t => Saved(previous, t);
    var h0 := WriteAll(m, h, Governors(m.cpus), _ => POWERSAVE).0;
    var h1 := SetPpd(m, h0, previous.ppd).0;
    var h2 := WriteAll(m, h1, Rapl(m.trees), saved).0;
    PhaseAccepted(m, h1, Rapl(m.trees), saved, 1);
    var h3 := WriteAll(m, h2, Governors(m.cpus), saved).0;
    PhaseAccepted(m, h2, Governors(m.cpus), saved, 1);
    EppWritable(m, saved, h2.sys, h3.sys);
    var h4 := WriteAll(m, h3, Epps(m.cpus), saved).0;
    PhaseAccepted(m, h3, Epps(m.cpus), saved, 1);
    PhaseAccepted(m, h4, MISC, saved, 1);
    var h5 := WriteAll(m, h4, MISC, saved).0;
    FourPhases(m, saved, h1.sys, h2.sys, h3.sys, h4.sys, h5.sys);
    RestoredIsPrevious(m, h1.sys, previous, h5.sys);
  }

  lemma PhaseAccepted(m: Machine, h: Hw, targets: seq<Target>, value: Target -> Value, tries: nat)
    requires Obeys(m, h.calls, tries) && Complete(m, h.sys)
    requires targets in {Governors(m.cpus), Rapl(m.trees), MISC} || (Writable(m, h.sys, targets) && tries == 1)
    ensures var (g, ok) := WriteAll(m, h, targets, value);
            && ok && Written(m, h.sys, targets, value, g.sys) && Obeys(m, g.calls, tries)
            && Complete(m, g.sys) && g.sys.ppd == h.sys.ppd
  {
    TargetKinds(m);
    hide WriteAll, AllTargets, Obeys, Writable, Governors, Rapl;
    PlainWritable(m, h.sys);
    WriteAllAccepted(m, h, targets, value, tries);
    ObeysLater(m, h.calls, WriteAll(m, h, targets, value).0.calls, tries);
  }

  lemma SavedGovernors(m: Machine, previous: Sysfs)
    requires Complete(m, previous) && NonePerformance(m, previous)
    ensures forall c | c in m.cpus :: Saved(previous, Governor(c)) != PERFORMANCE
  {
    TargetKinds(m);
  }

  /** An obeying device whose daemon call writes `stray` into one CPU's preference and whose
      governor writes leave preferences alone. */
  function Straying(c: nat, stray: Value): Device {
    Device(
      (n: nat, t: Target, v: Value, sys: Sysfs) => if Refuses(sys, t) then (true, sys)
          else (false, sys.(files := sys.files[t := v])),
      (n: nat, p: string, sys: Sysfs) => (true,
          Sysfs(if Epp(c) in sys.files then sys.files[Epp(c) := stray] else sys.files, p)))
  }

  lemma StrayingObeys(m: Machine, c: nat, stray: Value, start: nat)
    requires m.device == Straying(c, stray)
    ensures Obeys(m, start, 1)
  {
    hide AllTargets;
    forall n, t, v, sys | n >= start && t in AllTargets(m) && Complete(m, sys) && !Refuses(sys, t)
      ensures Takes(m, n, t, v, sys) && TakesWithin(m, n, 1, t, v, sys)
    {
      assert t in sys.files;
      assert Takes(m, n, t, v, sys);
    }
  }

  lemma {:induction false} StrayStays(m: Machine, h: Hw, targets: seq<Target>, value: Target -> Value, c: nat,
      stray: Value)
    requires m.device == Straying(c, stray)
    requires Epp(c) !in targets || (Governor(c) !in targets && Reads(h.sys, Governor(c), PERFORMANCE))
    ensures var g := WriteAll(m, h, targets, value).0;
            && (Reads(h.sys, Epp(c), stray) ==> Reads(g.sys, Epp(c), stray))
            && (Governor(c) !in targets && Reads(h.sys, Governor(c), PERFORMANCE) ==>
                Reads(g.sys, Governor(c), PERFORMANCE))
            && (Governor(c) in targets && value(Governor(c)) == PERFORMANCE ==> Reads(g.sys, Governor(c), PERFORMANCE))
    decreases |targets|
  {
    if targets != [] {
      var t := targets[0];
      var g := Write(m, h, t, value(t)).0;
      assert forall x | x in targets[1..] :: x in targets;
      if Governor(c) in targets {
        assert t == Governor(c) || Governor(c) in targets[1..];
      }
      StrayStays(m, g, targets[1..], value, c, stray);
    }
  }

  /** The daemon call leaves the stray preference behind. */
  lemma StrayWritten(m: Machine, h: Hw, profile: string, c: nat, stray: Value)
    requires m.device == Straying(c, stray) && Complete(m, h.sys) && c in m.cpus && profile != ""
    ensures var h0 := WriteAll(m, h, Governors(m.cpus), _ => POWERSAVE).0;
            var (h1, ok) := SetPpd(m, h0, profile);
            ok && Reads(h1.sys, Epp(c), stray)
  {
    TargetKinds(m);
    StrayingObeys(m, c, stray, h.calls);
    PowersaveFirst(m, h, profile, 1);
    WriteAllAccepted(m, h, Governors(m.cpus), _ => POWERSAVE, 1);
    assert Epp(c) in AllTargets(m);
  }

  /** A prior performance governor makes the rollback miss on such a device: the governor is written
      back before the preference, which is then refused. */
  lemma RestoreMisses(m: Machine, h: Hw, previous: Sysfs, c: nat, stray: Value)
    requires m.device == Straying(c, stray) && Complete(m, h.sys) && Complete(m, previous) && previous.ppd != ""
    requires c in m.cpus && Reads(previous, Governor(c), PERFORMANCE) && !Reads(previous, Epp(c), stray)
    ensures Restore(m, h, previous).0.sys != previous && !Restore(m, h, previous).1
  {
    TargetKinds(m);
    StrayWritten(m, h, previous.ppd, c, stray);
    var saved := t => Saved(previous, t);
    var h0 := WriteAll(m, h, Governors(m.cpus), _ => POWERSAVE).0;
    var h1 := SetPpd(m, h0, previous.ppd).0;
    hide AllTargets, Governors, Epps, Rapl, Complete, Obeys, WriteAll, Written;
    StrayStays(m, h1, Rapl(m.trees), saved, c, stray);
    var h2 := WriteAll(m, h1, Rapl(m.trees), saved).0;
    StrayStays(m, h2, Governors(m.cpus), saved, c, stray);
    var h3 := WriteAll(m, h2, Governors(m.cpus), saved).0;
    StrayStays(m, h3, Epps(m.cpus), saved, c, stray);
    var h4 := WriteAll(m, h3, Epps(m.cpus), saved).0;
    StrayStays(m, h4, MISC, saved, c, stray);
  }

  /** Exactly when the rollback can be relied on, over all obeying devices and all states it may
      start from: when no prior governor was performance. */
  lemma RestoreReliableIff(m: Machine, previous: Sysfs)
    requires Complete(m, previous) && previous.ppd != ""
    ensures (forall device: Device, h: Hw | Obeys(m.(device := device), h.calls, 1) && Complete(m, h.sys) ::
               Restore(m.(device := device), h, previous).0.sys == previous)
            <==> NonePerformance(m, previous)
  {
    hide Restore;
    if NonePerformance(m, previous) {
      forall device: Device, h: Hw | Obeys(m.(device := device), h.calls, 1) && Complete(m, h.sys)
        ensures Restore(m.(device := device), h, previous).0.sys == previous
      {
        RestoreExact(m.(device := device), h, previous);
      }
    } else {
      var c :| c in m.cpus && Reads(previous, Governor(c), PERFORMANCE);
      var stray := if Reads(previous, Epp(c), Text("power")) then Text("default") else Text("power");
      var n := m.(device := Straying(c, stray));
      var h := Hw(previous, 0);
      StrayingObeys(n, c, stray, 0);
      RestoreMisses(n, h, previous, c, stray);
    }
  }

  lemma {:induction false} HesitantKeeps(m: Machine, h: Hw, targets: seq<Target>, value: Target -> Value, c: nat,
      kept: Value)
    requires m.device == Hesitant() && Epp(c) !in targets && Reads(h.sys, Epp(c), kept)
    ensures Reads(WriteAll(m, h, targets, value).0.sys, Epp(c), kept)
    decreases |targets|
  {
    if targets != [] {
      var t := targets[0];
      assert t in targets && forall x | x in targets[1..] :: x in targets;
      HesitantKeeps(m, Write(m, h, t, value(t)).0, targets[1..], value, c, kept);
    }
  }

  /** The first of the preferences is written at an even call, which balks. */
  lemma FirstPreferenceMissed(m: Machine, h: Hw, value: Target -> Value, kept: Value)
    requires m.device == Hesitant() && m.cpus != [] && m.cpus[0] !in m.cpus[1..] && h.calls % 2 == 0
    requires Reads(h.sys, Epp(m.cpus[0]), kept)
    ensures Reads(WriteAll(m, h, Epps(m.cpus), value).0.sys, Epp(m.cpus[0]), kept)
  {
    var targets := Epps(m.cpus);
    var t := targets[0];
    assert targets[1..] == Epps(m.cpus[1..]);
    assert forall i | 0 <= i < |m.cpus[1..]| :: targets[1..][i].cpu == m.cpus[1..][i];
    assert t !in targets[1..];
    HesitantKeeps(m, Write(m, h, t, value(t)).0, targets[1..], value, m.cpus[0], kept);
  }

  /** How many writes and daemon calls come before the preferences in a rollback. */
  function BeforePreferences(m: Machine): nat {
    2 * |m.cpus| + |Rapl(m.trees)| + 1
  }

  lemma PlainTargets(m: Machine, c: nat)
    ensures Epp(c) !in Governors(m.cpus) && Epp(c) !in Rapl(m.trees) && Epp(c) !in MISC
    ensures |Governors(m.cpus)| == |m.cpus|
  {
    TargetKinds(m);
  }

  /** Up to the preferences, the first of them is left alone. */
  lemma UpToPreferences(m: Machine, h: Hw, previous: Sysfs, c: nat, kept: Value)
    requires m.device == Hesitant() && previous.ppd != "" && Reads(h.sys, Epp(c), kept)
    ensures var h0 := WriteAll(m, h, Governors(m.cpus), _ => POWERSAVE).0;
            var h1 := SetPpd(m, h0, previous.ppd).0;
            var h2 := WriteAll(m, h1, Rapl(m.trees), t => Saved(previous, t)).0;
            var h3 := WriteAll(m, h2, Governors(m.cpus), t => Saved(previous, t)).0;
            Reads(h3.sys, Epp(c), kept) && h3.calls == h.calls + BeforePreferences(m)
  {
    PlainTargets(m, c);
    hide Governors, Rapl, WriteAll, Saved;
    var saved := t => Saved(previous, t);
    var powersave: Target -> Value := _ => POWERSAVE;
    HesitantKeeps(m, h, Governors(m.cpus), powersave, c, kept);
    WriteAllExact(m, h, Governors(m.cpus), powersave);
    var h1 := SetPpd(m, WriteAll(m, h, Governors(m.cpus), powersave).0, previous.ppd).0;
    HesitantKeeps(m, h1, Rapl(m.trees), saved, c, kept);
    WriteAllExact(m, h1, Rapl(m.trees), saved);
    var h2 := WriteAll(m, h1, Rapl(m.trees), saved).0;
    HesitantKeeps(m, h2, Governors(m.cpus), saved, c, kept);
    WriteAllExact(m, h2, Governors(m.cpus), saved);
  }

  lemma HesitantRollback(m: Machine, h: Hw, previous: Sysfs, kept: Value)
    requires m.device == Hesitant() && previous.ppd != "" && m.cpus != [] && m.cpus[0] !in m.cpus[1..]
    requires (h.calls + BeforePreferences(m)) % 2 == 0
    requires Reads(h.sys, Epp(m.cpus[0]), kept) && !Reads(previous, Epp(m.cpus[0]), kept)
    ensures var (g, ok) := Restore(m, h, previous); g.sys != previous && !ok
  {
    hide Governors, Rapl, WriteAll, Saved, Epps, SetPpd, BeforePreferences, MISC, Hesitant, Reads;
    UpToPreferences(m, h, previous, m.cpus[0], kept);
    var saved := t => Saved(previous, t);
    var h0 := WriteAll(m, h, Governors(m.cpus), _ => POWERSAVE).0;
    var h1 := SetPpd(m, h0, previous.ppd).0;
    var h2 := WriteAll(m, h1, Rapl(m.trees), saved).0;
    var h3 := WriteAll(m, h2, Governors(m.cpus), saved).0;
    FromPreferences(m, h3, saved, kept);
    assert Reads(Restore(m, h, previous).0.sys, Epp(m.cpus[0]), kept);
  }

  lemma FromPreferences(m: Machine, h: Hw, value: Target -> Value, kept: Value)
    requires m.device == Hesitant() && m.cpus != [] && m.cpus[0] !in m.cpus[1..] && h.calls % 2 == 0
    requires Reads(h.sys, Epp(m.cpus[0]), kept)
    ensures var g := WriteAll(m, h, Epps(m.cpus), value).0;
            Reads(WriteAll(m, g, MISC, value).0.sys, Epp(m.cpus[0]), kept)
  {
    PlainTargets(m, m.cpus[0]);
    hide WriteAll, Governors, Rapl;
    FirstPreferenceMissed(m, h, value, kept);
    HesitantKeeps(m, WriteAll(m, h, Epps(m.cpus), value).0, MISC, value, m.cpus[0], kept);
  }

  /** Rollback does not try a preference again: for every machine and snapshot there is a device that
      takes each preference at the second try at the latest, so that definitions with the powersave
      governor are applied on it, and from which a rollback does not return. */
  lemma RollbackNotRetried(m: Machine, previous: Sysfs) returns (device: Device, h: Hw)
    requires Complete(m, previous) && previous.ppd != "" && m.cpus != [] && m.cpus[0] !in m.cpus[1..]
    ensures Obeys(m.(device := device), 0, 2) && Complete(m, h.sys)
    ensures var (g, ok) := Restore(m.(device := device), h, previous); g.sys != previous && !ok
  {
    hide Restore, Obeys, BeforePreferences, Hesitant;
    device := Hesitant();
    var n, c := m.(device := device), m.cpus[0];
    assert Epp(c) in AllTargets(m) by { TargetKinds(m); assert c in m.cpus; }
    hide AllTargets;
    var other := if Reads(previous, Epp(c), Text("power")) then Text("default") else Text("power");
    h := Hw(previous.(files := previous.files[Epp(c) := other]), BeforePreferences(n) % 2);
    HesitantObeys(n, 0);
    HesitantRollback(n, h, previous, other);
  }

  /** The state in which the rollback of a failed application starts. */
  function RollbackStart(m: Machine, h: Hw, d: Definition, attempts: seq<nat>): Hw {
    var h0 := WriteAll(m, h, Governors(m.cpus), _ => POWERSAVE).0;
    var (h1, ppd) := SetPpd(m, h0, d.ppd);
    if ppd then WriteDefinition(m, h1, d, attempts).0 else h1
  }

  /** All or nothing: however the device misbehaves before it, a rollback on an obeying device leaves
      the controls exactly as before or else exactly as defined. */
  lemma AllOrNothing(m: Machine, h: Hw, d: Definition, attempts: seq<nat>)
    requires Normal(d) && Complete(m, h.sys) && h.sys.ppd != "" && NonePerformance(m, h.sys)
    requires var start := RollbackStart(m, h, d, attempts); Obeys(m, start.calls, 1) && Complete(m, start.sys)
    ensures var (g, outcome) := Apply(m, h, d, attempts);
            if outcome.Applied? then Matches(m, g.sys, d) else outcome.restored && g.sys == h.sys
  {
    ApplySound(m, h, d, attempts);
    RestoreExact(m, RollbackStart(m, h, d, attempts), h.sys);
    hide Restore, WriteAll, WriteDefinition, Verify, Matches, Obeys, Complete;
  }
}
