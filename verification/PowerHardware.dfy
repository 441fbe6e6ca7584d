/** Power-profile application as the hardware adapter performs it, refining `PowerTransaction`. */
module PowerHardware {
  import opened PowerTransaction

  class PowerAdapter {
    const machine: Machine
    var sys: Sysfs
    var calls: nat

    ghost function View(): Hw
      reads this
    {
      Hw(sys, calls)
    }

    constructor (machine: Machine, sys: Sysfs)
      ensures this.machine == machine && View() == Hw(sys, 0)
    {
      this.machine := machine;
      this.sys := sys;
      calls := 0;
    }

    method WriteVerified(t: Target, v: Value) returns (ok: bool)
      modifies this
      ensures (View(), ok) == Write(machine, old(View()), t, v)
    {
      var (raised, after) := machine.device.write(calls, t, v, sys);
      sys := after;
      calls := calls + 1;
      ok := !raised && Reads(sys, t, v);
    }

    method WriteEach(targets: seq<Target>, value: Target -> Value) returns (ok: bool)
      modifies this
      ensures (View(), ok) == WriteAll(machine, old(View()), targets, value)
    {
      ok := true;
      var i := 0;
      while i < |targets|
        invariant 0 <= i <= |targets|
        invariant var (whole, all) := WriteAll(machine, old(View()), targets, value);
                  var (rest, others) := WriteAll(machine, View(), targets[i..], value);
                  whole == rest && all == (ok && others)
      {
        var one := WriteVerified(targets[i], value(targets[i]));
        ok := ok && one;
        i := i + 1;
      }
    }

    method WriteWithRetry(t: Target, v: Value, attempts: nat) returns (ok: bool)
      modifies this
      ensures (View(), ok) == WriteRetried(machine, old(View()), t, v, attempts)
    {
      ok := WriteVerified(t, v);
      var left := attempts;
      while !ok && left > 1
        invariant ok || left <= 1 ==> WriteRetried(machine, old(View()), t, v, attempts) == (View(), ok)
        invariant !ok && left > 1 ==>
                    WriteRetried(machine, old(View()), t, v, attempts) == WriteRetried(machine, View(), t, v, left - 1)
        decreases left
      {
        ok := WriteVerified(t, v);
        left := left - 1;
      }
    }

    method WriteEachEpp(targets: seq<Target>, v: Value, attempts: seq<nat>) returns (ok: bool)
      modifies this
      ensures (View(), ok) == WriteEpp(machine, old(View()), targets, v, attempts)
    {
      ok := true;
      var i := 0;
      var left := attempts;
      while i < |targets|
        invariant 0 <= i <= |targets|
        invariant var (whole, all) := WriteEpp(machine, old(View()), targets, v, attempts);
                  var (rest, others) := WriteEpp(machine, View(), targets[i..], v, left);
                  whole == rest && all == (ok && others)
      {
        var one := WriteWithRetry(targets[i], v, Allowed(left));
        ok := ok && one;
        left := if left == [] then [] else left[1..];
        i := i + 1;
      }
    }

    method SetProfile(profile: string) returns (ok: bool)
      modifies this
      ensures (View(), ok) == SetPpd(machine, old(View()), profile)
    {
      var (accepted, after) := machine.device.setPpd(calls, profile, sys);
      sys := after;
      calls := calls + 1;
      ok := accepted;
    }

    /** `_restore_power_status`. */
    method RestoreStatus(previous: Sysfs) returns (ok: bool)
      modifies this
      ensures (View(), ok) == Restore(machine, old(View()), previous)
    {
      var _ := WriteEach(Governors(machine.cpus), _ => POWERSAVE);
      if previous.ppd != "" {
        var _ := SetProfile(previous.ppd);
      }
      var saved := t => Saved(previous, t);
      var _ := WriteEach(Rapl(machine.trees), saved);
      var _ := WriteEach(Governors(machine.cpus), saved);
      var _ := WriteEach(Epps(machine.cpus), saved);
      var _ := WriteEach(MISC, saved);
      ok := sys == previous;
    }

    /** The definition's writes after the daemon call, in their order. */
    method WriteProfile(d: Definition, attempts: seq<nat>) returns (written: Checks)
      modifies this
      ensures (View(), written) == WriteDefinition(machine, old(View()), d, attempts)
    {
      hide WriteAll, WriteEpp, Governors, Epps, Rapl;
      var value := t => Wanted(d, t);
      var rapl := WriteEach(Rapl(machine.trees), value);
      var governor := WriteEach(Governors(machine.cpus), value);
      var epp := WriteEachEpp(Epps(machine.cpus), Text(d.epp), attempts);
      var misc := WriteEach(MISC, value);
      written := Checks(governor, epp, true, rapl, misc);
    }

    /** `apply_power_profile`. */
    method ApplyProfile(d: Definition, attempts: seq<nat>) returns (outcome: Outcome)
      modifies this
      ensures (View(), outcome) == Apply(machine, old(View()), d, attempts)
    {
      hide WriteAll, WriteDefinition, Restore, Verify, Governors;
      if !Normal(d) {
        return Invalid;
      }
      var previous := sys;
      var pre := WriteEach(Governors(machine.cpus), _ => POWERSAVE);
      var ppd := SetProfile(d.ppd);
      if !ppd {
        var observed := sys;
        var checks := Checks(pre && Verify(machine, observed, d).governor, false, false, false, false);
        var restored := RestoreStatus(previous);
        return RolledBack(checks, observed, restored);
      }
      var written := WriteProfile(d, attempts);
      var observed := sys;
      var verified := Verify(machine, observed, d);
      var checks := Checks(pre && written.governor && verified.governor, written.epp && verified.epp,
                           verified.ppd, written.rapl && verified.rapl, written.misc && verified.misc);
      if checks.All() {
        return Applied(checks, observed);
      }
      var restored := RestoreStatus(previous);
      outcome := RolledBack(checks, observed, restored);
    }
  }
}
