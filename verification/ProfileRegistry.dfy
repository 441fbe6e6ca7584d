/**
 * The power-profile registry and what refers to it: the selected profile, the
 * automatic-switch policy and the fan curves.  Each use case checks its
 * arguments, proposes a new state and hands it to the store, which validates it.
 */
module ProfileRegistry {
  import opened Wrappers
  import opened ServiceConfig
  import ConfigStore
  import FanCurve
  import Text = FanCurveText
  import Touchpad = TouchpadSettings
  import PowerTransaction

  datatype Op =
    | Select(name: string)
    | SetAuto(enabled: bool)
    | Configure(policy: AutoSwitch, scriptsRun: bool)   // whether both hooks pass the ownership and argument checks
    | SaveProfile(name: string, definition: Profile)
    | DeleteProfile(name: string)
    | SetCurve(name: string, curve: string, writable: bool)
    | StockFan

  /** A profile definition as it is stored. */
  function Trimmed(p: Profile): (r: Profile) {
    p.(title := Text.Strip(p.title), description := Text.Strip(p.description),
       governor := Text.Strip(p.governor), epp := Text.Strip(p.epp), ppd := Text.Strip(p.ppd))
  }

  function Lookup(name: string, names: set<string>): (r: Option<string>)
    ensures r.Some? <==> KnownProfile(name, names)
    ensures r.Some? ==> r.value in names && ProfileName(r.value)
  {
    CleanedIdentifier(name);
    if KnownProfile(name, names) then Cleaned(name) else None
  }

  function References(p: Power): (r: set<string>) { {p.profile, p.auto.onAc, p.auto.onBattery} }

  /** The state a use case proposes, or nothing when it refuses its arguments. */
  function Proposal(s: State, op: Op): (r: Option<State>) {
    var names := s.power.profiles.Keys;
    match op
    case Select(name) =>
      var n :- Lookup(name, names);
      Some(s.(power := s.power.(profile := n)))
    case SetAuto(enabled) =>
      Some(s.(power := s.power.(auto := s.power.auto.(enabled := enabled))))
    case Configure(policy, scriptsRun) =>
      var onAc :- Lookup(policy.onAc, names);
      var onBattery :- Lookup(policy.onBattery, names);
      if !scriptsRun then None
      else Some(s.(power := s.power.(auto :=
        AutoSwitch(policy.enabled, onAc, onBattery, Text.Strip(policy.onAcScript),
            Text.Strip(policy.onBatteryScript)))))
    case SaveProfile(name, definition) =>
      var n :- Cleaned(name);
      Some(s.(power := s.power.(profiles := s.power.profiles[n := Trimmed(definition)])))
    case DeleteProfile(name) =>
      var n :- Lookup(name, names);
      if n in BUILT_INS || n in References(s.power) then None
      else Some(s.(power := s.power.(profiles := s.power.profiles - {n}), fan := s.fan.(curves := s.fan.curves - {n})))
    case SetCurve(name, curve, writable) =>
      var points :- Text.Parsed(curve);
      var n :- if name == "default" then Some(name) else Lookup(name, names);
      if !writable then None
      else Some(s.(fan := Fan("curve", s.fan.curves[n := Text.FormatCurve(points)])))
    case StockFan =>
      Some(s.(fan := s.fan.(mode := "stock")))
  }

  /** What the store makes of it; `saved` says whether the file could be written. */
  function Commit(s: State, op: Op, saved: bool): (r: State) {
    var t := Proposal(s, op);
    if t.Some? && Valid(t.value) && saved then t.value else s
  }

  datatype Call = Call(op: Op, saved: bool)

  function Run(s: State, calls: seq<Call>): (r: State) {
    if calls == [] then s
    else Commit(Run(s, calls[..|calls|-1]), calls[|calls|-1].op, calls[|calls|-1].saved)
  }

  // ------------------------------------------------------------ what is stored

  /** Nothing but the power section, or nothing but the fan section, differs. */
  predicate OnlyPower(s: State, t: State) { t == s.(power := t.power) }
  predicate OnlyFan(s: State, t: State) { t == s.(fan := t.fan) }

  /** The two registries agree but for this key. */
  predicate SameBut<V(==)>(a: map<string, V>, b: map<string, V>, key: string) {
    && b.Keys == a.Keys + {key}
    && forall k :: k in a && k != key ==> b[k] == a[k]
  }

  /** Selecting: accepted exactly for a registered name, which becomes the profile, and nothing else changes. */
  lemma SelectStores(s: State, name: string)
    ensures var r := Proposal(s, Select(name)); var names := s.power.profiles.Keys;
            && (r.Some? <==> KnownProfile(name, names))
            && (r.Some? ==>
                  && OnlyPower(s, r.value) && Cleaned(name) == Some(r.value.power.profile)
                  && r.value.power.profiles == s.power.profiles && r.value.power.auto == s.power.auto)
  {
    hide Cleaned, ProfileName;
  }

  /** The automatic switch: the policy for mains power is stored as that for mains power, the one for
      battery as that for battery, each with its own hook; it is accepted exactly when both profiles are
      registered and the hooks may run. Turning it on or off changes only that. */
  lemma AutoSwitchStores(s: State, policy: AutoSwitch, scriptsRun: bool)
    ensures var r := Proposal(s, Configure(policy, scriptsRun)); var names := s.power.profiles.Keys;
            && (r.Some? <==>
                  KnownProfile(policy.onAc, names) && KnownProfile(policy.onBattery, names) && scriptsRun)
            && (r.Some? ==>
                  var auto := r.value.power.auto;
                  && OnlyPower(s, r.value)
                  && r.value.power.profiles == s.power.profiles && r.value.power.profile == s.power.profile
                  && auto.enabled == policy.enabled
                  && Cleaned(policy.onAc) == Some(auto.onAc) && Cleaned(policy.onBattery) == Some(auto.onBattery)
                  && auto.onAcScript == Text.Strip(policy.onAcScript)
                  && auto.onBatteryScript == Text.Strip(policy.onBatteryScript))
    ensures var r := Proposal(s, SetAuto(policy.enabled));
            && r.Some? && OnlyPower(s, r.value) && r.value.power.auto.enabled == policy.enabled
            && r.value.power.profiles == s.power.profiles && r.value.power.profile == s.power.profile
            && r.value.power.auto.onAc == s.power.auto.onAc && r.value.power.auto.onBattery == s.power.auto.onBattery
            && r.value.power.auto.onAcScript == s.power.auto.onAcScript
            && r.value.power.auto.onBatteryScript == s.power.auto.onBatteryScript
  {
    hide Cleaned, ProfileName, Text.Strip;
  }

  /** Saving a profile: accepted exactly when the name can be an identifier; the definition is stored under
      it with its texts stripped and its numbers as they are, and no other profile changes. */
  lemma SaveStores(s: State, name: string, p: Profile)
    ensures var r := Proposal(s, SaveProfile(name, p));
            && (r.Some? <==> Cleaned(name).Some?)
            && (r.Some? ==>
                  var n := Cleaned(name).value; var q := r.value.power.profiles;
                  && OnlyPower(s, r.value) && SameBut(s.power.profiles, q, n)
                  && r.value.power.profile == s.power.profile && r.value.power.auto == s.power.auto
                  && q[n] == p.(title := q[n].title, description := q[n].description, governor := q[n].governor,
                       epp := q[n].epp, ppd := q[n].ppd)
                  && q[n].title == Text.Strip(p.title) && q[n].description == Text.Strip(p.description)
                  && q[n].governor == Text.Strip(p.governor) && q[n].epp == Text.Strip(p.epp)
                  && q[n].ppd == Text.Strip(p.ppd))
  {
    hide Cleaned, ProfileName, Text.Strip;
  }

  /** Setting a curve: accepted exactly for a curve that can be read, for the default or a registered
      profile, on a writable fan; what is stored reads as the same points, curve mode is on, and no other
      curve changes. Going back to stock keeps every curve. */
  lemma CurveStores(s: State, name: string, curve: string, writable: bool)
    ensures var r := Proposal(s, SetCurve(name, curve, writable)); var names := s.power.profiles.Keys;
            && (r.Some? <==>
                  Text.Parsed(curve).Some? && (name == "default" || KnownProfile(name, names)) && writable)
            && (r.Some? ==>
                  var n := if name == "default" then name else Cleaned(name).value; var curves := r.value.fan.curves;
                  && OnlyFan(s, r.value) && r.value.fan.mode == "curve" && SameBut(s.fan.curves, curves, n)
                  && Text.Parsed(curves[n]) == Text.Parsed(curve))
    ensures var r := Proposal(s, StockFan);
            r.Some? && OnlyFan(s, r.value) && r.value.fan.mode == "stock" && r.value.fan.curves == s.fan.curves
  {
    hide Cleaned, ProfileName, Text.Parsed, Text.FormatCurve;
    if Text.Parsed(curve).Some? {
      ParsedIsValid(curve);
      Text.FormatThenParse(Text.Parsed(curve).value);
    }
  }

  // ----------------------------------------------------------- reference integrity

  predicate CurvesKnown(f: Fan, names: set<string>) {
    forall n :: n in f.curves ==> n == "default" || n in names
  }

  /** Stored curve texts are in the printed form. */
  predicate CurvesCanonical(f: Fan) {
    forall n :: n in f.curves ==>
      Text.Parsed(f.curves[n]).Some? && f.curves[n] == Text.FormatCurve(Text.Parsed(f.curves[n]).value)
  }

  predicate Identifiers(names: set<string>) { forall n :: n in names ==> ProfileName(n) }

  /** Every reference names a registered profile, so no lookup by a stored name can miss. */
  predicate Intact(s: State) {
    && BUILT_INS <= s.power.profiles.Keys
    && Identifiers(s.power.profiles.Keys)
    && References(s.power) <= s.power.profiles.Keys
    && CurvesKnown(s.fan, s.power.profiles.Keys)
    && CurvesCanonical(s.fan)
  }

  lemma SetCurveIntact(s: State, name: string, curve: string, writable: bool)
    requires Intact(s) && Proposal(s, SetCurve(name, curve, writable)).Some?
    ensures Intact(Proposal(s, SetCurve(name, curve, writable)).value)
  {
    hide Text.Parsed, Text.FormatCurve, Cleaned, ProfileName, KnownProfile;
    var points := Text.Parsed(curve).value;
    ParsedIsValid(curve);
    Text.FormatThenParse(points);
  }

  lemma ParsedIsValid(curve: string)
    requires Text.Parsed(curve).Some?
    ensures FanCurve.ValidCurve(Text.Parsed(curve).value)
  {}

  lemma ProposalIntact(s: State, op: Op)
    requires Intact(s) && Proposal(s, op).Some?
    ensures Intact(Proposal(s, op).value)
  {
    hide Text.Parsed, Text.FormatCurve, Text.Strip, Cleaned, ProfileName, KnownProfile;
    match op {
      case SaveProfile(name, definition) => CleanedIsName(name);
      case SetCurve(name, curve, writable) => SetCurveIntact(s, name, curve, writable);
      case Select(_) =>
      case SetAuto(_) =>
      case Configure(_, _) =>
      case DeleteProfile(_) =>
      case StockFan =>
    }
  }

  lemma CleanedIsName(name: string)
    requires Cleaned(name).Some?
    ensures ProfileName(Cleaned(name).value)
  {}

  lemma DefaultIntact()
    ensures Intact(DefaultState())
  {
    hide ProfileName, DefaultProfiles;
    forall n | n in BUILT_INS ensures ProfileName(n) { BuiltInNames(n); }
  }

  /** From the default state, every run of the use cases keeps the registry intact and the state valid. */
  lemma {:induction false} RunsStayIntact(calls: seq<Call>)
    ensures Intact(Run(DefaultState(), calls)) && Valid(Run(DefaultState(), calls))
  {
    hide Intact, Proposal, Valid, DefaultState;
    if calls == [] {
      DefaultIntact();
      DefaultValid();
    } else {
      var n := |calls| - 1;
      var s := Run(DefaultState(), calls[..n]);
      RunsStayIntact(calls[..n]);
      if Proposal(s, calls[n].op).Some? { ProposalIntact(s, calls[n].op); }
    }
  }

  /** What the use case hands to the hardware for a stored profile. */
  function DefinitionOf(p: Profile): (r: PowerTransaction.Definition) {
    PowerTransaction.Definition(p.pl1, p.pl2, p.governor, p.epp, p.ppd, p.turbo, p.maxPerf)
  }

  /** After every run of the use cases, the selected profile and those of the automatic switch are stored
      under that very name, and the hardware's own validation accepts each of them. */
  lemma ReferencesApply(calls: seq<Call>, name: string, m: PowerTransaction.Machine, h: PowerTransaction.Hw,
                        attempts: seq<nat>)
    requires name in References(Run(DefaultState(), calls).power)
    ensures var profiles := Run(DefaultState(), calls).power.profiles;
            && name in profiles
            && !PowerTransaction.Apply(m, h, DefinitionOf(profiles[name]), attempts).1.Invalid?
  {
    hide Run, PowerTransaction.Apply, Intact, Valid, DefaultState, ValidProfile, PowerTransaction.Normal;
    RunsStayIntact(calls);
    var s := Run(DefaultState(), calls);
    Registered(s, name);
    AcceptedProfile(s.power.profiles[name]);
    PowerTransaction.InvalidTouchesNothing(m, h, DefinitionOf(s.power.profiles[name]), attempts);
  }

  lemma Registered(s: State, name: string)
    requires Intact(s) && Valid(s) && name in References(s.power)
    ensures name in s.power.profiles && ValidProfile(s.power.profiles[name])
  {
    hide ValidProfile, ProfileName, Cleaned, KnownProfile, Text.Parsed, Text.FormatCurve, ValidScript, ValidFan,
        ValidGestures, ValidTouchpad, ValidBattery;
  }

  lemma AcceptedProfile(p: Profile)
    requires ValidProfile(p)
    ensures PowerTransaction.Normal(DefinitionOf(p))
  {
    hide Text.Strip;
  }

  // ------------------------------------------------------------------- deletion

  predicate WithoutIsValid(s: State, n: string) {
    Valid(s.(power := s.power.(profiles := s.power.profiles - {n}), fan := s.fan.(curves := s.fan.curves - {n})))
  }

  /**
   * On an intact valid state the deletion checks are exactly what is needed: a
   * registered custom profile can go, and the store then accepts the result,
   * exactly when nothing refers to it.
   */
  lemma DeletableIff(s: State, n: string)
    requires Intact(s) && Valid(s) && n in s.power.profiles && n !in BUILT_INS
    ensures Proposal(s, DeleteProfile(n)).Some? <==> n !in References(s.power)
    ensures WithoutIsValid(s, n) <==> n !in References(s.power)
  {
    hide WithoutIsValid, ProfileName, Cleaned, Valid;
    assert ProfileName(n);
    CleanedIdentifier(n);
    forall k | k in s.power.profiles ensures KnownProfile(k, s.power.profiles.Keys - {n}) <==> k != n {
      KnownWithout(s.power.profiles.Keys, n, k);
    }
    RemainingValid(s, n);
  }

  lemma KnownWithout(names: set<string>, n: string, k: string)
    requires k in names && ProfileName(k)
    ensures KnownProfile(k, names - {n}) <==> k != n
  {
    hide ProfileName, Cleaned;
    CleanedIdentifier(k);
  }

  lemma RemainingValid(s: State, n: string)
    requires Intact(s) && Valid(s) && n in s.power.profiles && n !in BUILT_INS
    requires forall k :: k in s.power.profiles ==> (KnownProfile(k, s.power.profiles.Keys - {n}) <==> k != n)
    ensures WithoutIsValid(s, n) <==> n !in References(s.power)
  {
    hide Text.Parsed, ValidProfile, KnownProfile, ProfileName, ValidScript, ValidGestures, ValidTouchpad, ValidBattery;
    var rest := s.power.profiles - {n};
    assert rest.Keys == s.power.profiles.Keys - {n};
    assert SILENT in rest;
    assert ValidFan(s.fan.(curves := s.fan.curves - {n}), rest.Keys);
  }

  /** A deleted profile leaves no curve behind for a later profile of the same name. */
  lemma DeletedLeavesNothing(s: State, n: string, definition: Profile)
    requires Proposal(s, DeleteProfile(n)).Some?
    ensures var name := Cleaned(n).value;
            var t := Proposal(s, DeleteProfile(n)).value;
            && name !in t.power.profiles && name !in t.fan.curves
            && (forall k :: k in s.power.profiles && k != name ==>
                k in t.power.profiles && t.power.profiles[k] == s.power.profiles[k])
            && (forall k :: k in s.fan.curves && k != name ==> k in t.fan.curves && t.fan.curves[k] == s.fan.curves[k])
            && Proposal(t, SaveProfile(n, definition)).Some?
            && name !in Proposal(t, SaveProfile(n, definition)).value.fan.curves
  {
    hide Cleaned, ProfileName;
  }

  // --------------------------------------------------------------- edited by hand

  /**
   * A valid state that did not come from the use cases: with identifiers as
   * keys, a stored reference is a key exactly when it is itself written as an
   * identifier (lower case, no surrounding space).
   */
  lemma ReferenceIsKeyIff(s: State, x: string)
    requires Valid(s) && Identifiers(s.power.profiles.Keys)
    requires x in References(s.power) || (x in s.fan.curves && x != "default")
    ensures x in s.power.profiles <==> ProfileName(x)
  {
    hide ProfileName, Cleaned, ValidProfile, ValidScript, Text.Parsed;
    CleanedIdentifier(x);
    assert KnownProfile(x, s.power.profiles.Keys);
  }

  function HandEdited(): (r: State) {
    var s := DefaultState();
    s.(power := s.power.(profile := "Balanced"))
  }

  /** "Balanced" passes validation, survives the file, and is not a key. */
  lemma HandEditedMisses()
    ensures Valid(HandEdited()) && HandEdited().power.profile !in HandEdited().power.profiles
    ensures ListsSettings([], ToDict(HandEdited()))
    ensures FromDict(ToDict(HandEdited()), []) == Ok(HandEdited())
  {
    hide Valid, ToDict, FromDict, DefaultProfiles;
    var s := HandEdited();
    EditedValid();
    CapitalIsNoKey();
    StateRoundTripIff(s, []);
  }

  lemma CapitalIsNoKey()
    ensures "Balanced" !in BUILT_INS
  {
    assert "Balanced"[0] == 'B' && SILENT[0] == 's' && BALANCED[0] == 'b' && PERFORMANCE[0] == 'p';
  }

  lemma CapitalBalanced()
    ensures Cleaned("Balanced") == Some("balanced")
  {
    assert Text.StripLeft("Balanced") == "Balanced";
    assert Text.Strip("Balanced") == "Balanced";
    assert Touchpad.Lower("Balanced") == "balanced";
    BuiltInNames(BALANCED);
  }

  lemma EditedValid()
    ensures Valid(HandEdited()) && BUILT_INS <= HandEdited().power.profiles.Keys
  {
    hide Cleaned, ValidProfile, ValidScript, DefaultProfiles;
    DefaultValid();
    CapitalBalanced();
  }

  // ------------------------------------------------------------------- the store

  /** One use case against the store. */
  method Perform(config: ConfigStore.Config, op: Op, order: seq<string>, fate: ConfigStore.Fate) returns (ok: bool)
    requires Lists(order, config.state.touchpad.Keys)
    modifies config
    ensures config.state == Commit(old(config.state), op, fate.Saves?)
    ensures ok ==> config.valid && Proposal(old(config.state), op) == Some(config.state)
    ensures ok && BUILT_INS <= config.state.power.profiles.Keys ==>
            ConfigStore.Read(config.primary) == Some(config.state)
    ensures !ok ==> config.state == old(config.state)
  {
    hide Valid, Proposal, ConfigStore.Written, ConfigStore.Read;
    var proposal := Proposal(config.state, op);
    if proposal.None? {
      return false;
    }
    SameTouchpad(config.state, op);
    var draft: ConfigStore.Draft := ConfigStore.Ordering(proposal.value, order);
    ghost var before := config.View();
    ok := config.UpdateState(draft, fate);
    if ok {
      ConfigStore.SuccessfulUpdate(before, draft, fate);
    } else {
      ConfigStore.FailedUpdate(before, draft, fate);
    }
  }

  lemma SameTouchpad(s: State, op: Op)
    requires Proposal(s, op).Some?
    ensures Proposal(s, op).value.touchpad == s.touchpad
  {
    hide Lookup, Cleaned, Text.Parsed, Text.FormatCurve, Text.Strip;
  }
}
