/**
 * The desired state the service persists: its validation, its form as a nested
 * dictionary, and reading that dictionary back.
 */
module ServiceConfig {
  import opened Wrappers
  import opened TomlPrinter
  import Text = FanCurveText
  import Battery = BatteryThresholds
  import Touchpad = TouchpadSettings

  type Fields = map<string, Tree>

  const SCHEMA_VERSION := 3

  datatype BatteryState = BatteryState(end: int, start: int, mode: string)

  datatype AutoSwitch = AutoSwitch(enabled: bool, onAc: string, onBattery: string, onAcScript: string,
      onBatteryScript: string)

  datatype Profile = Profile(
    title: string, description: string, pl1: int, pl2: int,
    governor: string, epp: string, ppd: string, turbo: bool, maxPerf: int)

  datatype Power = Power(profile: string, auto: AutoSwitch, profiles: map<string, Profile>)

  datatype Fan = Fan(mode: string, curves: map<string, string>)

  datatype Mapping = Mapping(enabled: bool, keys: string)

  datatype Gestures = Gestures(mappings: map<string, Mapping>, daemon: bool)

  datatype State = State(
    schema: int, battery: BatteryState, power: Power, fan: Fan,
    gestures: Gestures, touchpad: map<string, int>, gpu: bool)

  // ------------------------------------------------------------------- defaults

  const SILENT := "silent"
  const BALANCED := "balanced"
  const PERFORMANCE := "performance"

  const BUILT_INS: set<string> := {SILENT, BALANCED, PERFORMANCE}

  function DefaultProfiles(): (r: map<string, Profile>)
    ensures r.Keys == BUILT_INS
  {
    map[SILENT := Profile("Silent", "Lowest power and noise", 12_000_000, 18_000_000,
                          "powersave", "power", "power-saver", true, 100),
        BALANCED := Profile("Balanced", "Everyday power and battery use", 25_000_000, 35_000_000,
                            "powersave", "balance_power", "balanced", true, 100),
        PERFORMANCE := Profile("Performance", "Maximum sustained power", 35_000_000, 55_000_000,
                               "powersave", "performance", "performance", true, 100)]
  }

  function DefaultState(): (r: State) {
    State(SCHEMA_VERSION, BatteryState(90, 85, "home"),
          Power(BALANCED, AutoSwitch(false, BALANCED, SILENT, "", ""), DefaultProfiles()),
          Fan("stock", map[]), Gestures(map[], false), map[], false)
  }

  // ----------------------------------------------------------------- validation

  predicate NameChar(c: char) { 'a' <= c <= 'z' || '0' <= c <= '9' || c == '_' || c == '-' }

  predicate ProfileName(s: string) {
    s != "" && 'a' <= s[0] <= 'z' && forall i :: 0 <= i < |s| ==> NameChar(s[i])
  }

  /** The identifier a profile name is read as: stripped and lower-cased, if that has the right form. */
  function Cleaned(name: string): (r: Option<string>) {
    var c := Touchpad.Lower(Text.Strip(name));
    if ProfileName(c) then Some(c) else None
  }

  predicate KnownProfile(name: string, names: set<string>) {
    Cleaned(name).Some? && Cleaned(name).value in names
  }

  predicate ValidProfile(p: Profile) {
    && Text.Strip(p.title) != "" && |p.title| <= 64
    && |p.description| <= 256
    && 3_000_000 <= p.pl1 <= 35_000_000 && p.pl1 <= p.pl2 <= 55_000_000
    && p.governor in ["powersave", "performance"]
    && p.epp in ["power", "default", "balance_power", "balance_performance", "performance"]
    && p.ppd in ["power-saver", "balanced", "performance"]
    && 1 <= p.maxPerf <= 100
  }

  predicate ValidScript(s: string) { |s| <= 1024 && '\0' !in s }

  predicate ValidPower(p: Power) {
    && p.profiles != map[]
    && (forall n :: n in p.profiles ==> KnownProfile(n, p.profiles.Keys) && ValidProfile(p.profiles[n]))
    && KnownProfile(p.profile, p.profiles.Keys)
    && KnownProfile(p.auto.onAc, p.profiles.Keys) && KnownProfile(p.auto.onBattery, p.profiles.Keys)
    && ValidScript(p.auto.onAcScript) && ValidScript(p.auto.onBatteryScript)
  }

  predicate ValidFan(f: Fan, names: set<string>) {
    && f.mode in ["stock", "curve", "manual_override", "failed_safe"]
    && forall n :: n in f.curves ==> (n == "default" || KnownProfile(n, names)) && Text.Parsed(f.curves[n]).Some?
  }

  predicate GestureId(id: string) {
    var g := Text.Strip(id);
    g != "" && forall i :: 0 <= i < |g| ==>
        'a' <= g[i] <= 'z' || 'A' <= g[i] <= 'Z' || '0' <= g[i] <= '9' || g[i] in ":_-"
  }

  predicate KeyToken(t: string) {
    t in {"esc", "1", "2", "3", "4", "5", "6", "7", "8", "9", "0", "backspace", "tab",
          "q", "w", "e", "r", "t", "y", "u", "i", "o", "p", "enter", "leftctrl",
          "a", "s", "d", "f", "g", "h", "j", "k", "l", "leftshift",
          "z", "x", "c", "v", "b", "n", "m", "rightshift", "leftalt", "space", "capslock",
          "f1", "f2", "f3", "f4", "f5", "f6", "f7", "f8", "f9", "f10", "f11", "f12",
          "sysrq", "rightctrl", "rightalt", "home", "up", "pageup", "left", "right", "end", "down", "pagedown",
          "insert", "delete", "mute", "volumedown", "volumeup", "leftmeta", "rightmeta", "menu", "back", "forward",
          "nextsong", "playpause", "previoussong", "stop", "homepage", "refresh", "print", "brightnessdown",
          "brightnessup"}
  }

  /** A comma-separated list of known keys, at least one; blank parts are skipped. */
  predicate KeyCombo(text: string) {
    var parts := Text.Split(text);
    && (exists i :: 0 <= i < |parts| && Text.Strip(parts[i]) != "")
    && forall i :: 0 <= i < |parts| && Text.Strip(parts[i]) != "" ==> KeyToken(Touchpad.Lower(Text.Strip(parts[i])))
  }

  predicate ValidGestures(g: Gestures) {
    forall id :: id in g.mappings ==> GestureId(id) && (g.mappings[id].keys != "" ==> KeyCombo(g.mappings[id].keys))
  }

  predicate ValidSetting(name: string, value: int) {
    var s := Touchpad.ParseSetting(name);
    s.Some? && Touchpad.Name(s.value) == name && Touchpad.ParseValue(s.value, Int(value)).Some?
  }

  predicate ValidTouchpad(settings: map<string, int>) {
    forall n :: n in settings ==> ValidSetting(n, settings[n])
  }

  predicate ValidBattery(b: BatteryState) {
    && Battery.Acceptable(Battery.Levels(b.end, b.start))
    && b.mode in ["off", "home", "travel", "storage", "custom"]
  }

  predicate Valid(s: State) {
    && s.schema == SCHEMA_VERSION
    && ValidBattery(s.battery)
    && ValidPower(s.power)
    && ValidFan(s.fan, s.power.profiles.Keys)
    && ValidGestures(s.gestures)
    && ValidTouchpad(s.touchpad)
  }

  /** Cleaning leaves an identifier alone, and what it produces is one. */
  lemma CleanedIdentifier(name: string)
    ensures ProfileName(name) ==> Cleaned(name) == Some(name)
    ensures Cleaned(name).Some? ==> ProfileName(Cleaned(name).value) && Cleaned(Cleaned(name).value) == Cleaned(name)
  {
    if ProfileName(name) { IdentifierStays(name); }
    if Cleaned(name).Some? { IdentifierStays(Cleaned(name).value); }
  }

  lemma IdentifierStays(name: string)
    requires ProfileName(name)
    ensures Touchpad.Lower(Text.Strip(name)) == name
  {
    assert NameChar(name[0]) && NameChar(name[|name|-1]);
    assert Text.StripLeft(name) == name;
    assert Text.StripRight(name) == name;
    forall i | 0 <= i < |name| ensures Touchpad.LowerChar(name[i]) == name[i] {
      assert NameChar(name[i]);
    }
    assert Touchpad.Lower(name) == name;
  }

  lemma BuiltInNames(n: string)
    requires n in BUILT_INS
    ensures ProfileName(n)
  {}

  lemma DefaultProfileValid(n: string)
    requires n in BUILT_INS
    ensures ValidProfile(DefaultProfiles()[n])
  {
    assert Text.Strip("Silent") != "" && Text.Strip("Balanced") != "" && Text.Strip("Performance") != "";
  }

  lemma DefaultValid()
    ensures Valid(DefaultState()) && BUILT_INS <= DefaultState().power.profiles.Keys
  {
    hide ProfileName, Cleaned, ValidProfile, DefaultProfiles, ValidScript;
    assert ValidScript("") by { EmptyScript(); }
    forall n | n in BUILT_INS ensures KnownProfile(n, BUILT_INS) && ValidProfile(DefaultProfiles()[n]) {
      BuiltInNames(n);
      CleanedIdentifier(n);
      DefaultProfileValid(n);
    }
    assert SILENT in BUILT_INS && BALANCED in BUILT_INS;
  }

  lemma EmptyScript()
    ensures ValidScript("")
  {}

  // ------------------------------------------------------------- typed lookups

  function TableAt(d: Fields, key: string): (r: Option<Fields>) {
    if key !in d then Some(map[]) else if d[key].Dict? then Some(d[key].fields) else None
  }

  function IntAt(d: Fields, key: string, default: int): (r: Option<int>) {
    if key !in d then Some(default)
    else if d[key].Value? && d[key].scalar.Int? then Some(d[key].scalar.number) else None
  }

  function BoolAt(d: Fields, key: string, default: bool): (r: Option<bool>) {
    if key !in d then Some(default)
    else if d[key].Value? && d[key].scalar.Bool? then Some(d[key].scalar.flag) else None
  }

  function StrAt(d: Fields, key: string, default: string): (r: Option<string>) {
    if key !in d then Some(default)
    else if d[key].Value? && d[key].scalar.Str? then Some(d[key].scalar.text) else None
  }

  function PutInt(n: int): (r: Tree) { Value(Int(n)) }
  function PutBool(b: bool): (r: Tree) { Value(Bool(b)) }
  function PutStr(s: string): (r: Tree) { Value(Str(s)) }

  // ------------------------------------------------------------ entries of a table

  /** Every entry of a table read by the same rule; nothing if one of them cannot be. */
  function Each<T>(raw: Fields, read: (string, Tree) -> Option<T>): (r: Option<map<string, T>>)
    ensures r.Some? ==> r.value.Keys == raw.Keys && forall n :: n in raw ==> read(n, raw[n]) == Some(r.value[n])
    ensures r.None? <==> exists n :: n in raw && read(n, raw[n]).None?
  {
    if forall n :: n in raw ==> read(n, raw[n]).Some? then
      Some(map n | n in raw :: read(n, raw[n]).value)
    else None
  }

  /** The loop that fills a dictionary from the entries of a table. */
  method ReadEach<T>(raw: Fields, read: (string, Tree) -> Option<T>) returns (r: Option<map<string, T>>)
    ensures r == Each(raw, read)
  {
    var done: map<string, T> := map[];
    var left := raw.Keys;
    while left != {}
      invariant left <= raw.Keys && done.Keys == raw.Keys - left
      invariant forall n :: n in done ==> read(n, raw[n]) == Some(done[n])
      decreases left
    {
      var n :| n in left;
      var value := read(n, raw[n]);
      if value.None? {
        return None;
      }
      done := done[n := value.value];
      left := left - {n};
    }
    var all := Each(raw, read);
    assert all.Some?;
    assert all.value == done;
    return Some(done);
  }

  // --------------------------------------------------------------------- battery

  function BatteryTo(b: BatteryState): (r: Fields) {
    map["end_threshold" := PutInt(b.end), "start_threshold" := PutInt(b.start), "mode" := PutStr(b.mode)]
  }

  function BatteryFrom(d: Fields): (r: Option<BatteryState>) {
    var end :- IntAt(d, "end_threshold", 90);
    var start :- IntAt(d, "start_threshold", 85);
    var mode :- StrAt(d, "mode", "home");
    if Battery.Acceptable(Battery.Levels(end, start)) then Some(BatteryState(end, start, mode)) else None
  }

  lemma BatteryRoundTrip(b: BatteryState)
    requires ValidBattery(b)
    ensures BatteryFrom(BatteryTo(b)) == Some(b)
  {
    assert |"mode"| < |"end_threshold"| < |"start_threshold"|;
  }

  // ----------------------------------------------------------------------- power

  function Letter(c: char): (r: bool) { 'a' <= c <= 'z' || 'A' <= c <= 'Z' }

  /** Title case with underscores as spaces: the label of a profile that gives none. */
  function Title(s: string, inWord: bool): (r: string) {
    if s == "" then ""
    else
      var c := s[0];
      var d := if c == '_' then ' '
               else if inWord then Touchpad.LowerChar(c)
               else if 'a' <= c <= 'z' then (c as int - 32) as char
               else c;
      [d] + Title(s[1..], Letter(c))
  }

  function ProfileTo(p: Profile): (r: Fields) {
    map["label" := PutStr(p.title), "description" := PutStr(p.description),
        "pl1_uw" := PutInt(p.pl1), "pl2_uw" := PutInt(p.pl2),
        "governor" := PutStr(p.governor), "epp" := PutStr(p.epp), "ppd_profile" := PutStr(p.ppd),
        "turbo_enabled" := PutBool(p.turbo), "max_perf_pct" := PutInt(p.maxPerf)]
  }

  function ProfileFrom(key: string, t: Tree): (r: Option<Profile>) {
    if t.Value? then None
    else
      var d := t.fields;
      var title :- StrAt(d, "label", Title(key, false));
      var description :- StrAt(d, "description", "");
      var pl1 :- IntAt(d, "pl1_uw", 25_000_000);
      var pl2 :- IntAt(d, "pl2_uw", 35_000_000);
      var governor :- StrAt(d, "governor", "powersave");
      var epp :- StrAt(d, "epp", "balance_power");
      var ppd :- StrAt(d, "ppd_profile", "balanced");
      var turbo :- BoolAt(d, "turbo_enabled", true);
      var maxPerf :- IntAt(d, "max_perf_pct", 100);
      Some(Profile(title, description, pl1, pl2, governor, epp, ppd, turbo, maxPerf))
  }

  lemma ProfileRoundTrip(key: string, p: Profile)
    ensures ProfileFrom(key, Dict(ProfileTo(p))) == Some(p)
  {
    assert "pl1_uw"[2] != "pl2_uw"[2];
    assert "description"[0] != "ppd_profile"[0];
  }

  function AutoTo(a: AutoSwitch): (r: Fields) {
    map["enabled" := PutBool(a.enabled), "on_ac" := PutStr(a.onAc), "on_battery" := PutStr(a.onBattery),
        "on_ac_script" := PutStr(a.onAcScript), "on_battery_script" := PutStr(a.onBatteryScript)]
  }

  function AutoFrom(d: Fields): (r: Option<AutoSwitch>) {
    var enabled :- BoolAt(d, "enabled", false);
    var onAc :- StrAt(d, "on_ac", "balanced");
    var onBattery :- StrAt(d, "on_battery", "silent");
    var onAcScript :- StrAt(d, "on_ac_script", "");
    var onBatteryScript :- StrAt(d, "on_battery_script", "");
    Some(AutoSwitch(enabled, onAc, onBattery, onAcScript, onBatteryScript))
  }

  lemma AutoRoundTrip(a: AutoSwitch)
    ensures AutoFrom(AutoTo(a)) == Some(a)
  {}

  function ProfilesTo(ps: map<string, Profile>): (r: Fields) { map n | n in ps :: Dict(ProfileTo(ps[n])) }

  function PowerTo(p: Power): (r: Fields) {
    map["profile" := PutStr(p.profile), "auto_switch" := Dict(AutoTo(p.auto)),
        "profiles" := Dict(ProfilesTo(p.profiles))]
  }

  /** The built-ins are there before the table is read, and an entry of the same name replaces one. */
  function PowerFrom(d: Fields): (r: Option<Power>)
    ensures r.Some? ==> BUILT_INS <= r.value.profiles.Keys
  {
    var autoTable :- TableAt(d, "auto_switch");
    var raw :- TableAt(d, "profiles");
    var profiles :- Each(raw, ProfileFrom);
    var profile :- StrAt(d, "profile", "balanced");
    var auto :- AutoFrom(autoTable);
    Some(Power(profile, auto, DefaultProfiles() + profiles))
  }

  lemma EachRoundTrip<T(!new)>(m: map<string, T>, raw: Fields, read: (string, Tree) -> Option<T>)
    requires raw.Keys == m.Keys && forall n :: n in m ==> read(n, raw[n]) == Some(m[n])
    ensures Each(raw, read) == Some(m)
  {
    var r := Each(raw, read);
    assert r.Some?;
    assert r.value == m;
  }

  lemma PowerRoundTrip(p: Power)
    requires BUILT_INS <= p.profiles.Keys
    ensures PowerFrom(PowerTo(p)) == Some(p)
  {
    hide ProfileTo, ProfileFrom, AutoTo, AutoFrom, Each, DefaultProfiles;
    AutoRoundTrip(p.auto);
    forall n | n in p.profiles ensures ProfileFrom(n, ProfilesTo(p.profiles)[n]) == Some(p.profiles[n]) {
      ProfileRoundTrip(n, p.profiles[n]);
    }
    EachRoundTrip(p.profiles, ProfilesTo(p.profiles), ProfileFrom);
    assert DefaultProfiles() + p.profiles == p.profiles;
    PowerKeys();
  }

  lemma PowerKeys()
    ensures "profile" != "auto_switch" && "profile" != "profiles" && "auto_switch" != "profiles"
  {}

  // ------------------------------------------------------------------------- fan

  function CurveFrom(key: string, t: Tree): (r: Option<string>) {
    if t.Value? && t.scalar.Str? then Some(t.scalar.text) else None
  }

  function CurvesTo(cs: map<string, string>): (r: Fields) { map n | n in cs :: PutStr(cs[n]) }

  function FanTo(f: Fan): (r: Fields) { map["mode" := PutStr(f.mode), "curves" := Dict(CurvesTo(f.curves))] }

  function FanFrom(d: Fields): (r: Option<Fan>) {
    var raw :- TableAt(d, "curves");
    var curves :- Each(raw, CurveFrom);
    var mode :- StrAt(d, "mode", "stock");
    Some(Fan(mode, curves))
  }

  lemma FanRoundTrip(f: Fan)
    ensures FanFrom(FanTo(f)) == Some(f)
  {
    hide Each;
    assert |"mode"| != |"curves"|;
    EachRoundTrip(f.curves, CurvesTo(f.curves), CurveFrom);
  }

  // -------------------------------------------------------------------- gestures

  function MappingTo(m: Mapping): (r: Fields) { map["enabled" := PutBool(m.enabled), "mapping" := PutStr(m.keys)] }

  function MappingFrom(key: string, t: Tree): (r: Option<Mapping>) {
    if t.Value? then None
    else
      var enabled :- BoolAt(t.fields, "enabled", true);
      var keys :- StrAt(t.fields, "mapping", "");
      Some(Mapping(enabled, keys))
  }

  lemma MappingRoundTrip(key: string, m: Mapping)
    ensures MappingFrom(key, Dict(MappingTo(m))) == Some(m)
  {
    assert "enabled"[0] != "mapping"[0];
  }

  function MappingsTo(ms: map<string, Mapping>): (r: Fields) { map n | n in ms :: Dict(MappingTo(ms[n])) }

  function GesturesTo(g: Gestures): (r: Fields) {
    map["mappings" := Dict(MappingsTo(g.mappings)), "daemon_enabled" := PutBool(g.daemon)]
  }

  function GesturesFrom(d: Fields): (r: Option<Gestures>) {
    var raw :- TableAt(d, "mappings");
    var mappings :- Each(raw, MappingFrom);
    var daemon :- BoolAt(d, "daemon_enabled", false);
    Some(Gestures(mappings, daemon))
  }

  lemma GesturesRoundTrip(g: Gestures)
    ensures GesturesFrom(GesturesTo(g)) == Some(g)
  {
    hide Each, MappingTo, MappingFrom;
    assert |"mappings"| != |"daemon_enabled"|;
    forall n | n in g.mappings ensures MappingFrom(n, MappingsTo(g.mappings)[n]) == Some(g.mappings[n]) {
      MappingRoundTrip(n, g.mappings[n]);
    }
    EachRoundTrip(g.mappings, MappingsTo(g.mappings), MappingFrom);
  }

  // -------------------------------------------------------------------- touchpad

  function SettingsTo(m: map<string, int>): (r: Fields) { map n | n in m :: PutInt(m[n]) }

  /** The order in which a table lists its names. */
  predicate Lists(order: seq<string>, names: set<string>) {
    && (forall n :: n in order ==> n in names)
    && (forall n :: n in names ==> n in order)
    && forall i, j :: 0 <= i < j < |order| ==> order[i] != order[j]
  }

  /** Settings in listing order, under their canonical names: of two spellings of one setting the later wins. */
  function SettingsFrom(raw: Fields, order: seq<string>): (r: Option<map<string, int>>)
    requires forall n :: n in order ==> n in raw
  {
    if order == [] then Some(map[])
    else
      var n := order[|order|-1];
      assert n in order;
      var before :- SettingsFrom(raw, order[..|order|-1]);
      var s :- Touchpad.ParseSetting(n);
      if raw[n].Dict? then None
      else
        var v :- Touchpad.ParseValue(s, raw[n].scalar);
        Some(before[Touchpad.Name(s) := v])
  }

  lemma {:induction false} SettingsFail(raw: Fields, order: seq<string>, k: nat)
    requires forall n :: n in order ==> n in raw
    requires k <= |order| && SettingsFrom(raw, order[..k]).None?
    ensures SettingsFrom(raw, order).None?
    decreases |order| - k
  {
    if k == |order| {
      assert order[..k] == order;
    } else {
      assert order[..k+1][..k] == order[..k];
      SettingsFail(raw, order, k + 1);
    }
  }

  method ReadSettings(raw: Fields, order: seq<string>) returns (r: Option<map<string, int>>)
    requires forall n :: n in order ==> n in raw
    ensures r == SettingsFrom(raw, order)
  {
    hide Touchpad.ParseSetting, Touchpad.ParseValue, Touchpad.Name;
    var settings: map<string, int> := map[];
    for i := 0 to |order|
      invariant SettingsFrom(raw, order[..i]) == Some(settings)
    {
      assert order[..i+1][..i] == order[..i];
      var n := order[i];
      var s := Touchpad.ParseSetting(n);
      if s.None? || raw[n].Dict? {
        SettingsFail(raw, order, i + 1);
        return None;
      }
      var v := Touchpad.ParseValue(s.value, raw[n].scalar);
      if v.None? {
        SettingsFail(raw, order, i + 1);
        return None;
      }
      settings := settings[Touchpad.Name(s.value) := v.value];
    }
    assert order[..|order|] == order;
    return Some(settings);
  }

  lemma {:induction false} SettingsRoundTrip(m: map<string, int>, order: seq<string>)
    requires ValidTouchpad(m) && forall n :: n in order ==> n in m
    ensures SettingsFrom(SettingsTo(m), order) == Some(map n | n in order :: m[n])
  {
    hide Touchpad.ParseSetting, Touchpad.Name, Touchpad.ParseValue;
    if order != [] {
      var k := |order| - 1;
      var n := order[k];
      assert n in order;
      SettingsRoundTrip(m, order[..k]);
      SettingReads(n, m[n]) by { assert ValidSetting(n, m[n]); }
      RestrictGrows(m, order);
    }
  }

  lemma SettingReads(n: string, v: int)
    requires ValidSetting(n, v)
    ensures var s := Touchpad.ParseSetting(n);
            s.Some? && Touchpad.Name(s.value) == n && Touchpad.ParseValue(s.value, Int(v)) == Some(v)
  {
    hide Touchpad.ParseSetting, Touchpad.Name;
  }

  lemma RestrictGrows(m: map<string, int>, order: seq<string>)
    requires order != [] && forall n :: n in order ==> n in m
    ensures var k := |order| - 1;
            (map x | x in order[..k] :: m[x])[order[k] := m[order[k]]] == map x | x in order :: m[x]
  {}

  function TouchpadTo(m: map<string, int>): (r: Fields) { map["settings" := Dict(SettingsTo(m))] }

  function TouchpadTable(data: Fields): (r: Option<Fields>) {
    var t :- TableAt(data, "touchpad");
    TableAt(t, "settings")
  }

  /** The listing order that comes with a document is that of its touchpad settings. */
  predicate ListsSettings(order: seq<string>, data: Fields) {
    TouchpadTable(data).Some? ==> Lists(order, TouchpadTable(data).value.Keys)
  }

  // ------------------------------------------------------------------- documents

  datatype Refusal = Invalid | Newer

  function ToDict(s: State): (r: Fields) {
    map["schema_version" := PutInt(SCHEMA_VERSION),
        "battery" := Dict(BatteryTo(s.battery)), "power" := Dict(PowerTo(s.power)), "fan" := Dict(FanTo(s.fan)),
        "gestures" := Dict(GesturesTo(s.gestures)), "touchpad" := Dict(TouchpadTo(s.touchpad)),
        "gpu" := Dict(map["mitigation_enabled" := PutBool(s.gpu)])]
  }

  /** The sections of a document, before the whole is validated. */
  function Sections(data: Fields, order: seq<string>): (r: Option<State>)
    requires ListsSettings(order, data)
    ensures r.Some? ==> r.value.schema == SCHEMA_VERSION && BUILT_INS <= r.value.power.profiles.Keys
  {
    var batteryTable :- TableAt(data, "battery");
    var battery :- BatteryFrom(batteryTable);
    var powerTable :- TableAt(data, "power");
    var power :- PowerFrom(powerTable);
    var fanTable :- TableAt(data, "fan");
    var fan :- FanFrom(fanTable);
    var gesturesTable :- TableAt(data, "gestures");
    var gestures :- GesturesFrom(gesturesTable);
    var raw :- TouchpadTable(data);
    var touchpad :- SettingsFrom(raw, order);
    var gpuTable :- TableAt(data, "gpu");
    var gpu :- BoolAt(gpuTable, "mitigation_enabled", false);
    Some(State(SCHEMA_VERSION, battery, power, fan, gestures, touchpad, gpu))
  }

  function FromDict(data: Fields, order: seq<string>): (r: Result<State, Refusal>)
    requires ListsSettings(order, data)
    ensures r.Ok? ==> Valid(r.value) && BUILT_INS <= r.value.power.profiles.Keys
  {
    var version := IntAt(data, "schema_version", 1);
    if version.None? || version.value < 1 then Err(Invalid)
    else if version.value > SCHEMA_VERSION then Err(Newer)
    else
      var s := Sections(data, order);
      if s.Some? && Valid(s.value) then Ok(s.value) else Err(Invalid)
  }

  /** Which documents are refused for their version: one that is not a number or below 1 as invalid, a
      number above 3 as newer than this service; a document without one is read as version 1. */
  lemma VersionIff(data: Fields, order: seq<string>)
    requires ListsSettings(order, data)
    ensures var stated := "schema_version" in data;
            var number := stated && data["schema_version"].Value? && data["schema_version"].scalar.Int?;
            && (FromDict(data, order) == Err(Newer) <==> number && data["schema_version"].scalar.number > 3)
            && (stated && !number ==> FromDict(data, order) == Err(Invalid))
            && (number && data["schema_version"].scalar.number < 1 ==> FromDict(data, order) == Err(Invalid))
            && (!stated || (number && 1 <= data["schema_version"].scalar.number <= 3) ==>
                  (FromDict(data, order).Ok? <==>
                     Sections(data, order).Some? && Valid(Sections(data, order).value)))
  {
    hide Sections, Valid;
  }

  lemma TopLookups(s: State)
    ensures var d := ToDict(s);
            && IntAt(d, "schema_version", 1) == Some(SCHEMA_VERSION)
            && TableAt(d, "battery") == Some(BatteryTo(s.battery))
            && TableAt(d, "power") == Some(PowerTo(s.power))
            && TableAt(d, "fan") == Some(FanTo(s.fan))
            && TableAt(d, "gestures") == Some(GesturesTo(s.gestures))
            && TableAt(d, "touchpad") == Some(TouchpadTo(s.touchpad))
            && TableAt(d, "gpu") == Some(map["mitigation_enabled" := PutBool(s.gpu)])
  {
    hide BatteryTo, PowerTo, FanTo, GesturesTo, TouchpadTo;
    assert |"fan"| == |"gpu"| == 3 && "fan"[0] != "gpu"[0];
    assert |"battery"| == 7 && |"power"| == 5 && |"gestures"| == |"touchpad"| == 8 && "gestures"[0] != "touchpad"[0];
    assert |"schema_version"| == 14;
  }

  // ------------------------------------------------------------- the file's keys

  predicate Holds(d: Fields, key: string, v: Scalar) { key in d && d[key] == Value(v) }

  predicate HasTable(d: Fields, key: string, fields: Fields) { key in d && d[key] == Dict(fields) }

  lemma BatteryKeys(b: BatteryState)
    ensures var d := BatteryTo(b);
            && Holds(d, "end_threshold", Int(b.end)) && Holds(d, "start_threshold", Int(b.start))
            && Holds(d, "mode", Str(b.mode))
  {
    assert |"mode"| < |"end_threshold"| < |"start_threshold"|;
  }

  lemma AutoKeys(a: AutoSwitch)
    ensures var d := AutoTo(a);
            && Holds(d, "enabled", Bool(a.enabled))
            && Holds(d, "on_ac", Str(a.onAc)) && Holds(d, "on_battery", Str(a.onBattery))
            && Holds(d, "on_ac_script", Str(a.onAcScript)) && Holds(d, "on_battery_script", Str(a.onBatteryScript))
  {}

  lemma ProfileKeys(p: Profile)
    ensures var d := ProfileTo(p);
            && Holds(d, "label", Str(p.title)) && Holds(d, "description", Str(p.description))
            && Holds(d, "pl1_uw", Int(p.pl1)) && Holds(d, "pl2_uw", Int(p.pl2))
            && Holds(d, "governor", Str(p.governor)) && Holds(d, "epp", Str(p.epp))
            && Holds(d, "ppd_profile", Str(p.ppd)) && Holds(d, "turbo_enabled", Bool(p.turbo))
            && Holds(d, "max_perf_pct", Int(p.maxPerf))
  {
    assert "pl1_uw"[2] != "pl2_uw"[2];
    assert "description"[0] != "ppd_profile"[0];
  }

  lemma MappingKeys(m: Mapping)
    ensures Holds(MappingTo(m), "enabled", Bool(m.enabled)) && Holds(MappingTo(m), "mapping", Str(m.keys))
  {
    assert "enabled"[0] != "mapping"[0];
  }

  /** Where the file keeps each section of the state. */
  lemma DocumentKeys(s: State)
    ensures var d := ToDict(s);
            && Holds(d, "schema_version", Int(3))
            && HasTable(d, "battery", BatteryTo(s.battery))
            && HasTable(d, "power", PowerTo(s.power)) && HasTable(d, "fan", FanTo(s.fan))
            && HasTable(d, "gestures", GesturesTo(s.gestures)) && HasTable(d, "touchpad", TouchpadTo(s.touchpad))
            && HasTable(d, "gpu", map["mitigation_enabled" := Value(Bool(s.gpu))])
  {
    hide BatteryTo, PowerTo, FanTo, GesturesTo, TouchpadTo;
    assert |"fan"| == |"gpu"| == 3 && "fan"[0] != "gpu"[0];
    assert |"battery"| == 7 && |"power"| == 5 && |"gestures"| == |"touchpad"| == 8 && "gestures"[0] != "touchpad"[0];
    assert |"schema_version"| == 14;
  }

  /** Where a section keeps its parts, for those with tables of their own. */
  lemma SectionTables(p: Power, f: Fan, g: Gestures, settings: map<string, int>)
    ensures var d := PowerTo(p);
            && Holds(d, "profile", Str(p.profile)) && HasTable(d, "auto_switch", AutoTo(p.auto))
            && HasTable(d, "profiles", map n | n in p.profiles :: Dict(ProfileTo(p.profiles[n])))
    ensures Holds(FanTo(f), "mode", Str(f.mode))
            && HasTable(FanTo(f), "curves", map n | n in f.curves :: Value(Str(f.curves[n])))
    ensures Holds(GesturesTo(g), "daemon_enabled", Bool(g.daemon))
            && HasTable(GesturesTo(g), "mappings", map n | n in g.mappings :: Dict(MappingTo(g.mappings[n])))
    ensures HasTable(TouchpadTo(settings), "settings", map n | n in settings :: Value(Int(settings[n])))
  {
    hide AutoTo, ProfileTo, MappingTo;
    PowerKeys();
    assert |"mode"| != |"curves"| && |"mappings"| != |"daemon_enabled"|;
  }

  /** What an entry with nothing in it stands for: a profile of that name with the balanced limits, and a
      gesture that is on and mapped to nothing. */
  lemma EmptyEntries(key: string)
    ensures ProfileFrom(key, Dict(map[])) ==
            Some(Profile(Title(key, false), "", 25_000_000, 35_000_000, "powersave", "balance_power", "balanced", true,
                         100))
    ensures MappingFrom(key, Dict(map[])) == Some(Mapping(true, ""))
  {}

  /** A saved document lists the settings of the state it was made from. */
  lemma SavedLists(s: State, order: seq<string>)
    ensures TouchpadTable(ToDict(s)) == Some(SettingsTo(s.touchpad))
    ensures ListsSettings(order, ToDict(s)) <==> Lists(order, s.touchpad.Keys)
  {
    hide ToDict, SettingsTo;
    TopLookups(s);
    assert SettingsTo(s.touchpad).Keys == s.touchpad.Keys by { SettingsKeys(s.touchpad); }
  }

  lemma SettingsKeys(m: map<string, int>)
    ensures SettingsTo(m).Keys == m.Keys
  {}

  lemma SectionsRoundTrip(s: State, order: seq<string>)
    requires Valid(s) && BUILT_INS <= s.power.profiles.Keys && Lists(order, s.touchpad.Keys)
    ensures ListsSettings(order, ToDict(s)) && Sections(ToDict(s), order) == Some(s)
  {
    hide ToDict, BatteryFrom, BatteryTo, PowerFrom, PowerTo, FanFrom, FanTo, GesturesFrom, GesturesTo,
         SettingsFrom, SettingsTo, ValidBattery, ValidPower, ValidFan, ValidGestures, ValidTouchpad, TouchpadTable;
    TopLookups(s);
    SavedLists(s, order);
    BatteryRoundTrip(s.battery);
    PowerRoundTrip(s.power);
    FanRoundTrip(s.fan);
    GesturesRoundTrip(s.gestures);
    SettingsRoundTrip(s.touchpad, order);
    assert (map n | n in order :: s.touchpad[n]) == s.touchpad;
  }

  /**
   * Converting a state to a dictionary and reading it back, whatever the listing
   * order, gives the same state exactly when the state is valid and has the
   * three built-in profiles.
   */
  lemma StateRoundTripIff(s: State, order: seq<string>)
    requires Lists(order, s.touchpad.Keys)
    ensures ListsSettings(order, ToDict(s))
    ensures FromDict(ToDict(s), order) == Ok(s) <==> Valid(s) && BUILT_INS <= s.power.profiles.Keys
  {
    hide ToDict, Sections, Valid;
    SavedLists(s, order);
    TopLookups(s);
    if Valid(s) && BUILT_INS <= s.power.profiles.Keys {
      SectionsRoundTrip(s, order);
    }
  }

  /** Through the printer: replaying the printed lines and reading the result gives the state back. */
  lemma PrintedStateReadsBack(s: State, entries: seq<Pair>, order: seq<string>)
    requires Valid(s) && BUILT_INS <= s.power.profiles.Keys && Lists(order, s.touchpad.Keys)
    requires Proper(entries) && Unordered(entries) == ToDict(s)
    ensures var replayed := ReplayLines(EMPTY, Dump(entries, [], []));
            && replayed.Some? && ListsSettings(order, replayed.value.root)
            && FromDict(replayed.value.root, order) == Ok(s)
  {
    hide ToDict, Valid, FromDict, Unordered, Dump, ReplayLines, Proper;
    PrintedReplays(entries);
    StateRoundTripIff(s, order);
  }

  lemma {:induction false} ListNames(names: set<string>) returns (order: seq<string>)
    ensures Lists(order, names)
    decreases |names|
  {
    if names == {} {
      order := [];
    } else {
      var n :| n in names;
      var rest := ListNames(names - {n});
      order := [n] + rest;
    }
  }

  /** Every state that survives has a text that reads back as it: a listing of its dictionary exists. */
  lemma EveryStatePrints(s: State) returns (entries: seq<Pair>, order: seq<string>)
    requires Valid(s) && BUILT_INS <= s.power.profiles.Keys
    ensures Proper(entries) && Unordered(entries) == ToDict(s) && Lists(order, s.touchpad.Keys)
    ensures var replayed := ReplayLines(EMPTY, Dump(entries, [], []));
            && replayed.Some? && ListsSettings(order, replayed.value.root)
            && FromDict(replayed.value.root, order) == Ok(s)
  {
    hide ToDict, Valid, FromDict, Unordered, Dump, ReplayLines, Proper, Lists, ListsSettings;
    entries := ListEntries(ToDict(s));
    order := ListNames(s.touchpad.Keys);
    PrintedStateReadsBack(s, entries, order);
  }

  const SPARE := "custom"

  /** A valid state with a single profile that is not a built-in one. */
  function WithoutBuiltIns(): (r: State) {
    var s := DefaultState();
    s.(power := Power(SPARE, AutoSwitch(false, SPARE, SPARE, "", ""), map[SPARE := DefaultProfiles()[BALANCED]]))
  }

  lemma SpareIsName()
    ensures ProfileName(SPARE) && SPARE !in BUILT_INS
  {
    assert |SPARE| == 6 && SPARE[0] == 'c' && SILENT[0] == 's' && BALANCED[0] == 'b' && PERFORMANCE[0] == 'p';
  }

  /** It passes validation and does not survive the dictionary. */
  lemma WithoutBuiltInsExample()
    ensures Valid(WithoutBuiltIns()) && ListsSettings([], ToDict(WithoutBuiltIns()))
    ensures FromDict(ToDict(WithoutBuiltIns()), []) != Ok(WithoutBuiltIns())
  {
    hide ToDict, FromDict, Valid, WithoutBuiltIns;
    WithoutBuiltInsValid();
    LacksBuiltIns();
    StateRoundTripIff(WithoutBuiltIns(), []);
  }

  lemma LacksBuiltIns()
    ensures !(BUILT_INS <= WithoutBuiltIns().power.profiles.Keys) && WithoutBuiltIns().touchpad == map[]
  {
    hide DefaultProfiles;
    assert SPARE[0] == 'c' && BALANCED[0] == 'b';
    assert BALANCED in BUILT_INS && BALANCED !in WithoutBuiltIns().power.profiles.Keys;
  }

  lemma WithoutBuiltInsValid()
    ensures Valid(WithoutBuiltIns())
  {
    hide ProfileName, Cleaned, ValidProfile, DefaultProfiles, ValidScript;
    DefaultValid();
    SpareIsName();
    CleanedIdentifier(SPARE);
    EmptyScript();
    DefaultProfileValid(BALANCED);
    var s := WithoutBuiltIns();
    assert SPARE in s.power.profiles;
    assert KnownProfile(SPARE, s.power.profiles.Keys);
    assert s.power.profiles[SPARE] == DefaultProfiles()[BALANCED];
    assert ValidPower(s.power);
    assert ValidFan(s.fan, s.power.profiles.Keys);
  }

  /** An empty document is the default state: every default of the reader is a default of the service. */
  lemma EmptyDocumentIsDefault()
    ensures ListsSettings([], map[]) && FromDict(map[], []) == Ok(DefaultState())
  {
    hide Valid, DefaultProfiles, ProfileFrom, MappingFrom, CurveFrom;
    DefaultValid();
    EachRoundTrip<Profile>(map[], map[], ProfileFrom);
    EachRoundTrip<Mapping>(map[], map[], MappingFrom);
    EachRoundTrip<string>(map[], map[], CurveFrom);
    assert DefaultProfiles() + map[] == DefaultProfiles();
  }

  /** A top-level key the schema does not know changes nothing. */
  lemma UnknownKeyIgnored(data: Fields, order: seq<string>, key: string, t: Tree)
    requires ListsSettings(order, data)
    requires key !in ["schema_version", "battery", "power", "fan", "gestures", "touchpad", "gpu"]
    ensures ListsSettings(order, data[key := t]) && FromDict(data[key := t], order) == FromDict(data, order)
  {
    hide BatteryFrom, PowerFrom, FanFrom, GesturesFrom, SettingsFrom, Valid, Lists, TableAt, IntAt, BoolAt;
    assert forall k <- ["schema_version", "battery", "power", "fan", "gestures", "touchpad", "gpu"] :: key != k;
    SameLookups(data, key, t, "schema_version");
    SameLookups(data, key, t, "battery");
    SameLookups(data, key, t, "power");
    SameLookups(data, key, t, "fan");
    SameLookups(data, key, t, "gestures");
    SameLookups(data, key, t, "touchpad");
    SameLookups(data, key, t, "gpu");
  }

  /** The keys a section of the document knows. */
  function SectionKeys(section: string): (r: set<string>) {
    match section
    case "battery" => {"end_threshold", "start_threshold", "mode"}
    case "power" => {"profile", "auto_switch", "profiles"}
    case "fan" => {"mode", "curves"}
    case "gestures" => {"mappings", "daemon_enabled"}
    case "touchpad" => {"settings"}
    case "gpu" => {"mitigation_enabled"}
    case _ => {}
  }

  lemma SameString(d: Fields, key: string, t: Tree, k: string, default: string)
    requires key != k
    ensures StrAt(d[key := t], k, default) == StrAt(d, k, default)
  {}

  lemma SameNumber(d: Fields, key: string, t: Tree, k: string, default: int)
    requires key != k
    ensures IntAt(d[key := t], k, default) == IntAt(d, k, default)
  {}

  lemma SameFlag(d: Fields, key: string, t: Tree, k: string, default: bool)
    requires key != k
    ensures BoolAt(d[key := t], k, default) == BoolAt(d, k, default)
  {}

  /** Reading a section does not look at keys it does not know. */
  lemma SectionIgnores(d: Fields, key: string, t: Tree)
    ensures key !in SectionKeys("battery") ==> BatteryFrom(d[key := t]) == BatteryFrom(d)
    ensures key !in SectionKeys("power") ==> PowerFrom(d[key := t]) == PowerFrom(d)
    ensures key !in SectionKeys("fan") ==> FanFrom(d[key := t]) == FanFrom(d)
    ensures key !in SectionKeys("gestures") ==> GesturesFrom(d[key := t]) == GesturesFrom(d)
    ensures key !in SectionKeys("touchpad") ==> TableAt(d[key := t], "settings") == TableAt(d, "settings")
    ensures key !in SectionKeys("gpu") ==>
            BoolAt(d[key := t], "mitigation_enabled", false) == BoolAt(d, "mitigation_enabled", false)
  {
    hide StrAt, IntAt, BoolAt, TableAt, Each, ProfileFrom, AutoFrom, DefaultProfiles, CurveFrom, MappingFrom;
    if key !in SectionKeys("battery") {
      SameNumber(d, key, t, "end_threshold", 90);
      SameNumber(d, key, t, "start_threshold", 85);
      SameString(d, key, t, "mode", "home");
    }
    if key !in SectionKeys("power") {
      SameString(d, key, t, "profile", "balanced");
      SameLookups(d, key, t, "auto_switch");
      SameLookups(d, key, t, "profiles");
    }
    if key !in SectionKeys("fan") {
      SameString(d, key, t, "mode", "stock");
      SameLookups(d, key, t, "curves");
    }
    if key !in SectionKeys("gestures") {
      SameLookups(d, key, t, "mappings");
      SameFlag(d, key, t, "daemon_enabled", false);
    }
    if key !in SectionKeys("touchpad") { SameLookups(d, key, t, "settings"); }
    if key !in SectionKeys("gpu") { SameFlag(d, key, t, "mitigation_enabled", false); }
  }

  predicate SectionName(section: string) {
    section in ["battery", "power", "fan", "gestures", "touchpad", "gpu"]
  }

  /** One section of two documents reads alike. */
  predicate Alike<T(==)>(a: Option<Fields>, b: Option<Fields>, read: Fields -> T) {
    (a.Some? <==> b.Some?) && (a.Some? ==> read(a.value) == read(b.value))
  }

  predicate AlikeEverywhere(a: Fields, b: Fields) {
    && IntAt(a, "schema_version", 1) == IntAt(b, "schema_version", 1)
    && Alike(TableAt(a, "battery"), TableAt(b, "battery"), BatteryFrom)
    && Alike(TableAt(a, "power"), TableAt(b, "power"), PowerFrom)
    && Alike(TableAt(a, "fan"), TableAt(b, "fan"), FanFrom)
    && Alike(TableAt(a, "gestures"), TableAt(b, "gestures"), GesturesFrom)
    && TouchpadTable(a) == TouchpadTable(b)
    && Alike(TableAt(a, "gpu"), TableAt(b, "gpu"), (d: Fields) => BoolAt(d, "mitigation_enabled", false))
  }

  lemma AlikeReadsAlike(a: Fields, b: Fields, order: seq<string>)
    requires ListsSettings(order, a) && AlikeEverywhere(a, b)
    ensures ListsSettings(order, b) && FromDict(a, order) == FromDict(b, order)
  {
    hide BatteryFrom, PowerFrom, FanFrom, GesturesFrom, SettingsFrom, Valid, Lists, BoolAt, IntAt, TableAt,
        TouchpadTable;
  }

  /** A key that a section does not know changes nothing either. */
  lemma UnknownSectionKeyIgnored(data: Fields, order: seq<string>, section: string, fields: Fields, key: string,
      t: Tree)
    requires ListsSettings(order, data) && SectionName(section) && key !in SectionKeys(section)
    requires TableAt(data, section) == Some(fields)
    ensures var edited := data[section := Dict(fields[key := t])];
            ListsSettings(order, edited) && FromDict(edited, order) == FromDict(data, order)
  {
    hide BatteryFrom, PowerFrom, FanFrom, GesturesFrom, FromDict, ListsSettings, BoolAt, IntAt, SectionKeys, TableAt;
    var edited := data[section := Dict(fields[key := t])];
    SectionIgnores(fields, key, t);
    TableOf(data, section, fields[key := t]);
    OtherSections(data, section, fields[key := t]);
    assert AlikeEverywhere(data, edited);
    AlikeReadsAlike(data, edited, order);
  }

  lemma TableOf(data: Fields, section: string, fields: Fields)
    ensures TableAt(data[section := Dict(fields)], section) == Some(fields)
  {}

  lemma OtherSections(data: Fields, section: string, fields: Fields)
    requires SectionName(section)
    ensures forall k :: k != section ==> TableAt(data[section := Dict(fields)], k) == TableAt(data, k)
    ensures IntAt(data[section := Dict(fields)], "schema_version", 1) == IntAt(data, "schema_version", 1)
  {
    assert |"schema_version"| == 14 && |section| <= 8;
  }

  lemma SameLookups(data: Fields, key: string, t: Tree, k: string)
    requires key != k
    ensures TableAt(data[key := t], k) == TableAt(data, k)
    ensures IntAt(data[key := t], k, 1) == IntAt(data, k, 1)
  {}
}
