/**
 * The touchpad's public settings: names and aliases, accepted values, and the
 * nine-byte firmware reports each one is written as.
 */
module TouchpadSettings {
  import opened Wrappers
  import opened TomlPrinter
  import Text = FanCurveText

  datatype Setting =
    | Sensitivity | VibrationIntensity | PressText | PressPicture
    | ThreeFingerDrag | MouseLikeMode | EdgeBrightness | EdgeVolume
    | EdgeControlCenter | EdgeCloseOrMinimize | KnuckleScreenshot | KnuckleScreenRecord

  /** Declaration order, which is also the order of writing. */
  const ALL_SETTINGS: seq<Setting> :=
    [ Sensitivity, VibrationIntensity, PressText, PressPicture,
      ThreeFingerDrag, MouseLikeMode, EdgeBrightness, EdgeVolume,
      EdgeControlCenter, EdgeCloseOrMinimize, KnuckleScreenshot, KnuckleScreenRecord ]

  /** Position of a setting in the declaration order. */
  function Rank(s: Setting): (r: nat)
    ensures r < |ALL_SETTINGS| && ALL_SETTINGS[r] == s
  {
    match s
    case Sensitivity => 0 case VibrationIntensity => 1 case PressText => 2 case PressPicture => 3
    case ThreeFingerDrag => 4 case MouseLikeMode => 5 case EdgeBrightness => 6 case EdgeVolume => 7
    case EdgeControlCenter => 8 case EdgeCloseOrMinimize => 9
    case KnuckleScreenshot => 10 case KnuckleScreenRecord => 11
  }

  function Name(s: Setting): (r: string) {
    match s
    case Sensitivity => "sensitivity"
    case VibrationIntensity => "vibration_intensity"
    case PressText => "press_text"
    case PressPicture => "press_picture"
    case ThreeFingerDrag => "three_finger_drag"
    case MouseLikeMode => "mouse_like_mode"
    case EdgeBrightness => "edge_brightness"
    case EdgeVolume => "edge_volume"
    case EdgeControlCenter => "edge_control_center"
    case EdgeCloseOrMinimize => "edge_close_or_minimize"
    case KnuckleScreenshot => "knuckle_screenshot"
    case KnuckleScreenRecord => "knuckle_screen_record"
  }

  // ------------------------------------------------------------------------ text

  function LowerChar(c: char): (r: char) {
    if 'A' <= c <= 'Z' then (c as int + 32) as char else c
  }

  /** Lower case, for ASCII letters. */
  function Lower(s: string): (r: string)
    ensures |r| == |s|
  {
    seq(|s|, i requires 0 <= i < |s| => LowerChar(s[i]))
  }

  function Underscored(s: string): (r: string)
    ensures |r| == |s|
  {
    seq(|s|, i requires 0 <= i < |s| => if s[i] == '-' then '_' else s[i])
  }

  /** Text that lower-casing, underscoring and stripping leave alone. */
  predicate Plain(s: string) {
    s != "" && forall i :: 0 <= i < |s| ==> 'a' <= s[i] <= 'z' || s[i] == '_'
  }

  lemma PlainStays(s: string)
    requires Plain(s)
    ensures Underscored(Lower(Text.Strip(s))) == s
  {
    assert Text.StripLeft(s) == s;
    assert Text.StripRight(s) == s;
    assert Lower(s) == s;
    assert Underscored(s) == s;
  }

  // ----------------------------------------------------------------------- names

  function Exactly(n: string): (r: Option<Setting>)
    ensures r.Some? ==> Name(r.value) == n
  {
    match n
    case "sensitivity" => Some(Sensitivity)
    case "vibration_intensity" => Some(VibrationIntensity)
    case "press_text" => Some(PressText)
    case "press_picture" => Some(PressPicture)
    case "three_finger_drag" => Some(ThreeFingerDrag)
    case "mouse_like_mode" => Some(MouseLikeMode)
    case "edge_brightness" => Some(EdgeBrightness)
    case "edge_volume" => Some(EdgeVolume)
    case "edge_control_center" => Some(EdgeControlCenter)
    case "edge_close_or_minimize" => Some(EdgeCloseOrMinimize)
    case "knuckle_screenshot" => Some(KnuckleScreenshot)
    case "knuckle_screen_record" => Some(KnuckleScreenRecord)
    case _ => None
  }

  function Alias(n: string): (r: Option<Setting>) {
    match n
    case "shock" => Some(VibrationIntensity)
    case "sensitivity_press_text" => Some(PressText)
    case "sensitivity_press_picture" => Some(PressPicture)
    case "edge_gesture_adjus_brightness" => Some(EdgeBrightness)
    case "edge_gesture_adjus_volume" => Some(EdgeVolume)
    case "edge_gesture_open_hi_center" => Some(EdgeControlCenter)
    case "edge_gesture_cloes_or_min_wnd" => Some(EdgeCloseOrMinimize)
    case "knuckle_screen_shot" => Some(KnuckleScreenshot)
    case "knuckle_record_screen" => Some(KnuckleScreenRecord)
    case _ => None
  }

  function ParseSetting(text: string): (r: Option<Setting>) {
    var n := Underscored(Lower(Text.Strip(text)));
    if Exactly(n).Some? then Exactly(n) else Alias(n)
  }

  lemma PlainNames1()
    ensures Plain("sensitivity") && Plain("vibration_intensity") && Plain("press_text")
  {}

  lemma PlainNames2()
    ensures Plain("press_picture") && Plain("three_finger_drag") && Plain("mouse_like_mode")
  {}

  lemma PlainNames3()
    ensures Plain("edge_brightness") && Plain("edge_volume") && Plain("edge_control_center")
  {}

  lemma PlainNames4()
    ensures Plain("edge_close_or_minimize") && Plain("knuckle_screenshot") && Plain("knuckle_screen_record")
  {}

  lemma NameIsPlain(s: Setting)
    ensures Plain(Name(s))
  {
    hide Plain;
    PlainNames1();
    PlainNames2();
    PlainNames3();
    PlainNames4();
  }

  lemma ExactlyName(s: Setting)
    ensures Exactly(Name(s)) == Some(s)
  {
    match s {
      case Sensitivity => case VibrationIntensity => case PressText => case PressPicture =>
      case ThreeFingerDrag => case MouseLikeMode => case EdgeBrightness => case EdgeVolume =>
      case EdgeControlCenter => case EdgeCloseOrMinimize => case KnuckleScreenshot => case KnuckleScreenRecord =>
    }
  }

  /** Every public name is read as its own setting, so no two settings share a name. */
  lemma NameParses(s: Setting)
    ensures ParseSetting(Name(s)) == Some(s)
  {
    hide Name, Exactly, Alias, Plain, Text.Strip, Lower, Underscored;
    NameIsPlain(s);
    PlainStays(Name(s));
    ExactlyName(s);
  }

  // ---------------------------------------------------------------------- values

  function Maximum(s: Setting): (r: nat) { if s.VibrationIntensity? then 2 else 1 }

  function Labels(s: Setting): (r: seq<string>) {
    match s
    case Sensitivity => ["low", "high"]
    case VibrationIntensity => ["low", "medium", "high"]
    case _ => []
  }

  function DigitIn(c: char, base: nat): (r: Option<nat>) {
    if '0' <= c <= '9' && c as int - '0' as int < base then Some(c as int - '0' as int)
    else if 'a' <= c <= 'f' && base == 16 then Some(c as int - 'a' as int + 10)
    else None
  }

  /** Digits with single underscores between them; `started` says whether an underscore may come first. */
  function Digits(s: string, base: nat, started: bool, value: nat): (r: Option<nat>) {
    if s == "" then if started then Some(value) else None
    else if s[0] == '_' then
      if started && |s| > 1 && DigitIn(s[1], base).Some? then
        Digits(s[2..], base, true, value * base + DigitIn(s[1], base).value)
      else None
    else
      match DigitIn(s[0], base)
      case None => None
      case Some(d) => Digits(s[1..], base, true, value * base + d)
  }

  function Prefixed(s: string): (r: Option<nat>) {
    if |s| >= 3 && s[0] == '0' && s[1] in "xob" then
      var base := if s[1] == 'x' then 16 else if s[1] == 'o' then 8 else 2;
      if s[2] == '_' then Digits(s[3..], base, false, 0) else Digits(s[2..], base, false, 0)
    else
      var v := Digits(s, 10, false, 0);
      // A decimal literal other than zero has no leading zero.
      if v.Some? && v.value != 0 && s[0] == '0' then None else v
  }

  /** Python's int(text, 0) on stripped, lower-case ASCII text. */
  function IntLiteral(s: string): (r: Option<int>) {
    var signed := s != "" && s[0] in "+-";
    match Prefixed(if signed then s[1..] else s)
    case None => None
    case Some(v) => var n: int := v; Some(if signed && s[0] == '-' then -n else n)
  }

  function LabelIndex(labels: seq<string>, text: string): (r: Option<nat>)
    ensures r.Some? ==> r.value < |labels| && labels[r.value] == text
    ensures r.None? ==> text !in labels
  {
    if labels == [] then None
    else if labels[|labels|-1] == text then Some(|labels| - 1)
    else LabelIndex(labels[..|labels|-1], text)
  }

  function NamedValue(s: Setting, text: string): (r: Option<int>) {
    var index := LabelIndex(Labels(s), text);
    if index.Some? then Some(index.value)
    else if Maximum(s) == 1 && text in ["off", "false", "disabled"] then Some(0)
    else if Maximum(s) == 1 && text in ["on", "true", "enabled"] then Some(1)
    else None
  }

  function Unchecked(s: Setting, value: Scalar): (r: Option<int>) {
    match value
    case Bool(flag) => if Maximum(s) > 1 then None else Some(if flag then 1 else 0)
    case Int(number) => Some(number)
    case Str(text) =>
      var t := Lower(Text.Strip(text));
      if NamedValue(s, t).Some? then NamedValue(s, t) else IntLiteral(t)
  }

  /** The firmware byte of a value; nothing when it is not understood or out of range. */
  function ParseValue(s: Setting, value: Scalar): (r: Option<int>)
    ensures r.Some? ==> 0 <= r.value <= Maximum(s)
    ensures value.Int? && 0 <= value.number <= Maximum(s) ==> r == Some(value.number)
  {
    var parsed := Unchecked(s, value);
    if parsed.Some? && 0 <= parsed.value <= Maximum(s) then parsed else None
  }

  /** A value in range can also be given as its decimal text, and a labelled value by its label. */
  lemma TextValueParses(s: Setting, v: nat)
    requires v <= Maximum(s)
    ensures ParseValue(s, Str(Text.Decimal(v))) == Some(v)
    ensures Labels(s) != [] ==> v < |Labels(s)| && ParseValue(s, Str(Labels(s)[v])) == Some(v)
  {
    var digit := [Text.Digit(v)];
    assert Text.Decimal(v) == digit;
    assert Text.StripLeft(digit) == digit && Text.Strip(digit) == digit && Lower(digit) == digit;
    assert digit[1..] == "";
    assert Digits("", 10, true, v) == Some(v);
    assert Digits(digit, 10, false, 0) == Some(v);
    assert IntLiteral(digit) == Some(v);
    DigitIsNoLabel(s, digit);
    if Labels(s) != [] { LabelReads(s, v); }
  }

  lemma DigitIsNoLabel(s: Setting, text: string)
    requires |text| == 1
    ensures NamedValue(s, text).None?
  {}

  lemma LabelReads(s: Setting, v: nat)
    requires v < |Labels(s)|
    ensures Unchecked(s, Str(Labels(s)[v])) == Some(v)
  {
    hide Labels, Lower, Text.Strip, LabelIndex;
    LabelsDiffer(s);
    LabelFound(Labels(s), v);
  }

  lemma LabelsDiffer(s: Setting)
    ensures forall i, j :: 0 <= i < j < |Labels(s)| ==> Labels(s)[i] != Labels(s)[j]
    ensures forall i :: 0 <= i < |Labels(s)| ==> Lower(Text.Strip(Labels(s)[i])) == Labels(s)[i]
  {
    assert |"low"| == 3 && |"high"| == 4 && |"medium"| == 6;
    PlainLowers("low");
    PlainLowers("medium");
    PlainLowers("high");
  }

  lemma PlainLowers(t: string)
    requires Plain(t)
    ensures Lower(Text.Strip(t)) == t
  {
    assert Text.StripLeft(t) == t && Text.StripRight(t) == t;
    assert Lower(t) == t;
  }

  lemma {:induction false} LabelFound(labels: seq<string>, v: nat)
    requires v < |labels| && forall i, j :: 0 <= i < j < |labels| ==> labels[i] != labels[j]
    ensures LabelIndex(labels, labels[v]) == Some(v)
  {
    if v < |labels| - 1 { LabelFound(labels[..|labels|-1], v); }
  }

  // --------------------------------------------------------------------- reports

  type Report = seq<int>

  function MakeReport(command: int, value: int): (r: Report) {
    [0x0E, command, value, 0, 0, 0, 0, 0, 0]
  }

  function Commands(s: Setting): (r: seq<int>) {
    if s.ThreeFingerDrag? then [0x05, 0x11] else [Rank(s) + 1]
  }

  function Encode(s: Setting, value: int): (r: seq<Report>)
    ensures |r| == |Commands(s)| > 0
    ensures forall i :: 0 <= i < |r| ==> r[i] == MakeReport(Commands(s)[i], value)
  {
    seq(|Commands(s)|, i requires 0 <= i < |Commands(s)| => MakeReport(Commands(s)[i], value))
  }

  /** A report belongs to one setting and one value: batches can be read back unambiguously. */
  lemma ReportsIdentify(s: Setting, v: int, t: Setting, w: int, report: Report)
    requires report in Encode(s, v) && report in Encode(t, w)
    ensures s == t && v == w
  {
    var i :| 0 <= i < |Encode(s, v)| && Encode(s, v)[i] == report;
    var j :| 0 <= j < |Encode(t, w)| && Encode(t, w)[j] == report;
    assert report[1] == Commands(s)[i] == Commands(t)[j];
    assert report[2] == v == w;
    assert ALL_SETTINGS[Rank(s)] == s && ALL_SETTINGS[Rank(t)] == t;
  }

  // ----------------------------------------------------------------- the protocol

  /** The report bytes of every setting: report 0x0E, the command and the value; three-finger drag is
      followed by its companion. */
  lemma ReportTable(v: int)
    ensures Encode(Sensitivity, v) == [[0x0E, 0x01, v, 0, 0, 0, 0, 0, 0]]
    ensures Encode(VibrationIntensity, v) == [[0x0E, 0x02, v, 0, 0, 0, 0, 0, 0]]
    ensures Encode(PressText, v) == [[0x0E, 0x03, v, 0, 0, 0, 0, 0, 0]]
    ensures Encode(PressPicture, v) == [[0x0E, 0x04, v, 0, 0, 0, 0, 0, 0]]
    ensures Encode(ThreeFingerDrag, v) == [[0x0E, 0x05, v, 0, 0, 0, 0, 0, 0], [0x0E, 0x11, v, 0, 0, 0, 0, 0, 0]]
    ensures Encode(MouseLikeMode, v) == [[0x0E, 0x06, v, 0, 0, 0, 0, 0, 0]]
    ensures Encode(EdgeBrightness, v) == [[0x0E, 0x07, v, 0, 0, 0, 0, 0, 0]]
    ensures Encode(EdgeVolume, v) == [[0x0E, 0x08, v, 0, 0, 0, 0, 0, 0]]
    ensures Encode(EdgeControlCenter, v) == [[0x0E, 0x09, v, 0, 0, 0, 0, 0, 0]]
    ensures Encode(EdgeCloseOrMinimize, v) == [[0x0E, 0x0A, v, 0, 0, 0, 0, 0, 0]]
    ensures Encode(KnuckleScreenshot, v) == [[0x0E, 0x0B, v, 0, 0, 0, 0, 0, 0]]
    ensures Encode(KnuckleScreenRecord, v) == [[0x0E, 0x0C, v, 0, 0, 0, 0, 0, 0]]
  {
    assert Commands(ThreeFingerDrag)[1] == 0x11;
  }

  /** Truth values and the words for them, in any case and with spaces around: a setting of two values
      takes them as 1 and 0, vibration refuses them. */
  lemma SwitchWords(s: Setting, flag: bool, word: string)
    requires word in if flag then ["on", "true", "enabled"] else ["off", "false", "disabled"]
    ensures ParseValue(s, Bool(flag)) == (if s == VibrationIntensity then None else Some(if flag then 1 else 0))
    ensures forall text: string | Lower(Text.Strip(text)) == word ::
              ParseValue(s, Str(text)) == (if s == VibrationIntensity then None else Some(if flag then 1 else 0))
  {
    WordIsNoLabel(word);
    hide Lower, Text.Strip, LabelIndex, IntLiteral;
    if s == VibrationIntensity {
      WordIsNoNumber(word);
    }
  }

  lemma WordIsNoLabel(word: string)
    requires word in ["on", "true", "enabled", "off", "false", "disabled"]
    ensures word !in ["low", "high"] && word !in ["low", "medium", "high"]
  {
    assert word[0] in "oted" + "f";
    assert "low"[0] == 'l' && "high"[0] == 'h' && "medium"[0] == 'm';
  }

  lemma WordIsNoNumber(word: string)
    requires word in ["on", "true", "enabled", "off", "false", "disabled"]
    ensures IntLiteral(word).None?
  {
    assert word[0] in "oted" + "f";
    assert Digits(word, 10, false, 0).None?;
  }

  /** What the labels of the two graded settings mean. */
  lemma LabelTable()
    ensures ParseValue(Sensitivity, Str("low")) == Some(0) && ParseValue(Sensitivity, Str("high")) == Some(1)
    ensures ParseValue(VibrationIntensity, Str("low")) == Some(0)
    ensures ParseValue(VibrationIntensity, Str("medium")) == Some(1)
    ensures ParseValue(VibrationIntensity, Str("high")) == Some(2)
  {
    hide Text.Strip, Lower;
    LabelReads(Sensitivity, 0);
    LabelReads(Sensitivity, 1);
    LabelReads(VibrationIntensity, 0);
    LabelReads(VibrationIntensity, 1);
    LabelReads(VibrationIntensity, 2);
  }

  /** What a name stands for once it is stripped, lower-cased and underscored. */
  function Canonical(text: string): (r: string) {
    Underscored(Lower(Text.Strip(text)))
  }

  /** The registry names of the vendor's own software are understood as well. */
  lemma AliasTable(text: string)
    ensures Canonical(text) == "shock" ==> ParseSetting(text) == Some(VibrationIntensity)
    ensures Canonical(text) == "sensitivity_press_text" ==> ParseSetting(text) == Some(PressText)
    ensures Canonical(text) == "sensitivity_press_picture" ==> ParseSetting(text) == Some(PressPicture)
    ensures Canonical(text) == "edge_gesture_adjus_brightness" ==> ParseSetting(text) == Some(EdgeBrightness)
    ensures Canonical(text) == "edge_gesture_adjus_volume" ==> ParseSetting(text) == Some(EdgeVolume)
    ensures Canonical(text) == "edge_gesture_open_hi_center" ==> ParseSetting(text) == Some(EdgeControlCenter)
    ensures Canonical(text) == "edge_gesture_cloes_or_min_wnd" ==> ParseSetting(text) == Some(EdgeCloseOrMinimize)
    ensures Canonical(text) == "knuckle_screen_shot" ==> ParseSetting(text) == Some(KnuckleScreenshot)
    ensures Canonical(text) == "knuckle_record_screen" ==> ParseSetting(text) == Some(KnuckleScreenRecord)
  {
    hide Underscored, Lower, Text.Strip;
  }
}
