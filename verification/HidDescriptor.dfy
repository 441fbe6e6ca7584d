/** The HID report-descriptor reader of the touchpad transport: items as in sections 6.2.2.2 to
6.2.2.8 of the USB Device Class Definition for HID 1.11, a global stack, a collection stack and
per-report bit totals for the vendor collection. */
module HidDescriptor {
  import opened Wrappers

  type byte = x: int | 0 <= x < 256

  datatype HidError = TruncatedLongItem | TruncatedLongPayload | TruncatedShortPayload | PopWithoutPush

  // -- Items -----------------------------------------------------------------------------

  datatype Item =
    | Short(kind: int, tag: int, payload: seq<byte>)
    | Long(longTag: byte, data: seq<byte>)

  const LONG_PREFIX: byte := 0xFE

  function PayloadSize(code: int): (size: nat)
    requires 0 <= code < 4
    ensures SizeCode(size) == code && size in {0, 1, 2, 4}
  {
    if code == 3 then 4 else code
  }

  function SizeCode(size: int): int {
    if size == 4 then 3 else size
  }

  /** An item that some byte string encodes: the prefix of a short item is not the long marker. */
  predicate WellFormed(item: Item) {
    match item
    case Short(kind, tag, payload) =>
      && 0 <= kind < 4 && 0 <= tag < 16 && |payload| in {0, 1, 2, 4}
      && !(kind == 3 && tag == 15 && |payload| == 2)
    case Long(_, data) => |data| < 256
  }

  predicate AllWellFormed(items: seq<Item>) {
    forall i | 0 <= i < |items| :: WellFormed(items[i])
  }

  function Encode(item: Item): seq<byte>
    requires WellFormed(item)
  {
    match item
    case Short(kind, tag, payload) => [tag * 16 + kind * 4 + SizeCode(|payload|)] + payload
    case Long(tag, data) => [LONG_PREFIX, |data|, tag] + data
  }

  function EncodeAll(items: seq<Item>): seq<byte>
    requires AllWellFormed(items)
  {
    if items == [] then [] else Encode(items[0]) + EncodeAll(items[1..])
  }

  /** The first item of the rest of a descriptor, and how many bytes it takes. */
  function NextItem(rest: seq<byte>): Result<(Item, nat), HidError>
    requires rest != []
  {
    if rest[0] == LONG_PREFIX then
      if |rest| < 3 then Err(TruncatedLongItem)
      else
        var size: int := rest[1];
        if |rest| < 3 + size then Err(TruncatedLongPayload)
        else Ok((Long(rest[2], rest[3..3 + size]), 3 + size))
    else
      var size := PayloadSize(rest[0] % 4);
      if |rest| < 1 + size then Err(TruncatedShortPayload)
      else Ok((Short(rest[0] / 4 % 4, rest[0] / 16, rest[1..1 + size]), 1 + size))
  }

  /** The items before the end or before the first truncated item. */
  datatype Tokens = Tokens(items: seq<Item>, tail: Option<HidError>)

  function Tokenise(rest: seq<byte>): Tokens {
    if rest == [] then Tokens([], None)
    else
      match NextItem(rest)
      case Err(e) => Tokens([], Some(e))
      case Ok((item, size)) =>
        var tokens := Tokenise(rest[size..]);
        Tokens([item] + tokens.items, tokens.tail)
  }

  // -- The item state machine --------------------------------------------------------------

  datatype Globals = Globals(usagePage: nat, reportSize: nat, reportId: nat, reportCount: nat)

  datatype Collection = Collection(usagePage: nat, usage: nat, value: nat)

  const VENDOR := Collection(0xFF00, 0x0001, 0x01)

  datatype Machine = Machine(
    globals: Globals,
    stack: seq<Globals>,
    collections: seq<Collection>,
    usages: seq<nat>,
    inputs: map<nat, nat>,
    outputs: map<nat, nat>,
    found: bool)

  const START := Machine(Globals(0, 0, 0, 0), [], [], [], map[], map[], false)

  /** Little-endian, unsigned. */
  function ItemValue(payload: seq<byte>): nat {
    if payload == [] then 0 else payload[0] + 256 * ItemValue(payload[1..])
  }

  function Bits(totals: map<nat, nat>, id: nat): nat {
    if id in totals then totals[id] else 0
  }

  function LastUsage(usages: seq<nat>): nat {
    if usages == [] then 0 else usages[|usages| - 1]
  }

  function SetGlobal(g: Globals, tag: int, value: nat): Globals {
    if tag == 0x0 then g.(usagePage := value)
    else if tag == 0x7 then g.(reportSize := value)
    else if tag == 0x8 then g.(reportId := value)
    else if tag == 0x9 then g.(reportCount := value)
    else g
  }

  function ApplyGlobal(m: Machine, tag: int, value: nat): Result<Machine, HidError> {
    if tag == 0xA then Ok(m.(stack := m.stack + [m.globals]))
    else if tag == 0xB then
      if m.stack == [] then Err(PopWithoutPush)
      else Ok(m.(globals := m.stack[|m.stack| - 1], stack := m.stack[..|m.stack| - 1]))
    else Ok(m.(globals := SetGlobal(m.globals, tag, value)))
  }

  function ApplyMain(m: Machine, tag: int, value: nat): Machine {
    var id := m.globals.reportId;
    var bits := m.globals.reportSize * m.globals.reportCount;
    var n :=
      if tag == 0xA then
        var begun := Collection(m.globals.usagePage, LastUsage(m.usages), value);
        m.(collections := m.collections + [begun], found := m.found || begun == VENDOR)
      else if tag == 0xC then
        if m.collections == [] then m else m.(collections := m.collections[..|m.collections| - 1])
      else if tag == 0x8 && VENDOR in m.collections then
        m.(inputs := m.inputs[id := Bits(m.inputs, id) + bits])
      else if tag == 0x9 && VENDOR in m.collections then
        m.(outputs := m.outputs[id := Bits(m.outputs, id) + bits])
      else m;
    n.(usages := [])
  }

  function ApplyItem(m: Machine, item: Item): Result<Machine, HidError> {
    if item.Long? || item.kind == 3 then Ok(m)
    else
      var value := ItemValue(item.payload);
      if item.kind == 1 then ApplyGlobal(m, item.tag, value)
      else if item.kind == 2 then
        Ok(if item.tag == 0x0 then m.(usages := m.usages + [value]) else m)
      else if item.kind == 0 then Ok(ApplyMain(m, item.tag, value))
      else Ok(m)
  }

  function Fold(m: Machine, items: seq<Item>): Result<Machine, HidError>
    decreases |items|
  {
    if items == [] then Ok(m)
    else
      match ApplyItem(m, items[0])
      case Err(e) => Err(e)
      case Ok(n) => Fold(n, items[1..])
  }

  // -- What the caller gets ------------------------------------------------------------------

  const REPORT_ID := 0x0E
  const REPORT_BYTES := 9

  datatype VendorCaps = VendorCaps(found: bool, reportId: Option<nat>, inputBytes: nat, outputBytes: nat) {
    predicate InputCompatible() {
      found && reportId == Some(REPORT_ID) && inputBytes == REPORT_BYTES
    }

    predicate Writable() {
      InputCompatible() && outputBytes == REPORT_BYTES
    }
  }

  function ReportBytes(totals: map<nat, nat>, selected: Option<nat>): nat {
    if selected.None? || selected.value !in totals then 0
    else (totals[selected.value] + 7) / 8 + (if selected.value != 0 then 1 else 0)
  }

  /** The touchpad's report if it is there, else the only report there is. */
  ghost function SelectReport(ids: set<nat>): Option<nat> {
    if REPORT_ID in ids then Some(REPORT_ID)
    else if exists id: nat :: ids == {id} then (var id: nat :| ids == {id}; Some(id))
    else None
  }

  ghost function Caps(m: Machine): VendorCaps {
    var id := SelectReport(m.inputs.Keys + m.outputs.Keys);
    VendorCaps(m.found, id, ReportBytes(m.inputs, id), ReportBytes(m.outputs, id))
  }

  /** Tokenise, then fold: an error of the fold comes before the truncation behind it. */
  ghost function ParseFrom(m: Machine, rest: seq<byte>): Result<VendorCaps, HidError> {
    var tokens := Tokenise(rest);
    match Fold(m, tokens.items)
    case Err(e) => Err(e)
    case Ok(n) => if tokens.tail.Some? then Err(tokens.tail.value) else Ok(Caps(n))
  }

  ghost function Parse(descriptor: seq<byte>): Result<VendorCaps, HidError> {
    ParseFrom(START, descriptor)
  }

  // -- The reader itself -----------------------------------------------------------------------

  method PayloadValue(payload: seq<byte>) returns (value: nat)
    ensures value == ItemValue(payload)
  {
    value := 0;
    var i := |payload|;
    while i > 0
      invariant 0 <= i <= |payload|
      invariant value == ItemValue(payload[i..])
    {
      i := i - 1;
      assert payload[i..][1..] == payload[i + 1..];
      value := payload[i] + 256 * value;
    }
  }

  lemma ParseStep(m: Machine, rest: seq<byte>)
    requires rest != [] && NextItem(rest).Ok?
    ensures var (item, size) := NextItem(rest).value;
            ParseFrom(m, rest) == match ApplyItem(m, item)
                                  case Err(e) => Err(e)
                                  case Ok(n) => ParseFrom(n, rest[size..])
  {
    var (item, size) := NextItem(rest).value;
    assert Tokenise(rest).items[1..] == Tokenise(rest[size..]).items;
  }

  lemma ParseEnds(m: Machine)
    ensures ParseFrom(m, []) == Ok(Caps(m))
  {
  }

  lemma ParseTruncated(m: Machine, rest: seq<byte>)
    requires rest != [] && NextItem(rest).Err?
    ensures ParseFrom(m, rest) == Err(NextItem(rest).error)
  {
  }

  /** A long item at the reader's position is passed over. */
  lemma ParseLongAt(m: Machine, descriptor: seq<byte>, position: nat)
    requires position < |descriptor| && descriptor[position] == LONG_PREFIX
    ensures var here := ParseFrom(m, descriptor[position..]);
            var left := |descriptor| - position - 1;
            if left < 2 then here == Err(TruncatedLongItem)
            else
              var size: int := descriptor[position + 1];
              if left < 2 + size then here == Err(TruncatedLongPayload)
              else here == ParseFrom(m, descriptor[position + 3 + size..])
  {
    hide ParseFrom;
    var rest := descriptor[position..];
    if NextItem(rest).Ok? {
      var size := NextItem(rest).value.1;
      ParseStep(m, rest);
      assert rest[size..] == descriptor[position + size..];
    } else {
      ParseTruncated(m, rest);
    }
  }

  /** A short item at the reader's position is applied. */
  lemma ParseShortAt(m: Machine, descriptor: seq<byte>, position: nat)
    requires position < |descriptor| && descriptor[position] != LONG_PREFIX
    ensures var here := ParseFrom(m, descriptor[position..]);
            var prefix := descriptor[position];
            var size := PayloadSize(prefix % 4);
            if |descriptor| - position - 1 < size then here == Err(TruncatedShortPayload)
            else
              var payload := descriptor[position + 1..position + 1 + size];
              here == match ApplyItem(m, Short(prefix / 4 % 4, prefix / 16, payload))
                      case Err(e) => Err(e)
                      case Ok(n) => ParseFrom(n, descriptor[position + 1 + size..])
  {
    hide ParseFrom, ApplyItem, PayloadSize;
    var rest := descriptor[position..];
    if NextItem(rest).Ok? {
      var (item, size) := NextItem(rest).value;
      ParseStep(m, rest);
      assert rest[size..] == descriptor[position + size..];
      assert item.payload == descriptor[position + 1..position + size];
    } else {
      ParseTruncated(m, rest);
    }
  }

  method SelectReportId(inputs: map<nat, nat>, outputs: map<nat, nat>) returns (selected: Option<nat>)
    ensures selected == SelectReport(inputs.Keys + outputs.Keys)
  {
    var ids := inputs.Keys + outputs.Keys;
    selected := None;
    if REPORT_ID in ids {
      selected := Some(REPORT_ID);
    } else if |ids| == 1 {
      var id :| id in ids;
      OnlyMember(ids, id);
      selected := Some(id);
    } else {
      assert forall id: nat :: ids == {id} ==> |ids| == 1;
    }
  }

  /** Collection, End Collection, Input and Output. */
  method MainItem(tag: int, value: nat, globals: Globals, ghost stack: seq<Globals>, collections: seq<Collection>,
                  usages: seq<nat>, inputs: map<nat, nat>, outputs: map<nat, nat>, found: bool)
    returns (collections': seq<Collection>, inputs': map<nat, nat>, outputs': map<nat, nat>, found': bool)
    ensures Machine(globals, stack, collections', [], inputs', outputs', found') ==
            ApplyMain(Machine(globals, stack, collections, usages, inputs, outputs, found), tag, value)
  {
    collections', inputs', outputs', found' := collections, inputs, outputs, found;
    if tag == 0xA {
      var usage := if usages != [] then usages[|usages| - 1] else 0;
      collections' := collections + [Collection(globals.usagePage, usage, value)];
      if collections'[|collections|] == VENDOR {
        found' := true;
      }
    } else if tag == 0xC {
      if collections != [] {
        collections' := collections[..|collections| - 1];
      }
    } else if tag in {0x8, 0x9} && VENDOR in collections {
      var id := globals.reportId;
      var bits := globals.reportSize * globals.reportCount;
      if tag == 0x8 {
        inputs' := inputs[id := (if id in inputs then inputs[id] else 0) + bits];
      } else {
        outputs' := outputs[id := (if id in outputs then outputs[id] else 0) + bits];
      }
    }
  }

  /** `parse_vendor_collection_descriptor`: the loop over positions, with the machine's parts as
      variables. */
  method ParseDescriptor(descriptor: seq<byte>) returns (r: Result<VendorCaps, HidError>)
    ensures r == Parse(descriptor)
  {
    hide ParseFrom, ItemValue, PayloadSize, ApplyMain, SetGlobal;
    var globals := Globals(0, 0, 0, 0);
    var stack: seq<Globals> := [];
    var collections: seq<Collection> := [];
    var usages: seq<nat> := [];
    var inputs: map<nat, nat> := map[];
    var outputs: map<nat, nat> := map[];
    var found := false;
    var position := 0;
    assert descriptor[0..] == descriptor;
    while position < |descriptor|
      invariant 0 <= position <= |descriptor|
      invariant ParseFrom(Machine(globals, stack, collections, usages, inputs, outputs, found), descriptor[position..])
                == Parse(descriptor)
    {
      ghost var m := Machine(globals, stack, collections, usages, inputs, outputs, found);
      ghost var at := position;
      var prefix := descriptor[position];
      position := position + 1;
      if prefix == LONG_PREFIX {
        ParseLongAt(m, descriptor, at);
        if position + 2 > |descriptor| {
          return Err(TruncatedLongItem);
        }
        var size: int := descriptor[position];
        position := position + 2;
        if position + size > |descriptor| {
          return Err(TruncatedLongPayload);
        }
        position := position + size;
        continue;
      }
      ParseShortAt(m, descriptor, at);
      var size := PayloadSize(prefix % 4);
      if position + size > |descriptor| {
        return Err(TruncatedShortPayload);
      }
      var payload := descriptor[position..position + size];
      position := position + size;
      var kind := prefix / 4 % 4;
      var tag := prefix / 16;
      var value := PayloadValue(payload);

      if kind == 1 {
        if tag == 0xA {
          stack := stack + [globals];
        } else if tag == 0xB {
          if stack == [] {
            return Err(PopWithoutPush);
          }
          globals := stack[|stack| - 1];
          stack := stack[..|stack| - 1];
        } else {
          globals := SetGlobal(globals, tag, value);
        }
      } else if kind == 2 {
        if tag == 0x0 {
          usages := usages + [value];
        }
      } else if kind == 0 {
        collections, inputs, outputs, found :=
          MainItem(tag, value, globals, stack, collections, usages, inputs, outputs, found);
        usages := [];
      }
    }
    ParseEnds(Machine(globals, stack, collections, usages, inputs, outputs, found));
    assert descriptor[position..] == [];
    var selected := SelectReportId(inputs, outputs);
    r := Ok(VendorCaps(found, selected, ReportBytes(inputs, selected), ReportBytes(outputs, selected)));
  }

  lemma OnlyMember(ids: set<nat>, id: nat)
    requires id in ids && |ids| == 1
    ensures ids == {id}
  {
    assert |ids - {id}| == 0;
  }
}
