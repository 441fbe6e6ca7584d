/** A second reading of report descriptors, which keeps no state: what is in force at an item is looked
up by scanning back from it. The reader's stacks and totals agree with it on every descriptor. */
module HidScan {
  import opened Wrappers
  import opened HidDescriptor
  import opened HidMeaning

  // -- Values ------------------------------------------------------------------------------------

  function Place(i: nat): nat {
    if i == 0 then 1 else 256 * Place(i - 1)
  }

  /** The sum of payload[i] * 256^i. */
  function Little(payload: seq<byte>): nat {
    if payload == [] then 0
    else
      var n := |payload| - 1;
      Little(payload[..n]) + payload[n] * Place(n)
  }

  /** An item's value is its payload read with the least significant byte first. */
  lemma {:induction false} ValueByPlace(payload: seq<byte>)
    ensures ItemValue(payload) == Little(payload)
    decreases |payload|
  {
    if payload != [] {
      ValueByPlace(payload[1..]);
      LittleFirst(payload);
    }
  }

  lemma {:induction false} LittleFirst(payload: seq<byte>)
    requires payload != []
    ensures Little(payload) == payload[0] + 256 * Little(payload[1..])
    decreases |payload|
  {
    var n := |payload| - 1;
    if n == 0 {
      assert payload[..0] == [] && payload[1..] == [];
      assert payload[0] * Place(0) == payload[0];
    } else {
      LittleFirst(payload[..n]);
      assert payload[..n][1..] == payload[1..][..n - 1];
      var p, d: int := Place(n - 1), payload[n];
      assert d * (256 * p) == 256 * (d * p);
    }
  }

  // -- Looking back -------------------------------------------------------------------------------

  predicate IsGlobal(item: Item, tag: int) {
    item.Short? && item.kind == 1 && item.tag == tag
  }

  predicate IsMain(item: Item) {
    item.Short? && item.kind == 0
  }

  /** The value of the last global item with this tag that no pop has undone; `skip` pops are still to
      be matched with their pushes. */
  function InForce(items: seq<Item>, tag: int, skip: nat): nat {
    if items == [] then 0
    else
      var last, before := items[|items| - 1], items[..|items| - 1];
      if IsPop(last) then InForce(before, tag, skip + 1)
      else if skip > 0 then InForce(before, tag, if IsPush(last) then skip - 1 else skip)
      else if IsGlobal(last, tag) then Little(last.payload)
      else InForce(before, tag, 0)
  }

  function UsagePage(items: seq<Item>): nat { InForce(items, 0x0, 0) }
  function ReportSize(items: seq<Item>): nat { InForce(items, 0x7, 0) }
  function ReportId(items: seq<Item>): nat { InForce(items, 0x8, 0) }
  function ReportCount(items: seq<Item>): nat { InForce(items, 0x9, 0) }

  /** The last usage since the last main item, or 0. */
  function Usage(items: seq<Item>): nat {
    if items == [] then 0
    else
      var last := items[|items| - 1];
      if IsMain(last) then 0
      else if last.Short? && last.kind == 2 && last.tag == 0x0 then Little(last.payload)
      else Usage(items[..|items| - 1])
  }

  /** The item opens the application collection ff00:0001, after those before it. */
  predicate Opens(before: seq<Item>, item: Item) {
    IsBegin(item) && UsagePage(before) == 0xFF00 && Usage(before) == 0x0001 && Little(item.payload) == 0x01
  }

  /** Such a collection is open after these items; `skip` ends are still to be matched. */
  predicate Inside(items: seq<Item>, skip: nat) {
    items != [] &&
    var last, before := items[|items| - 1], items[..|items| - 1];
    if IsEnd(last) then Inside(before, skip + 1)
    else if !IsBegin(last) then Inside(before, skip)
    else if skip > 0 then Inside(before, skip - 1)
    else Opens(before, last) || Inside(before, 0)
  }

  predicate Found(items: seq<Item>) {
    exists i | 0 <= i < |items| :: Opens(items[..i], items[i])
  }

  /** A main item with this tag (0x8 for input, 0x9 for output) inside the collection. */
  predicate Counts(before: seq<Item>, item: Item, tag: int) {
    IsMain(item) && item.tag == tag && Inside(before, 0)
  }

  /** The bits that all such items add to each report. */
  function Totals(items: seq<Item>, tag: int): map<nat, nat> {
    if items == [] then map[]
    else
      var last, before := items[|items| - 1], items[..|items| - 1];
      var rest := Totals(before, tag);
      if !Counts(before, last, tag) then rest
      else
        var id, bits := ReportId(before), ReportSize(before) * ReportCount(before);
        rest[id := if id in rest then rest[id] + bits else bits]
  }

  // -- The reader agrees --------------------------------------------------------------------------

  /** These globals are in force when `skip` more pops follow. */
  predicate Holds(g: Globals, items: seq<Item>, skip: nat) {
    g == Globals(InForce(items, 0x0, skip), InForce(items, 0x7, skip), InForce(items, 0x8, skip),
                 InForce(items, 0x9, skip))
  }

  ghost predicate StackHolds(stack: seq<Globals>, items: seq<Item>) {
    forall i | 0 <= i < |stack| :: Holds(stack[i], items, |stack| - i)
  }

  predicate InsideOf(collections: seq<Collection>, skip: nat) {
    skip < |collections| && Collection(0xFF00, 0x0001, 0x01) in collections[..|collections| - skip]
  }

  ghost predicate CollectionsHold(collections: seq<Collection>, items: seq<Item>) {
    forall skip: nat :: InsideOf(collections, skip) <==> Inside(items, skip)
  }

  ghost predicate Agrees(m: Machine, items: seq<Item>) {
    && Holds(m.globals, items, 0) && StackHolds(m.stack, items)
    && LastUsage(m.usages) == Usage(items)
    && CollectionsHold(m.collections, items)
    && (m.found <==> Found(items))
    && m.inputs == Totals(items, 0x8) && m.outputs == Totals(items, 0x9)
  }

  lemma LastOf(items: seq<Item>, item: Item)
    ensures var longer := items + [item]; longer[|longer| - 1] == item && longer[..|longer| - 1] == items
  {
  }

  lemma SameGlobals(items: seq<Item>, item: Item, skip: nat)
    requires item.Long? || item.kind != 1
    ensures forall tag :: InForce(items + [item], tag, skip) == InForce(items, tag, skip)
  {
    LastOf(items, item);
  }

  lemma GlobalAgrees(m: Machine, items: seq<Item>, item: Item)
    requires item.Short? && item.kind == 1 && Holds(m.globals, items, 0) && StackHolds(m.stack, items)
    ensures match ApplyItem(m, item)
            case Err(_) => true
            case Ok(n) =>
              && Holds(n.globals, items + [item], 0) && StackHolds(n.stack, items + [item])
              && n == m.(globals := n.globals, stack := n.stack)
  {
    LastOf(items, item);
    ValueByPlace(item.payload);
    hide ItemValue, Little;
    if ApplyItem(m, item).Ok? {
      var n := ApplyItem(m, item).value;
      forall i | 0 <= i < |n.stack|
        ensures Holds(n.stack[i], items + [item], |n.stack| - i)
      {
        if i < |m.stack| {
          assert Holds(m.stack[i], items, |m.stack| - i);
        }
      }
    }
  }

  lemma OtherAgrees(m: Machine, items: seq<Item>, item: Item)
    requires item.Long? || item.kind != 1
    requires Holds(m.globals, items, 0) && StackHolds(m.stack, items)
    ensures Holds(m.globals, items + [item], 0) && StackHolds(m.stack, items + [item])
  {
    hide InForce;
    SameGlobals(items, item, 0);
    forall i | 0 <= i < |m.stack|
      ensures Holds(m.stack[i], items + [item], |m.stack| - i)
    {
      SameGlobals(items, item, |m.stack| - i);
    }
  }

  lemma UsageAgrees(m: Machine, items: seq<Item>, item: Item)
    requires LastUsage(m.usages) == Usage(items) && ApplyItem(m, item).Ok?
    ensures LastUsage(ApplyItem(m, item).value.usages) == Usage(items + [item])
  {
    LastOf(items, item);
    if item.Short? {
      ValueByPlace(item.payload);
    }
    hide ItemValue, Little, SetGlobal;
  }

  /** What an item does to the collection stack. */
  lemma CollectionsAfter(m: Machine, items: seq<Item>, item: Item)
    requires Holds(m.globals, items, 0) && LastUsage(m.usages) == Usage(items) && ApplyItem(m, item).Ok?
    ensures var before, after := m.collections, ApplyItem(m, item).value.collections;
            if IsEnd(item) then after == if before == [] then [] else before[..|before| - 1]
            else if IsBegin(item) then
              after == before + [Collection(UsagePage(items), Usage(items), Little(item.payload))]
            else after == before
  {
    if item.Short? {
      ValueByPlace(item.payload);
    }
    hide ItemValue, Little, SetGlobal, InForce, Usage, LastUsage;
  }

  lemma CollectionsAgree(m: Machine, items: seq<Item>, item: Item)
    requires Holds(m.globals, items, 0) && LastUsage(m.usages) == Usage(items) && ApplyItem(m, item).Ok?
    requires CollectionsHold(m.collections, items)
    ensures CollectionsHold(ApplyItem(m, item).value.collections, items + [item])
  {
    hide ApplyItem, Little, InForce, Usage, LastUsage, Inside, InsideOf;
    CollectionsAfter(m, items, item);
    forall skip: nat
      ensures InsideOf(ApplyItem(m, item).value.collections, skip) <==> Inside(items + [item], skip)
    {
      LookBack(items, item, skip);
      if IsEnd(item) {
        EndInside(m.collections, skip);
      } else if IsBegin(item) {
        BeginInside(m.collections, Collection(UsagePage(items), Usage(items), Little(item.payload)), skip);
      }
    }
  }

  lemma LookBack(items: seq<Item>, item: Item, skip: nat)
    ensures Inside(items + [item], skip) <==>
            if IsEnd(item) then Inside(items, skip + 1)
            else if !IsBegin(item) then Inside(items, skip)
            else if skip > 0 then Inside(items, skip - 1)
            else Opens(items, item) || Inside(items, 0)
  {
    LastOf(items, item);
    hide Opens;
  }

  lemma EndInside(collections: seq<Collection>, skip: nat)
    ensures InsideOf(if collections == [] then [] else collections[..|collections| - 1], skip) <==>
            InsideOf(collections, skip + 1)
  {
    if skip + 1 < |collections| {
      var n := |collections| - 1;
      assert collections[..n][..n - skip] == collections[..n - skip];
    }
  }

  lemma BeginInside(collections: seq<Collection>, begun: Collection, skip: nat)
    ensures InsideOf(collections + [begun], skip) <==>
            if skip > 0 then InsideOf(collections, skip - 1)
            else begun == Collection(0xFF00, 0x0001, 0x01) || InsideOf(collections, 0)
  {
    var after, n := collections + [begun], |collections|;
    if skip == 0 {
      assert after[..n + 1] == after && collections[..n] == collections;
    } else if skip <= n {
      assert after[..n + 1 - skip] == collections[..n - (skip - 1)];
    }
  }

  lemma FoundGrows(items: seq<Item>, item: Item)
    ensures Found(items + [item]) <==> Found(items) || Opens(items, item)
  {
    hide Opens;
    var longer := items + [item];
    assert longer[..|items|] == items;
    assert forall i | 0 <= i < |items| :: longer[..i] == items[..i];
    if Found(items) {
      var i :| 0 <= i < |items| && Opens(items[..i], items[i]);
      assert Opens(longer[..i], longer[i]);
    } else if Opens(items, item) {
      assert Opens(longer[..|items|], longer[|items|]);
    }
  }

  lemma FoundAgrees(m: Machine, items: seq<Item>, item: Item)
    requires Holds(m.globals, items, 0) && LastUsage(m.usages) == Usage(items) && ApplyItem(m, item).Ok?
    requires m.found <==> Found(items)
    ensures ApplyItem(m, item).value.found <==> Found(items + [item])
  {
    hide Found, ItemValue, Little, SetGlobal, InForce, Usage, LastUsage;
    FoundGrows(items, item);
    if item.Short? {
      ValueByPlace(item.payload);
    }
  }

  lemma TotalsAgree(m: Machine, items: seq<Item>, item: Item)
    requires Holds(m.globals, items, 0) && CollectionsHold(m.collections, items) && ApplyItem(m, item).Ok?
    requires m.inputs == Totals(items, 0x8) && m.outputs == Totals(items, 0x9)
    ensures var n := ApplyItem(m, item).value;
            n.inputs == Totals(items + [item], 0x8) && n.outputs == Totals(items + [item], 0x9)
  {
    assert InsideOf(m.collections, 0) <==> Inside(items, 0);
    assert m.collections[..|m.collections|] == m.collections;
    TotalsGrow(items, item, 0x8);
    TotalsGrow(items, item, 0x9);
    hide ItemValue, SetGlobal, InForce, LastUsage, Inside, Totals, CollectionsHold;
    var bits := m.globals.reportSize * m.globals.reportCount;
    assert bits == ReportSize(items) * ReportCount(items);
  }

  lemma TotalsGrow(items: seq<Item>, item: Item, tag: int)
    ensures var rest := Totals(items, tag);
            var id, bits := ReportId(items), ReportSize(items) * ReportCount(items);
            Totals(items + [item], tag) ==
            if !Counts(items, item, tag) then rest else rest[id := if id in rest then rest[id] + bits else bits]
  {
    LastOf(items, item);
    hide InForce, Counts;
  }

  /** After any items that the reader accepts: the globals, the usage, the open collections and the
      totals it holds are those that scanning back finds. */
  lemma {:induction false} FoldIsScan(items: seq<Item>)
    requires Fold(START, items).Ok?
    ensures Agrees(Fold(START, items).value, items)
    decreases |items|
  {
    if items != [] {
      var n := |items| - 1;
      var before, item := items[..n], items[n];
      assert items == before + [item];
      FoldConcat(START, before, [item]);
      FoldIsScan(before);
      var m := Fold(START, before).value;
      FoldOne(m, item);
      hide Fold, ApplyItem, InForce, Usage, Inside, Found, Totals, StackHolds, CollectionsHold, Holds;
      AgreesStep(m, before, item);
    }
  }

  lemma AgreesStep(m: Machine, items: seq<Item>, item: Item)
    requires Agrees(m, items) && ApplyItem(m, item).Ok?
    ensures Agrees(ApplyItem(m, item).value, items + [item])
  {
    hide InForce, Usage, Inside, Found, Totals, StackHolds, CollectionsHold, Holds, ItemValue, SetGlobal;
    UsageAgrees(m, items, item);
    CollectionsAgree(m, items, item);
    FoundAgrees(m, items, item);
    TotalsAgree(m, items, item);
    if item.Short? && item.kind == 1 {
      GlobalAgrees(m, items, item);
    } else {
      OtherAgrees(m, items, item);
    }
  }

  // -- What the caller gets ---------------------------------------------------------------------

  /** Bits as the bytes that hold them, with the leading byte of a numbered report. */
  function Bytes(totals: map<nat, nat>, id: nat): nat {
    if id !in totals then 0
    else if totals[id] == 0 then if id == 0 then 0 else 1
    else (totals[id] - 1) / 8 + 1 + if id == 0 then 0 else 1
  }

  /** The report is 0x0E if it has input or output bits, otherwise the only report that has, and these
      are that report's sizes. */
  ghost predicate Describes(caps: VendorCaps, inputs: map<nat, nat>, outputs: map<nat, nat>) {
    && (0x0E in inputs || 0x0E in outputs ==> caps.reportId == Some(0x0E))
    && (forall id: nat :: 0x0E !in inputs && 0x0E !in outputs ==>
          (caps.reportId == Some(id) <==> inputs.Keys + outputs.Keys == {id}))
    && (caps.reportId.None? ==> caps.inputBytes == 0 && caps.outputBytes == 0)
    && (caps.reportId.Some? ==>
          && caps.inputBytes == Bytes(inputs, caps.reportId.value)
          && caps.outputBytes == Bytes(outputs, caps.reportId.value))
  }

  lemma CapsDescribe(m: Machine)
    ensures Describes(Caps(m), m.inputs, m.outputs)
  {
    var ids := m.inputs.Keys + m.outputs.Keys;
    forall id: nat | 0x0E !in ids
      ensures SelectReport(ids) == Some(id) <==> ids == {id}
    {
      SelectedAlone(ids, id);
    }
  }

  lemma CapsWritable(m: Machine)
    requires m.inputs != map[] || m.outputs != map[] ==> m.found
    ensures Caps(m).InputCompatible() <==> 0x0E in m.inputs && 57 <= m.inputs[0x0E] <= 64
    ensures Caps(m).Writable() <==>
            && 0x0E in m.inputs && 57 <= m.inputs[0x0E] <= 64
            && 0x0E in m.outputs && 57 <= m.outputs[0x0E] <= 64
  {
  }

  /** The answer for any descriptor: whether the collection was opened anywhere, the report it carries
      and its sizes; it can be listened to exactly when report 0x0E has 57 to 64 input bits, and written
      exactly when it has 57 to 64 bits each way. */
  lemma ParseIsScan(descriptor: seq<byte>)
    requires Parse(descriptor).Ok?
    ensures var items := Tokenise(descriptor).items; var caps := Parse(descriptor).value;
            var inputs, outputs := Totals(items, 0x8), Totals(items, 0x9);
            && caps.found == Found(items)
            && Describes(caps, inputs, outputs)
            && (caps.InputCompatible() <==> 0x0E in inputs && 57 <= inputs[0x0E] <= 64)
            && (caps.Writable() <==>
                  && 0x0E in inputs && 57 <= inputs[0x0E] <= 64
                  && 0x0E in outputs && 57 <= outputs[0x0E] <= 64)
  {
    var items := Tokenise(descriptor).items;
    FoldIsScan(items);
    CountsFound(items, 0x8);
    CountsFound(items, 0x9);
    hide Fold, Tokenise, Totals, Found, InForce, Usage, Inside, Describes, SelectReport, ReportBytes;
    CapsDescribe(Fold(START, items).value);
    CapsWritable(Fold(START, items).value);
  }

  lemma SelectedAlone(ids: set<nat>, id: nat)
    requires 0x0E !in ids
    ensures SelectReport(ids) == Some(id) <==> ids == {id}
  {
    if ids == {id} {
      assert id in ids;
    }
  }

  lemma {:induction false} InsideFound(items: seq<Item>, skip: nat)
    requires Inside(items, skip)
    ensures Found(items)
    decreases |items|
  {
    var n := |items| - 1;
    var last, before := items[n], items[..n];
    assert items == before + [last];
    FoundGrows(before, last);
    hide Found, Opens;
    if !(IsBegin(last) && skip == 0 && Opens(before, last)) {
      InsideFound(before, if IsEnd(last) then skip + 1 else if IsBegin(last) && skip > 0 then skip - 1 else skip);
    }
  }

  lemma {:induction false} CountsFound(items: seq<Item>, tag: int)
    ensures Totals(items, tag) != map[] ==> Found(items)
    decreases |items|
  {
    if items != [] {
      var n := |items| - 1;
      assert items == items[..n] + [items[n]];
      FoundGrows(items[..n], items[n]);
      CountsFound(items[..n], tag);
      hide Found;
      if Inside(items[..n], 0) {
        InsideFound(items[..n], 0);
      }
    }
  }

  // -- The touchpad's own collection -------------------------------------------------------------

  /** Usage page ff00, usage 1, application collection, report 0x0E, eight fields of eight bits, as input
      and as output. */
  const VENDOR_BYTES: seq<byte> :=
    [0x06, 0x00, 0xFF, 0x09, 0x01, 0xA1, 0x01, 0x85, 0x0E, 0x75, 0x08, 0x95, 0x08, 0x81, 0x02, 0x91, 0x02, 0xC0]

  const HEADER: seq<Item> := [Short(1, 0x0, [0x00, 0xFF]), Short(2, 0x0, [0x01]), Short(0, 0xA, [0x01])]
  const SHAPE: seq<Item> := [Short(1, 0x8, [0x0E]), Short(1, 0x7, [0x08]), Short(1, 0x9, [0x08])]
  const FIELDS: seq<Item> := [Short(0, 0x8, [0x02]), Short(0, 0x9, [0x02]), Short(0, 0xC, [])]

  lemma EncodeThree(a: Item, b: Item, c: Item)
    requires AllWellFormed([a, b, c])
    ensures WellFormed(a) && WellFormed(b) && WellFormed(c)
    ensures EncodeAll([a, b, c]) == Encode(a) + Encode(b) + Encode(c)
  {
    hide Encode, WellFormed;
    assert [a, b, c][0] == a && [a, b, c][1] == b && [a, b, c][2] == c;
    assert [a, b, c][1..] == [b, c] && [b, c][1..] == [c] && [c][1..] == [];
    assert EncodeAll([c]) == Encode(c) + EncodeAll([]);
    assert EncodeAll([b, c]) == Encode(b) + EncodeAll([c]);
  }

  lemma FoldThree(m: Machine, a: Item, b: Item, c: Item)
    requires ApplyItem(m, a).Ok? && ApplyItem(ApplyItem(m, a).value, b).Ok?
    ensures Fold(m, [a, b, c]) == ApplyItem(ApplyItem(ApplyItem(m, a).value, b).value, c)
  {
    hide ApplyItem;
    assert [a, b, c][1..] == [b, c] && [b, c][1..] == [c] && [c][1..] == [];
    FoldOne(ApplyItem(ApplyItem(m, a).value, b).value, c);
    assert Fold(ApplyItem(m, a).value, [b, c]) == Fold(ApplyItem(ApplyItem(m, a).value, b).value, [c]);
  }

  lemma SmallValues(a: byte, b: byte)
    ensures ItemValue([]) == 0 && ItemValue([a]) == a && ItemValue([a, b]) == a + 256 * b
  {
    assert [a][1..] == [] && [a, b][1..] == [b];
    assert ItemValue([b]) == b + 256 * ItemValue([b][1..]);
  }

  const INSIDE := Machine(Globals(0xFF00, 0, 0, 0), [], [Collection(0xFF00, 1, 1)], [], map[], map[], true)
  const SHAPED := INSIDE.(globals := Globals(0xFF00, 8, 0x0E, 8))

  lemma FoldHeader()
    ensures Fold(START, HEADER) == Ok(INSIDE)
  {
    SmallValues(0x00, 0xFF);
    SmallValues(0x01, 0);
    hide ItemValue, Fold;
    var paged := START.(globals := Globals(0xFF00, 0, 0, 0));
    assert ApplyItem(START, HEADER[0]) == Ok(paged);
    assert [] + [1] == [1];
    assert ApplyItem(paged, HEADER[1]) == Ok(paged.(usages := [1]));
    assert [] + [Collection(0xFF00, 1, 1)] == [Collection(0xFF00, 1, 1)];
    FoldThree(START, HEADER[0], HEADER[1], HEADER[2]);
    assert HEADER == [HEADER[0], HEADER[1], HEADER[2]];
  }

  lemma FoldShape()
    ensures Fold(INSIDE, SHAPE) == Ok(SHAPED)
  {
    SmallValues(0x0E, 0);
    SmallValues(0x08, 0);
    hide ItemValue, Fold;
    FoldThree(INSIDE, SHAPE[0], SHAPE[1], SHAPE[2]);
    assert SHAPE == [SHAPE[0], SHAPE[1], SHAPE[2]];
  }

  lemma FoldFields()
    ensures Fold(SHAPED, FIELDS) ==
            Ok(SHAPED.(collections := [], inputs := map[0x0E := 64], outputs := map[0x0E := 64]))
  {
    SmallValues(0x02, 0);
    hide ItemValue, Fold;
    FoldThree(SHAPED, FIELDS[0], FIELDS[1], FIELDS[2]);
    assert FIELDS == [FIELDS[0], FIELDS[1], FIELDS[2]];
  }

  lemma EncodeHeader()
    ensures AllWellFormed(HEADER) && EncodeAll(HEADER) == VENDOR_BYTES[..7]
  {
    EncodeThree(HEADER[0], HEADER[1], HEADER[2]);
    assert [HEADER[0], HEADER[1], HEADER[2]] == HEADER;
    hide EncodeAll;
  }

  lemma EncodeShape()
    ensures AllWellFormed(SHAPE) && EncodeAll(SHAPE) == VENDOR_BYTES[7..13]
  {
    EncodeThree(SHAPE[0], SHAPE[1], SHAPE[2]);
    assert [SHAPE[0], SHAPE[1], SHAPE[2]] == SHAPE;
    hide EncodeAll;
  }

  lemma EncodeFields()
    ensures AllWellFormed(FIELDS) && EncodeAll(FIELDS) == VENDOR_BYTES[13..]
  {
    EncodeThree(FIELDS[0], FIELDS[1], FIELDS[2]);
    assert [FIELDS[0], FIELDS[1], FIELDS[2]] == FIELDS;
    hide EncodeAll;
  }

  lemma TokeniseVendor()
    ensures Tokenise(VENDOR_BYTES) == Tokens(HEADER + SHAPE + FIELDS, None)
  {
    hide Tokenise, EncodeAll, AllWellFormed;
    EncodeHeader();
    EncodeShape();
    EncodeFields();
    TokeniseEncoded(FIELDS, []);
    TokeniseEncoded(SHAPE, VENDOR_BYTES[13..]);
    TokeniseEncoded(HEADER, VENDOR_BYTES[7..]);
    TokeniseNothing();
    hide VENDOR_BYTES, HEADER, SHAPE, FIELDS;
    assert VENDOR_BYTES[13..] + [] == VENDOR_BYTES[13..];
    assert VENDOR_BYTES[7..] == VENDOR_BYTES[7..13] + VENDOR_BYTES[13..];
    assert VENDOR_BYTES == VENDOR_BYTES[..7] + VENDOR_BYTES[7..];
    assert HEADER + (SHAPE + (FIELDS + [])) == HEADER + SHAPE + FIELDS;
  }

  lemma TokeniseNothing()
    ensures Tokenise([]) == Tokens([], None)
  {
  }

  /** The touchpad's descriptor is found, numbered 0x0E, with nine bytes each way, and writable. */
  lemma VendorExample()
    ensures Parse(VENDOR_BYTES) == Ok(VendorCaps(true, Some(0x0E), 9, 9)) && Parse(VENDOR_BYTES).value.Writable()
  {
    hide Fold, Tokenise;
    TokeniseVendor();
    FoldHeader();
    FoldShape();
    FoldFields();
    FoldConcat(START, HEADER + SHAPE, FIELDS);
    FoldConcat(START, HEADER, SHAPE);
  }
}
