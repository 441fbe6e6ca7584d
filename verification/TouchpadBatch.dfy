/**
 * Writing a profile of touchpad settings: validation of the whole profile,
 * writing its reports in declaration order until one is refused, and merging
 * into the desired state exactly what the firmware accepted.
 */
module TouchpadBatch {
  import opened Wrappers
  import opened TouchpadSettings
  import opened TomlPrinter

  /** A dictionary's items in iteration order. */
  type Items = seq<(string, Scalar)>

  predicate DistinctKeys(items: Items) {
    forall i, j :: 0 <= i < j < |items| ==> items[i].0 != items[j].0
  }

  // --------------------------------------------------------------- normalisation

  function ParseItem(item: (string, Scalar)): (r: Option<(Setting, int)>) {
    match ParseSetting(item.0)
    case None => None
    case Some(s) =>
      match ParseValue(s, item.1)
      case None => None
      case Some(v) => Some((s, v))
  }

  /** The profile as a map, unless a name or value is not understood or a setting is named twice. */
  function Normalize(items: Items): (r: Option<map<Setting, int>>) {
    if items == [] then Some(map[])
    else
      var before, item := Normalize(items[..|items|-1]), ParseItem(items[|items|-1]);
      if before.None? || item.None? || item.value.0 in before.value then None
      else Some(before.value[item.value.0 := item.value.1])
  }

  lemma {:induction false} NormalizeFails(items: Items, k: nat)
    requires k <= |items| && Normalize(items[..k]).None?
    ensures Normalize(items).None?
    decreases |items| - k
  {
    if k == |items| {
      assert items[..k] == items;
    } else {
      assert items[..k+1][..k] == items[..k];
      NormalizeFails(items, k + 1);
    }
  }

  /** What normalisation means, without reference to the order of the items. */
  ghost predicate Reads(items: Items, m: map<Setting, int>) {
    && (forall i :: 0 <= i < |items| ==>
          var p := ParseItem(items[i]); p.Some? && p.value.0 in m && m[p.value.0] == p.value.1)
    && (forall i, j :: 0 <= i < j < |items| && ParseItem(items[i]).Some? && ParseItem(items[j]).Some? ==>
          ParseItem(items[i]).value.0 != ParseItem(items[j]).value.0)
    && (forall s :: s in m ==> exists i :: 0 <= i < |items| && ParseItem(items[i]) == Some((s, m[s])))
  }

  lemma ReadsMore(items: Items, before: map<Setting, int>, p: (Setting, int))
    requires items != [] && Reads(items[..|items|-1], before)
    requires ParseItem(items[|items|-1]) == Some(p) && p.0 !in before
    ensures Reads(items, before[p.0 := p.1])
  {
    hide ParseItem;
    var n, m := |items| - 1, before[p.0 := p.1];
    var front := items[..n];
    assert forall i :: 0 <= i < n ==> front[i] == items[i];
    forall s | s in m ensures exists i :: 0 <= i < |items| && ParseItem(items[i]) == Some((s, m[s])) {
      if s == p.0 {
        assert ParseItem(items[n]) == Some((s, m[s]));
      } else {
        var i :| 0 <= i < n && ParseItem(front[i]) == Some((s, before[s]));
        assert ParseItem(items[i]) == Some((s, m[s]));
      }
    }
  }

  lemma {:induction false} NormalizeReads(items: Items)
    requires Normalize(items).Some?
    ensures Reads(items, Normalize(items).value)
  {
    hide ParseItem, Reads;
    if items == [] {
      NothingReads();
    } else {
      var n := |items| - 1;
      NormalizeReads(items[..n]);
      ReadsMore(items, Normalize(items[..n]).value, ParseItem(items[n]).value);
    }
  }

  lemma ReadsFewer(items: Items, m: map<Setting, int>)
    requires items != [] && Reads(items, m)
    ensures var n, last := |items| - 1, ParseItem(items[|items| - 1]).value;
            last.0 in m && m[last.0] == last.1 && Reads(items[..n], m - {last.0})
  {
    hide ParseItem;
    var n := |items| - 1;
    var last, front := ParseItem(items[n]).value, items[..n];
    var fewer := m - {last.0};
    assert forall i :: 0 <= i < n ==> front[i] == items[i];
    forall i | 0 <= i < n
      ensures var p := ParseItem(front[i]); p.Some? && p.value.0 in fewer && fewer[p.value.0] == p.value.1
    {
      assert ParseItem(items[i]).value.0 != last.0;
    }
    forall s | s in fewer ensures exists i :: 0 <= i < n && ParseItem(front[i]) == Some((s, fewer[s])) {
      var i :| 0 <= i < |items| && ParseItem(items[i]) == Some((s, m[s]));
      assert i != n;
      assert ParseItem(front[i]) == Some((s, fewer[s]));
    }
  }

  lemma {:induction false} ReadsNormalizes(items: Items, m: map<Setting, int>)
    requires Reads(items, m)
    ensures Normalize(items) == Some(m)
  {
    hide ParseItem, Reads;
    if items == [] {
      EmptyReads(m);
    } else {
      LastParses(items, m);
      var n := |items| - 1;
      var last := ParseItem(items[n]).value;
      ReadsFewer(items, m);
      ReadsNormalizes(items[..n], m - {last.0});
      assert (m - {last.0})[last.0 := last.1] == m;
    }
  }

  lemma NothingReads()
    ensures Reads([], map[])
  {}

  lemma EmptyReads(m: map<Setting, int>)
    requires Reads([], m)
    ensures m == map[]
  {}

  lemma LastParses(items: Items, m: map<Setting, int>)
    requires items != [] && Reads(items, m)
    ensures ParseItem(items[|items| - 1]).Some?
  {}

  /** The order in which a profile lists its settings does not matter. */
  lemma OrderIrrelevant(items: Items, other: Items)
    requires DistinctKeys(items) && DistinctKeys(other)
    requires forall x :: x in items <==> x in other
    ensures Normalize(items) == Normalize(other)
  {
    hide Normalize;
    if Normalize(items).Some? {
      NormalizeReads(items);
      ReadsReordered(items, other, Normalize(items).value);
      ReadsNormalizes(other, Normalize(items).value);
    } else if Normalize(other).Some? {
      NormalizeReads(other);
      ReadsReordered(other, items, Normalize(other).value);
      ReadsNormalizes(items, Normalize(other).value);
    }
  }

  lemma ReadsReordered(items: Items, other: Items, m: map<Setting, int>)
    requires DistinctKeys(other) && Reads(items, m)
    requires forall x :: x in items <==> x in other
    ensures Reads(other, m)
  {
    hide ParseItem;
    forall i | 0 <= i < |other|
      ensures var p := ParseItem(other[i]); p.Some? && p.value.0 in m && m[p.value.0] == p.value.1
    {
      assert other[i] in items;
    }
    forall i, j | 0 <= i < j < |other| && ParseItem(other[i]).Some? && ParseItem(other[j]).Some?
      ensures ParseItem(other[i]).value.0 != ParseItem(other[j]).value.0
    {
      assert other[i] in items && other[j] in items;
      var a :| 0 <= a < |items| && items[a] == other[i];
      var b :| 0 <= b < |items| && items[b] == other[j];
      assert other[i].0 != other[j].0;
      assert a != b;
    }
    forall s | s in m ensures exists i :: 0 <= i < |other| && ParseItem(other[i]) == Some((s, m[s])) {
      var i :| 0 <= i < |items| && ParseItem(items[i]) == Some((s, m[s]));
      assert items[i] in other;
    }
  }

  // --------------------------------------------------------------------- reports

  function OrderedFrom(m: map<Setting, int>, k: nat): (r: seq<Setting>)
    requires k <= |ALL_SETTINGS|
    ensures forall s :: s in r <==> s in m && Rank(s) < k
    ensures forall i, j :: 0 <= i < j < |r| ==> Rank(r[i]) < Rank(r[j])
  {
    if k == 0 then []
    else
      var s := ALL_SETTINGS[k-1];
      RankOf(k - 1);
      if s in m then OrderedFrom(m, k - 1) + [s] else OrderedFrom(m, k - 1)
  }

  lemma RankOf(k: nat)
    requires k < |ALL_SETTINGS|
    ensures Rank(ALL_SETTINGS[k]) == k
  {}

  /** The profile's settings in declaration order. */
  function Ordered(m: map<Setting, int>): (r: seq<Setting>)
    ensures forall s :: s in r <==> s in m
    ensures forall i, j :: 0 <= i < j < |r| ==> Rank(r[i]) < Rank(r[j])
  {
    OrderedFrom(m, |ALL_SETTINGS|)
  }

  function Flatten(order: seq<Setting>, m: map<Setting, int>): (r: seq<Report>)
    requires forall s :: s in order ==> s in m
  {
    if order == [] then []
    else
      var s := order[|order|-1];
      Flatten(order[..|order|-1], m) + Encode(s, m[s])
  }

  /** The clock report: the low five bytes of the time, least significant first. */
  function TimestampReport(seconds: int): (r: Option<Report>) {
    if seconds < 0 || seconds >= 0x100_0000_0000 then None
    else
      var a, b := seconds / 256, seconds / 256 / 256;
      var c, d := b / 256, b / 256 / 256;
      Some([0x0E, 0x00, seconds % 256, a % 256, b % 256, c % 256, d % 256, 0, 0])
  }

  /** The clock report is rejected exactly outside five bytes and otherwise carries the whole time. */
  lemma TimestampCarries(seconds: int)
    ensures TimestampReport(seconds).Some? <==> 0 <= seconds < 0x100_0000_0000
    ensures var r := TimestampReport(seconds);
            r.Some? ==>
              && |r.value| == 9 && r.value[0] == 0x0E && r.value[1] == 0
              && (forall i :: 2 <= i < 9 ==> 0 <= r.value[i] < 256)
              && r.value[2] + 256 * (r.value[3] + 256 * (r.value[4] + 256 * (r.value[5] + 256 * r.value[6]))) == seconds
  {
    if 0 <= seconds < 0x100_0000_0000 {
      var a, b := seconds / 256, seconds / 256 / 256;
      var c, d := b / 256, b / 256 / 256;
      assert seconds == 256 * a + seconds % 256 && a == 256 * b + a % 256;
      assert b == 256 * c + b % 256 && c == 256 * d + c % 256 && d % 256 == d;
    }
  }

  // ----------------------------------------------------------------------- batch

  /** What a batch did; `wire` is every report the device accepted, the clock report included. */
  datatype Batch = Batch(
    wire: seq<Report>,
    clockSent: bool,
    reportsApplied: nat,
    total: nat,
    completed: seq<(Setting, int)>)

  datatype Outcome =
    | Invalid                                 // refused before the device is opened
    | NoDevice
    | Written(batch: Batch, complete: bool)

  function ClockReports(sync: Option<int>): (r: seq<Report>) {
    if sync.Some? && TimestampReport(sync.value).Some? then [TimestampReport(sync.value).value] else []
  }

  function AllReports(m: map<Setting, int>, sync: Option<int>): (r: seq<Report>) {
    ClockReports(sync) + Flatten(Ordered(m), m)
  }

  function Pairs(order: seq<Setting>, m: map<Setting, int>): (r: seq<(Setting, int)>)
    requires forall s :: s in order ==> s in m
    ensures |r| == |order| && forall i :: 0 <= i < |r| ==> r[i] == (order[i], m[order[i]])
  {
    seq(|order|, i requires 0 <= i < |order| => (order[i], m[order[i]]))
  }

  /** The setting being written when n reports have been accepted: everything before it is complete. */
  ghost predicate Reached(m: map<Setting, int>, n: nat, c: nat) {
    var order := Ordered(m);
    && c <= |order|
    && |Flatten(order[..c], m)| <= n
    && (c < |order| ==> n < |Flatten(order[..c+1], m)|)
  }

  /** The whole effect of a batch: the accepted reports stop at the first refused write, no sooner and no later. */
  ghost predicate BatchOf(m: map<Setting, int>, sync: Option<int>, refuses: nat -> bool, b: Batch, complete: bool) {
    var order, all, clock := Ordered(m), AllReports(m, sync), ClockReports(sync);
    && b.total == |Flatten(order, m)|
    && b.wire <= all
    && (forall k :: 0 <= k < |b.wire| ==> !refuses(k))
    && (complete ==> b.wire == all && (sync.Some? ==> clock != []))
    && (!complete && (sync.None? || clock != []) ==> |b.wire| < |all| && refuses(|b.wire|))
    && (!complete && sync.Some? && clock == [] ==> b.wire == [])
    && (b.clockSent <==> clock != [] && |b.wire| > 0)
    && b.reportsApplied == (if |b.wire| <= |clock| then 0 else |b.wire| - |clock|)
    && |b.completed| <= |order| && b.completed == Pairs(order[..|b.completed|], m)
    && Reached(m, b.reportsApplied, |b.completed|)
  }

  lemma {:induction false} FlattenPrefix(order: seq<Setting>, m: map<Setting, int>, k: nat)
    requires forall s :: s in order ==> s in m
    requires k <= |order|
    ensures Flatten(order[..k], m) <= Flatten(order, m)
    decreases |order|
  {
    if k < |order| {
      var n := |order| - 1;
      assert order[..n][..k] == order[..k];
      FlattenPrefix(order[..n], m, k);
      assert Flatten(order[..n], m) <= Flatten(order, m);
    } else {
      assert order[..k] == order;
    }
  }

  /** Writing part of the reports of setting i keeps the wire a prefix. */
  lemma PartialPrefix(m: map<Setting, int>, sync: Option<int>, i: nat, j: nat)
    requires i < |Ordered(m)|
    requires j <= |Encode(Ordered(m)[i], m[Ordered(m)[i]])|
    ensures var order := Ordered(m);
            var reports := Encode(order[i], m[order[i]]);
            && ClockReports(sync) + Flatten(order[..i], m) + reports[..j] <= AllReports(m, sync)
            && Flatten(order[..i+1], m) == Flatten(order[..i], m) + reports
  {
    hide OrderedFrom, Encode, ClockReports;
    var order := Ordered(m);
    var reports := Encode(order[i], m[order[i]]);
    var upTo, all := Flatten(order[..i+1], m), Flatten(order, m);
    assert order[..i+1][..i] == order[..i];
    FlattenPrefix(order, m, i + 1);
    assert upTo == Flatten(order[..i], m) + reports;
    PrefixWith(ClockReports(sync), Flatten(order[..i], m), reports, j, all);
  }

  lemma PrefixWith(clock: seq<Report>, before: seq<Report>, reports: seq<Report>, j: nat, all: seq<Report>)
    requires before + reports <= all && j <= |reports|
    ensures clock + before + reports[..j] <= clock + all
  {
    assert before + reports[..j] == (before + reports)[..|before| + j];
    assert clock + before + reports[..j] == clock + all[..|before| + j];
  }

  /** Normalise a profile, item by item. */
  method NormalizeItems(items: Items) returns (r: Option<map<Setting, int>>)
    ensures r == Normalize(items)
  {
    hide ParseSetting, ParseValue;
    var m: map<Setting, int> := map[];
    for i := 0 to |items|
      invariant Normalize(items[..i]) == Some(m)
    {
      assert items[..i+1][..i] == items[..i];
      var canonical := ParseSetting(items[i].0);
      if canonical.None? || canonical.value in m {
        NormalizeFails(items, i + 1);
        return None;
      }
      var parsed := ParseValue(canonical.value, items[i].1);
      if parsed.None? {
        NormalizeFails(items, i + 1);
        return None;
      }
      m := m[canonical.value := parsed.value];
    }
    assert items[..|items|] == items;
    return Some(m);
  }

  /** A batch stopped inside setting i, after j of its reports. */
  lemma StoppedBatch(m: map<Setting, int>, sync: Option<int>, refuses: nat -> bool, wire: seq<Report>, i: nat, j: nat)
    requires i < |Ordered(m)| && j < |Encode(Ordered(m)[i], m[Ordered(m)[i]])|
    requires sync.Some? ==> ClockReports(sync) != []
    requires wire == ClockReports(sync) + Flatten(Ordered(m)[..i], m) + Encode(Ordered(m)[i], m[Ordered(m)[i]])[..j]
    requires (forall k :: 0 <= k < |wire| ==> !refuses(k)) && refuses(|wire|)
    ensures var order := Ordered(m);
            BatchOf(m, sync, refuses,
                    Batch(wire, ClockReports(sync) != [], |Flatten(order[..i], m)| + j, |Flatten(order, m)|,
                          Pairs(order[..i], m)), false)
  {
    hide Encode, Ordered, ClockReports, Flatten;
    PartialPrefix(m, sync, i, j);
    PartialPrefix(m, sync, i, j + 1);
  }

  lemma FinishedBatch(m: map<Setting, int>, sync: Option<int>, refuses: nat -> bool, wire: seq<Report>)
    requires m != map[]
    requires sync.Some? ==> ClockReports(sync) != []
    requires wire == AllReports(m, sync) && forall k :: 0 <= k < |wire| ==> !refuses(k)
    ensures var order := Ordered(m);
            BatchOf(m, sync, refuses,
                    Batch(wire, ClockReports(sync) != [], |Flatten(order, m)|, |Flatten(order, m)|, Pairs(order, m)),
                        true)
  {
    hide Encode, OrderedFrom, Flatten, ClockReports;
    FirstIsNotEmpty(m);
    assert Ordered(m)[..|Ordered(m)|] == Ordered(m);
  }

  /** A batch whose clock report could not be built or was refused. */
  lemma UnstartedBatch(m: map<Setting, int>, sync: Option<int>, refuses: nat -> bool)
    requires m != map[] && sync.Some? && (ClockReports(sync) == [] || refuses(0))
    ensures BatchOf(m, sync, refuses, Batch([], false, 0, |Flatten(Ordered(m), m)|, []), false)
  {
    hide Encode, OrderedFrom;
    FirstIsNotEmpty(m);
    assert Ordered(m)[..0] == [];
  }

  /** Write the reports of one setting until one is refused. */
  method WriteSetting(before: seq<Report>, reports: seq<Report>, refuses: nat -> bool)
    returns (wire: seq<Report>, n: nat)
    requires forall k :: 0 <= k < |before| ==> !refuses(k)
    ensures n <= |reports| && wire == before + reports[..n]
    ensures forall k :: 0 <= k < |wire| ==> !refuses(k)
    ensures n < |reports| ==> refuses(|wire|)
  {
    wire, n := before, 0;
    assert reports[..0] == [] && before + [] == wire;
    while n < |reports|
      invariant 0 <= n <= |reports|
      invariant wire == before + reports[..n]
      invariant forall k :: 0 <= k < |wire| ==> !refuses(k)
    {
      if refuses(|wire|) {
        return;
      }
      assert reports[..n+1] == reports[..n] + [reports[n]];
      wire, n := wire + [reports[n]], n + 1;
    }
  }

  /** Write the reports of an already validated profile, until one is refused. */
  method WriteReports(m: map<Setting, int>, sync: Option<int>, refuses: nat -> bool)
    returns (b: Batch, complete: bool)
    requires m != map[]
    ensures BatchOf(m, sync, refuses, b, complete)
  {
    hide Encode, Ordered, TimestampReport, BatchOf, Flatten;
    var wire: seq<Report> := [];
    if sync.Some? {
      var stamp := TimestampReport(sync.value);
      if stamp.None? || refuses(0) {
        UnstartedBatch(m, sync, refuses);
        return Batch([], false, 0, |Flatten(Ordered(m), m)|, []), false;
      }
      wire := [stamp.value];
    }
    b, complete := WriteOrdered(m, sync, refuses, wire);
  }

  lemma PairsGrow(order: seq<Setting>, m: map<Setting, int>, i: nat)
    requires i < |order| && forall s :: s in order ==> s in m
    ensures Pairs(order[..i+1], m) == Pairs(order[..i], m) + [(order[i], m[order[i]])]
  {}

  /** The settings in declaration order, after the clock report if there is one. */
  method WriteOrdered(m: map<Setting, int>, sync: Option<int>, refuses: nat -> bool, clock: seq<Report>)
    returns (b: Batch, complete: bool)
    requires m != map[]
    requires clock == ClockReports(sync) && (sync.Some? ==> clock != []) && forall k :: 0 <= k < |clock| ==> !refuses(k)
    ensures BatchOf(m, sync, refuses, b, complete)
  {
    hide Encode, OrderedFrom, ClockReports, BatchOf, Flatten, Pairs;
    var ordered := Ordered(m);
    var total := |Flatten(ordered, m)|;
    var wire, applied, completed := clock, 0, [];
    FirstIsNotEmpty(m);
    assert clock + [] == clock;
    var i := 0;
    while i < |ordered|
      invariant 0 <= i <= |ordered|
      invariant wire == clock + Flatten(ordered[..i], m)
      invariant applied == |Flatten(ordered[..i], m)|
      invariant forall k :: 0 <= k < |wire| ==> !refuses(k)
      invariant completed == Pairs(ordered[..i], m)
    {
      var reports := Encode(ordered[i], m[ordered[i]]);
      var after, n := WriteSetting(wire, reports, refuses);
      applied := applied + n;
      if n < |reports| {
        StoppedBatch(m, sync, refuses, after, i, n);
        return Batch(after, clock != [], applied, total, completed), false;
      }
      PartialPrefix(m, sync, i, 0);
      PairsGrow(ordered, m, i);
      assert reports[..n] == reports;
      wire, completed := after, completed + [(ordered[i], m[ordered[i]])];
      i := i + 1;
    }
    assert ordered[..i] == ordered;
    FinishedBatch(m, sync, refuses, wire);
    return Batch(wire, clock != [], applied, total, completed), true;
  }

  lemma FirstIsNotEmpty(m: map<Setting, int>)
    requires m != map[]
    ensures |Ordered(m)| > 0 && |Flatten(Ordered(m)[..1], m)| > 0
    ensures Flatten(Ordered(m)[..0], m) == [] && |Flatten(Ordered(m), m)| > 0
  {
    var s :| s in m;
    assert s in Ordered(m);
    FlattenPrefix(Ordered(m), m, 1);
  }

  method ApplySettings(items: Items, sync: Option<int>, opens: bool, refuses: nat -> bool) returns (r: Outcome)
    ensures r.Invalid? <==> Normalize(items).None? || items == []
    ensures r.NoDevice? <==> !(Normalize(items).None? || items == []) && !opens
    ensures r.Written? ==> BatchOf(Normalize(items).value, sync, refuses, r.batch, r.complete)
  {
    var m := NormalizeItems(items);
    EmptyOnlyIfEmpty(items);
    if m.None? || m.value == map[] {
      return Invalid;
    }
    if !opens {
      return NoDevice;
    }
    var b, complete := WriteReports(m.value, sync, refuses);
    return Written(b, complete);
  }

  lemma EmptyOnlyIfEmpty(items: Items)
    ensures Normalize(items) == Some(map[]) <==> items == []
  {
    if items != [] && Normalize(items).Some? {
      assert ParseItem(items[|items|-1]).value.0 in Normalize(items).value;
    }
  }

  // ---------------------------------------------------------------- main results

  lemma {:induction false} FlattenOwner(order: seq<Setting>, m: map<Setting, int>, k: nat) returns (i: nat, j: nat)
    requires forall s :: s in order ==> s in m
    requires k < |Flatten(order, m)|
    ensures i < |order| && j < |Encode(order[i], m[order[i]])|
    ensures k == |Flatten(order[..i], m)| + j && Flatten(order, m)[k] == Encode(order[i], m[order[i]])[j]
  {
    hide Encode;
    var n := |order| - 1;
    var front := order[..n];
    var before := Flatten(front, m);
    var own := Encode(order[n], m[order[n]]);
    assert Flatten(order, m) == before + own;
    if k < |before| {
      hide Flatten;
      i, j := FlattenOwner(front, m, k);
      assert front[..i] == order[..i];
    } else {
      i, j := n, k - |before|;
    }
  }

  lemma FlattenLength(order: seq<Setting>, m: map<Setting, int>, i: nat, j: nat)
    requires forall s :: s in order ==> s in m
    requires i <= j <= |order|
    ensures |Flatten(order[..i], m)| <= |Flatten(order[..j], m)|
  {
    assert order[..j][..i] == order[..i];
    FlattenPrefix(order[..j], m, i);
  }

  /** The reports of setting i sit between the flattened lengths of i and i + 1 settings. */
  lemma OwnReports(order: seq<Setting>, m: map<Setting, int>, i: nat, j: nat)
    requires forall s :: s in order ==> s in m
    requires i < |order| && j < |Encode(order[i], m[order[i]])|
    ensures var at := |Flatten(order[..i], m)| + j;
            && at < |Flatten(order[..i+1], m)| <= |Flatten(order, m)|
            && Flatten(order, m)[at] == Encode(order[i], m[order[i]])[j]
    ensures |Flatten(order[..i+1], m)| == |Flatten(order[..i], m)| + |Encode(order[i], m[order[i]])|
  {
    hide Encode;
    assert order[..i+1][..i] == order[..i];
    FlattenPrefix(order, m, i + 1);
  }

  /** A report of setting i is found nowhere else in the flattened list. */
  lemma OwnOnly(m: map<Setting, int>, i: nat, k: nat, report: Report)
    requires i < |Ordered(m)| && k < |Flatten(Ordered(m), m)|
    requires report in Encode(Ordered(m)[i], m[Ordered(m)[i]]) && Flatten(Ordered(m), m)[k] == report
    ensures |Flatten(Ordered(m)[..i], m)| <= k < |Flatten(Ordered(m)[..i+1], m)|
  {
    hide Encode, OrderedFrom;
    var order := Ordered(m);
    var o, j := FlattenOwner(order, m, k);
    OwnReports(order, m, o, j);
    ReportsIdentify(order[o], m[order[o]], order[i], m[order[i]], report);
    assert o == i;
  }

  lemma ClockIsNoSetting(sync: Option<int>, s: Setting, v: int, report: Report)
    requires report in ClockReports(sync)
    ensures report !in Encode(s, v)
  {
    assert report[1] == 0;
    assert forall i :: 0 <= i < |Commands(s)| ==> Commands(s)[i] > 0;
  }

  /** The last report of setting i was accepted exactly when the batch got past all of it. */
  lemma LastReportSent(m: map<Setting, int>, sync: Option<int>, refuses: nat -> bool, b: Batch, complete: bool,
      i: nat, report: Report)
    requires BatchOf(m, sync, refuses, b, complete) && i < |Ordered(m)|
    requires report in Encode(Ordered(m)[i], m[Ordered(m)[i]]) && report in b.wire
    ensures |Flatten(Ordered(m)[..i], m)| < b.reportsApplied
    ensures exists k :: && |Flatten(Ordered(m)[..i], m)| <= k < |Flatten(Ordered(m)[..i+1], m)|
                        && k < b.reportsApplied && k < |Flatten(Ordered(m), m)| && Flatten(Ordered(m), m)[k] == report
  {
    hide Encode, OrderedFrom, Reached, Flatten;
    var order, clock := Ordered(m), ClockReports(sync);
    var at :| 0 <= at < |b.wire| && b.wire[at] == report;
    assert AllReports(m, sync)[at] == report;
    if at < |clock| {
      assert report in clock;
      ClockIsNoSetting(sync, order[i], m[order[i]], report);
    }
    OwnOnly(m, i, at - |clock|, report);
  }

  /**
   * `completed` is exactly the settings all of whose reports the device
   * accepted, each with its requested value; the number reported is the number
   * of accepted reports without the clock report.
   */
  lemma CompletedIff(m: map<Setting, int>, sync: Option<int>, refuses: nat -> bool, b: Batch, complete: bool,
      s: Setting)
    requires BatchOf(m, sync, refuses, b, complete) && s in m
    ensures (s, m[s]) in b.completed <==> forall report :: report in Encode(s, m[s]) ==> report in b.wire
    ensures complete ==> |b.completed| == |Ordered(m)| && b.reportsApplied == b.total
    ensures forall p :: p in b.completed ==> p.0 in m && p.1 == m[p.0]
  {
    hide Encode, OrderedFrom, BatchOf;
    var order := Ordered(m);
    var i :| 0 <= i < |order| && order[i] == s;
    CompletedShape(m, sync, refuses, b, complete);
    if i < |b.completed| {
      assert b.completed[i] == (s, m[s]);
      forall report | report in Encode(s, m[s]) ensures report in b.wire {
        CompletedSent(m, sync, refuses, b, complete, i, report);
      }
    } else {
      LastMissing(m, sync, refuses, b, complete, i);
    }
  }

  lemma CompletedShape(m: map<Setting, int>, sync: Option<int>, refuses: nat -> bool, b: Batch, complete: bool)
    requires BatchOf(m, sync, refuses, b, complete)
    ensures |b.completed| <= |Ordered(m)|
    ensures forall i :: 0 <= i < |b.completed| ==>
            Ordered(m)[i] in m && b.completed[i] == (Ordered(m)[i], m[Ordered(m)[i]])
    ensures complete ==> |b.completed| == |Ordered(m)| && b.reportsApplied == b.total
  {
    hide Encode, OrderedFrom, Flatten;
    var order, c := Ordered(m), |b.completed|;
    assert order[..|order|] == order;
    if c < |order| { FlattenLength(order, m, c + 1, |order|); }
  }

  lemma CompletedSent(m: map<Setting, int>, sync: Option<int>, refuses: nat -> bool, b: Batch, complete: bool, i: nat,
      report: Report)
    requires BatchOf(m, sync, refuses, b, complete) && i < |b.completed|
    requires report in Encode(Ordered(m)[i], m[Ordered(m)[i]])
    ensures report in b.wire
  {
    hide Encode, OrderedFrom, Flatten;
    var order := Ordered(m);
    var s := order[i];
    FlattenLength(order, m, i + 1, |b.completed|);
    var j :| 0 <= j < |Encode(s, m[s])| && Encode(s, m[s])[j] == report;
    OwnReports(order, m, i, j);
    var at := |ClockReports(sync)| + |Flatten(order[..i], m)| + j;
    assert AllReports(m, sync)[at] == report;
    assert b.wire[at] == report;
  }

  lemma LastMissing(m: map<Setting, int>, sync: Option<int>, refuses: nat -> bool, b: Batch, complete: bool, i: nat)
    requires BatchOf(m, sync, refuses, b, complete) && |b.completed| <= i < |Ordered(m)|
    ensures var s := Ordered(m)[i];
            var last := Encode(s, m[s])[|Encode(s, m[s])| - 1];
            last in Encode(s, m[s]) && last !in b.wire
  {
    hide Encode, OrderedFrom, Flatten, ClockReports;
    var order, c := Ordered(m), |b.completed|;
    var s := order[i];
    var reports := Encode(s, m[s]);
    var last := reports[|reports| - 1];
    if last in b.wire {
      LastReportSent(m, sync, refuses, b, complete, i, last);
      var k :| && |Flatten(order[..i], m)| <= k < |Flatten(order[..i+1], m)|
               && k < b.reportsApplied && k < |Flatten(order, m)| && Flatten(order, m)[k] == last;
      FlattenLength(order, m, c + 1, i + 1);
      OwnReports(order, m, i, |reports| - 1);
      OwnReports(order, m, i, k - |Flatten(order[..i], m)|);
      DistinctReports(s, m[s], k - |Flatten(order[..i], m)|, |reports| - 1);
    }
  }

  lemma DistinctReports(s: Setting, v: int, i: nat, j: nat)
    requires i < |Encode(s, v)| && j < |Encode(s, v)| && Encode(s, v)[i] == Encode(s, v)[j]
    ensures i == j
  {
    assert Encode(s, v)[i][1] == Commands(s)[i] && Encode(s, v)[j][1] == Commands(s)[j];
  }

  // ------------------------------------------------------------- the application

  datatype Reply = BadArgument | Unavailable | ApplyFailed | PartialApply(saved: bool) | NotPersisted | Applied

  function Merge(settings: map<string, int>, pairs: seq<(Setting, int)>): (r: map<string, int>) {
    if pairs == [] then settings
    else Merge(settings, pairs[..|pairs|-1])[Name(pairs[|pairs|-1].0) := pairs[|pairs|-1].1]
  }

  function NamedItems(order: seq<Setting>, m: map<Setting, int>): (r: Items)
    requires forall s :: s in order ==> s in m
    ensures |r| == |order| && forall i :: 0 <= i < |r| ==> r[i] == (Name(order[i]), Int(m[order[i]]))
  {
    seq(|order|, i requires 0 <= i < |order| => (Name(order[i]), Int(m[order[i]])))
  }

  /** The use case: normalise, hand the canonical profile to the transport, save what was accepted. */
  method ApplyTouchpad(settings: map<string, int>, items: Items, available: bool, sync: Option<int>,
                       opens: bool, refuses: nat -> bool, saves: bool)
    returns (reply: Reply, wanted: map<string, int>, sent: Option<Batch>)
    ensures var valid := Normalize(items).Some? && items != [];
            && (reply.BadArgument? <==> !valid)
            && (reply.Unavailable? <==> valid && !available)
            && (sent.Some? <==> valid && available && opens)
            && (valid && available && !opens ==> reply.ApplyFailed?)
    ensures sent.None? ==> wanted == settings
    ensures sent.Some? ==>
              var b := sent.value;
              && BatchOf(Normalize(items).value, sync, refuses, b, b.reportsApplied == b.total)
              && wanted == (if saves then Merge(settings, b.completed) else settings)
              && (reply.Applied? <==> b.reportsApplied == b.total && saves)
              && (reply.NotPersisted? <==> b.reportsApplied == b.total && !saves)
              && (reply.PartialApply? <==> 0 < b.reportsApplied < b.total)
              && (reply.PartialApply? ==> reply.saved == (saves && b.completed != []))
              && (reply.ApplyFailed? <==> b.reportsApplied == 0)
  {
    hide BatchOf, Merge, Normalize, Ordered, NamedItems;
    wanted, sent := settings, None;
    EmptyOnlyIfEmpty(items);
    var m := NormalizeItems(items);
    if m.None? || m.value == map[] {
      return BadArgument, wanted, sent;
    }
    if !available {
      return Unavailable, wanted, sent;
    }
    ValuesInRange(items);
    var canonical := NamedItems(Ordered(m.value), m.value);
    CanonicalAgain(m.value);
    EmptyOnlyIfEmpty(canonical);
    var r := ApplySettings(canonical, sync, opens, refuses);
    if !r.Written? {
      return ApplyFailed, wanted, sent;
    }
    sent := Some(r.batch);
    BatchCounts(m.value, sync, refuses, r.batch, r.complete);
    if !r.complete {
      if r.batch.reportsApplied > 0 {
        if r.batch.completed != [] && saves {
          wanted := Merge(settings, r.batch.completed);
        }
        return PartialApply(saves && r.batch.completed != []), wanted, sent;
      }
      return ApplyFailed, wanted, sent;
    }
    if !saves {
      return NotPersisted, wanted, sent;
    }
    wanted := Merge(settings, r.batch.completed);
    return Applied, wanted, sent;
  }

  lemma BatchCounts(m: map<Setting, int>, sync: Option<int>, refuses: nat -> bool, b: Batch, complete: bool)
    requires BatchOf(m, sync, refuses, b, complete) && m != map[]
    ensures b.reportsApplied == 0 ==> b.completed == [] && !complete
    ensures complete <==> b.reportsApplied == b.total
    ensures b.reportsApplied <= b.total
    ensures forall settings: map<string, int> :: Merge(settings, []) == settings
  {
    hide Encode, OrderedFrom;
    FirstIsNotEmpty(m);
    if |b.completed| > 0 { FlattenLength(Ordered(m), m, 1, |b.completed|); }
  }

  ghost predicate InRange(m: map<Setting, int>) { forall s :: s in m ==> 0 <= m[s] <= Maximum(s) }

  lemma {:induction false} ValuesInRange(items: Items)
    ensures Normalize(items).Some? ==> InRange(Normalize(items).value)
  {
    hide ParseSetting, ParseValue;
    if items != [] {
      ValuesInRange(items[..|items|-1]);
      var p := ParseItem(items[|items|-1]);
      if p.Some? { assert ParseValue(p.value.0, items[|items|-1].1) == Some(p.value.1); }
    }
  }

  /** Normalising a normalised profile changes nothing. */
  lemma CanonicalAgain(m: map<Setting, int>)
    requires InRange(m)
    ensures Normalize(NamedItems(Ordered(m), m)) == Some(m)
  {
    hide ParseSetting, ParseValue, Name, OrderedFrom, Normalize;
    var order := Ordered(m);
    var items := NamedItems(order, m);
    forall i | 0 <= i < |items| ensures ParseItem(items[i]) == Some((order[i], m[order[i]])) {
      NameParses(order[i]);
      assert order[i] in order;
    }
    forall s | s in m ensures exists i :: 0 <= i < |items| && ParseItem(items[i]) == Some((s, m[s])) {
      var i :| 0 <= i < |order| && order[i] == s;
    }
    ReadsNormalizes(items, m);
  }

  lemma NamesDiffer(s: Setting, t: Setting)
    ensures Name(s) == Name(t) <==> s == t
  {
    hide Name, ParseSetting;
    NameParses(s);
    NameParses(t);
  }

  lemma {:induction false} MergeLookup(settings: map<string, int>, pairs: seq<(Setting, int)>, s: Setting)
    requires forall i, j :: 0 <= i < j < |pairs| ==> pairs[i].0 != pairs[j].0
    ensures forall v :: (s, v) in pairs ==> Name(s) in Merge(settings, pairs) && Merge(settings, pairs)[Name(s)] == v
    ensures (forall i :: 0 <= i < |pairs| ==> pairs[i].0 != s) ==>
              (Name(s) in Merge(settings, pairs) <==> Name(s) in settings)
              && (Name(s) in settings ==> Merge(settings, pairs)[Name(s)] == settings[Name(s)])
  {
    hide Name;
    if pairs != [] {
      var n := |pairs| - 1;
      var front := pairs[..n];
      MergeLookup(settings, front, s);
      NamesDiffer(s, pairs[n].0);
      assert forall i :: 0 <= i < n ==> front[i] == pairs[i];
      assert forall v :: (s, v) in pairs ==> (s, v) in front || (s, v) == pairs[n];
    }
  }

  /**
   * After a batch whose outcome could be saved, the desired state holds the
   * requested value of a setting whose reports were all accepted, and its
   * former entry for every other setting.
   */
  lemma SavedIffAccepted(settings: map<string, int>, m: map<Setting, int>, sync: Option<int>, refuses: nat -> bool,
                         b: Batch, complete: bool, s: Setting)
    requires BatchOf(m, sync, refuses, b, complete)
    ensures var wanted := Merge(settings, b.completed);
            if s in m && (forall report :: report in Encode(s, m[s]) ==> report in b.wire) then
              Name(s) in wanted && wanted[Name(s)] == m[s]
            else
              && (Name(s) in wanted <==> Name(s) in settings)
              && (Name(s) in settings ==> wanted[Name(s)] == settings[Name(s)])
  {
    hide Encode, OrderedFrom, Merge, Name, Reached;
    var order := Ordered(m);
    forall i, j | 0 <= i < j < |b.completed| ensures b.completed[i].0 != b.completed[j].0 {
      assert Rank(order[i]) < Rank(order[j]);
    }
    MergeLookup(settings, b.completed, s);
    if s in m {
      CompletedIff(m, sync, refuses, b, complete, s);
    }
  }
}
