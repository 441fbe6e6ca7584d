/** What a report descriptor means, independently of the reader: descriptors as trees of nested
collections, their bytes, and the theorems that the reader computes that meaning. */
module HidMeaning {
  import opened Wrappers
  import opened HidDescriptor

  // -- Bytes and items ---------------------------------------------------------------------

  lemma NextEncoded(item: Item, rest: seq<byte>)
    requires WellFormed(item)
    ensures NextItem(Encode(item) + rest) == Ok((item, |Encode(item)|))
    ensures (Encode(item) + rest)[|Encode(item)|..] == rest
  {
    var bytes := Encode(item) + rest;
    match item
    case Short(kind, tag, payload) =>
      var prefix := tag * 16 + kind * 4 + SizeCode(|payload|);
      assert bytes[0] == prefix;
      assert prefix / 16 == tag && prefix / 4 % 4 == kind && prefix % 4 == SizeCode(|payload|);
      assert bytes[1..1 + |payload|] == payload;
    case Long(tag, data) =>
      assert bytes[0] == LONG_PREFIX && bytes[1] == |data| && bytes[2] == tag;
      assert bytes[3..3 + |data|] == data;
  }

  lemma TokeniseFirst(item: Item, rest: seq<byte>)
    requires WellFormed(item)
    ensures Tokenise(Encode(item) + rest) == Tokens([item] + Tokenise(rest).items, Tokenise(rest).tail)
  {
    NextEncoded(item, rest);
  }

  /** The bytes of well-formed items are read back as those items, whatever follows. */
  lemma {:induction false} TokeniseEncoded(items: seq<Item>, rest: seq<byte>)
    requires AllWellFormed(items)
    ensures var tokens := Tokenise(rest);
            Tokenise(EncodeAll(items) + rest) == Tokens(items + tokens.items, tokens.tail)
  {
    hide Tokenise, Encode, WellFormed;
    if items == [] {
      assert EncodeAll(items) + rest == rest;
      assert items + Tokenise(rest).items == Tokenise(rest).items;
    } else {
      var more := EncodeAll(items[1..]) + rest;
      assert EncodeAll(items) + rest == Encode(items[0]) + more;
      TokeniseFirst(items[0], more);
      TokeniseEncoded(items[1..], rest);
      assert items + Tokenise(rest).items == [items[0]] + (items[1..] + Tokenise(rest).items);
    }
  }

  lemma PrefixParts(p: int)
    requires 0 <= p < 256
    ensures p == p / 16 * 16 + p / 4 % 4 * 4 + p % 4
  {
    var q := p / 4;
    assert p == 4 * q + p % 4 && q == 4 * (q / 4) + q % 4;
    assert q / 4 == p / 16;
  }

  lemma EncodeNext(rest: seq<byte>)
    requires rest != [] && NextItem(rest).Ok?
    ensures var (item, size) := NextItem(rest).value;
            WellFormed(item) && 0 < size <= |rest| && Encode(item) == rest[..size]
  {
    var (item, size) := NextItem(rest).value;
    if item.Long? {
      assert rest[..size] == rest[..3] + item.data;
    } else {
      PrefixParts(rest[0]);
      assert rest[..size] == [rest[0]] + item.payload;
    }
  }

  lemma EncodeCons(item: Item, items: seq<Item>)
    requires WellFormed(item) && AllWellFormed(items)
    ensures AllWellFormed([item] + items) && EncodeAll([item] + items) == Encode(item) + EncodeAll(items)
  {
    assert ([item] + items)[1..] == items;
  }

  /** Every byte string is the bytes of its items, then nothing or one truncated item. */
  lemma {:induction false} EncodeTokenised(rest: seq<byte>) returns (left: seq<byte>)
    ensures var tokens := Tokenise(rest);
            && AllWellFormed(tokens.items) && rest == EncodeAll(tokens.items) + left
            && (tokens.tail.None? <==> left == [])
            && (left != [] ==> NextItem(left) == Err(tokens.tail.value))
  {
    hide NextItem, Encode, WellFormed, EncodeAll;
    if rest == [] || NextItem(rest).Err? {
      left := rest;
      NothingEncoded(rest);
    } else {
      var (item, size) := NextItem(rest).value;
      EncodeNext(rest);
      left := EncodeTokenised(rest[size..]);
      var more := Tokenise(rest[size..]).items;
      EncodeCons(item, more);
      assert rest == rest[..size] + rest[size..];
      assert Encode(item) + EncodeAll(more) + left == Encode(item) + (EncodeAll(more) + left);
    }
  }

  lemma NothingEncoded(rest: seq<byte>)
    ensures AllWellFormed([]) && EncodeAll([]) + rest == rest
  {
  }

  lemma {:induction false} FoldConcat(m: Machine, first: seq<Item>, second: seq<Item>)
    ensures Fold(m, first + second) == match Fold(m, first)
                                       case Err(e) => Err(e)
                                       case Ok(n) => Fold(n, second)
    decreases |first|
  {
    if first == [] {
      assert first + second == second;
    } else {
      assert (first + second)[0] == first[0] && (first + second)[1..] == first[1..] + second;
      if ApplyItem(m, first[0]).Ok? {
        FoldConcat(ApplyItem(m, first[0]).value, first[1..], second);
      }
    }
  }

  /** Long items and items of the reserved type. */
  predicate Ignored(item: Item) {
    item.Long? || item.kind == 3
  }

  /** Inserting an ignored item between two items changes nothing, whatever bytes follow. */
  lemma IgnoredItemsAreInvisible(items: seq<Item>, item: Item, rest: seq<byte>)
    requires AllWellFormed(items) && WellFormed(item) && Ignored(item)
    ensures Parse(EncodeAll(items) + (Encode(item) + rest)) == Parse(EncodeAll(items) + rest)
  {
    var tokens := Tokenise(rest);
    TokeniseEncoded(items, rest);
    TokeniseEncoded(items, Encode(item) + rest);
    TokeniseFirst(item, rest);
    FoldConcat(START, items, tokens.items);
    FoldConcat(START, items, [item] + tokens.items);
    assert ([item] + tokens.items)[1..] == tokens.items;
  }

  // -- What is rejected ------------------------------------------------------------------------

  predicate IsPush(item: Item) {
    item.Short? && item.kind == 1 && item.tag == 0xA
  }

  predicate IsPop(item: Item) {
    item.Short? && item.kind == 1 && item.tag == 0xB
  }

  /** Pushes less pops. */
  function Depth(items: seq<Item>): int {
    if items == [] then 0
    else
      var last := items[|items| - 1];
      Depth(items[..|items| - 1]) + (if IsPush(last) then 1 else if IsPop(last) then -1 else 0)
  }

  lemma ApplyDepth(m: Machine, item: Item)
    ensures match ApplyItem(m, item)
            case Err(e) => e == PopWithoutPush && IsPop(item) && m.stack == []
            case Ok(n) => |n.stack| == |m.stack| + Depth([item])
  {
    assert [item][..0] == [];
  }

  lemma {:induction false} FoldDepth(m: Machine, items: seq<Item>)
    ensures match Fold(m, items)
            case Err(e) => e == PopWithoutPush && exists k | 0 <= k <= |items| :: |m.stack| + Depth(items[..k]) < 0
            case Ok(n) => |n.stack| == |m.stack| + Depth(items)
    decreases |items|
  {
    if items != [] {
      var last := |items| - 1;
      FoldDepth(m, items[..last]);
      assert items == items[..last] + [items[last]];
      FoldConcat(m, items[..last], [items[last]]);
      match Fold(m, items[..last]) {
        case Err(_) =>
          var k :| 0 <= k <= last && |m.stack| + Depth(items[..last][..k]) < 0;
          assert items[..last][..k] == items[..k];
        case Ok(n) =>
          ApplyDepth(n, items[last]);
          assert [items[last]][1..] == [];
          assert items[..|items|] == items;
      }
    }
  }

  lemma {:induction false} FoldFails(m: Machine, items: seq<Item>, k: nat)
    requires k <= |items| && |m.stack| + Depth(items[..k]) < 0
    ensures Fold(m, items).Err?
  {
    FoldDepth(m, items[..k]);
    assert items == items[..k] + items[k..];
    FoldConcat(m, items[..k], items[k..]);
  }

  /** A descriptor is rejected exactly when it is truncated or some prefix pops more than it
      pushes; the unmatched pop is what is reported. */
  lemma RejectedIff(descriptor: seq<byte>)
    ensures var tokens := Tokenise(descriptor);
            var unmatched := exists k | 0 <= k <= |tokens.items| :: Depth(tokens.items[..k]) < 0;
            && (Parse(descriptor).Err? <==> (unmatched || tokens.tail.Some?))
            && (unmatched ==> Parse(descriptor) == Err(PopWithoutPush))
            && (!unmatched && tokens.tail.Some? ==> Parse(descriptor) == Err(tokens.tail.value))
  {
    var items := Tokenise(descriptor).items;
    FoldDepth(START, items);
    if k :| 0 <= k <= |items| && Depth(items[..k]) < 0 {
      FoldFails(START, items, k);
    }
  }

  // -- Trees of collections ------------------------------------------------------------------

  predicate IsBegin(item: Item) {
    item.Short? && item.kind == 0 && item.tag == 0xA
  }

  predicate IsEnd(item: Item) {
    item.Short? && item.kind == 0 && item.tag == 0xC
  }

  /** A descriptor as its author nests it. A collection may lack its end when the descriptor stops
      inside it, and an End Collection with nothing to end is a leaf. */
  datatype Node = Leaf(item: Item) | Group(begin: Item, children: seq<Node>, end: Option<Item>)

  function Flatten(nodes: seq<Node>): seq<Item> {
    if nodes == [] then []
    else
      (match nodes[0]
       case Leaf(item) => [item]
       case Group(begin, children, end) =>
         [begin] + Flatten(children) + (if end.Some? then [end.value] else []))
      + Flatten(nodes[1..])
  }

  predicate Closed(nodes: seq<Node>) {
    nodes != [] ==> (nodes[0].Group? ==> nodes[0].end.Some?) && Closed(nodes[1..])
  }

  predicate Shaped(nodes: seq<Node>, top: bool) {
    nodes != [] ==>
      match nodes[0]
      case Leaf(item) => !IsBegin(item) && (IsEnd(item) ==> top) && Shaped(nodes[1..], top)
      case Group(begin, children, end) =>
        && IsBegin(begin) && Shaped(children, false)
        && (end.Some? ==> IsEnd(end.value) && Closed(children) && Shaped(nodes[1..], top))
        && (end.None? ==> nodes[1..] == [])
  }

  // -- The meaning of a tree -----------------------------------------------------------------------

  /** What one part of a descriptor leaves for the next: the global items in force, their stack,
      and the usages waiting for a main item. */
  datatype Scope = Scope(globals: Globals, stack: seq<Globals>, usages: seq<nat>)

  datatype Effect = Effect(scope: Scope, found: bool, inputs: map<nat, nat>, outputs: map<nat, nat>)

  function Add(a: map<nat, nat>, b: map<nat, nat>): map<nat, nat> {
    map id | id in a.Keys + b.Keys :: Bits(a, id) + Bits(b, id)
  }

  function Then(first: Effect, second: Effect): Effect {
    Effect(second.scope, first.found || second.found,
           Add(first.inputs, second.inputs), Add(first.outputs, second.outputs))
  }

  function Silent(scope: Scope): Effect {
    Effect(scope, false, map[], map[])
  }

  /** Size times count, for the report the scope names, if the item lies in the vendor collection. */
  function Field(scope: Scope, inside: bool): map<nat, nat> {
    if inside then map[scope.globals.reportId := scope.globals.reportSize * scope.globals.reportCount] else map[]
  }

  function LeafMeaning(item: Item, scope: Scope, inside: bool): Result<Effect, HidError> {
    if Ignored(item) then Ok(Silent(scope))
    else if IsPush(item) then Ok(Silent(scope.(stack := scope.stack + [scope.globals])))
    else if IsPop(item) then
      if scope.stack == [] then Err(PopWithoutPush)
      else Ok(Silent(scope.(globals := scope.stack[|scope.stack| - 1], stack := scope.stack[..|scope.stack| - 1])))
    else if item.kind == 1 then
      Ok(Silent(scope.(globals := SetGlobal(scope.globals, item.tag, ItemValue(item.payload)))))
    else if item.kind == 2 then
      Ok(Silent(if item.tag == 0x0 then scope.(usages := scope.usages + [ItemValue(item.payload)]) else scope))
    else if item.kind == 0 then
      var after := scope.(usages := []);
      if item.tag == 0x8 then Ok(Effect(after, false, Field(scope, inside), map[]))
      else if item.tag == 0x9 then Ok(Effect(after, false, map[], Field(scope, inside)))
      else Ok(Silent(after))
    else Ok(Silent(scope))
  }

  predicate OpensVendor(begin: Item, scope: Scope)
    requires IsBegin(begin)
  {
    Collection(scope.globals.usagePage, LastUsage(scope.usages), ItemValue(begin.payload)) == VENDOR
  }

  /** The recursive meaning: no collection stack, only whether the vendor collection is around. */
  function Meaning(nodes: seq<Node>, scope: Scope, inside: bool, top: bool): Result<Effect, HidError>
    requires Shaped(nodes, top)
    decreases nodes, 1
  {
    if nodes == [] then Ok(Silent(scope))
    else
      match NodeMeaning(nodes, scope, inside, top)
      case Err(e) => Err(e)
      case Ok(first) =>
        if nodes[0].Group? && nodes[0].end.None? then Ok(first)
        else
          match Meaning(nodes[1..], first.scope, inside, top)
          case Err(e) => Err(e)
          case Ok(second) => Ok(Then(first, second))
  }

  function NodeMeaning(nodes: seq<Node>, scope: Scope, inside: bool, top: bool): Result<Effect, HidError>
    requires nodes != [] && Shaped(nodes, top)
    decreases nodes, 0
  {
    match nodes[0]
    case Leaf(item) => LeafMeaning(item, scope, inside)
    case Group(begin, children, end) =>
      var vendor := OpensVendor(begin, scope);
      match Meaning(children, scope.(usages := []), inside || vendor, false)
      case Err(e) => Err(e)
      case Ok(inner) =>
        Ok(inner.(found := vendor || inner.found,
           scope := if end.Some? then inner.scope.(usages := []) else inner.scope))
  }

  // -- The machine computes the meaning ----------------------------------------------------------

  lemma AddUnit(a: map<nat, nat>)
    ensures Add(a, map[]) == a && Add(map[], a) == a
  {
  }

  lemma AddAssociative(a: map<nat, nat>, b: map<nat, nat>, c: map<nat, nat>)
    ensures Add(Add(a, b), c) == Add(a, Add(b, c))
  {
    var left, right := Add(Add(a, b), c), Add(a, Add(b, c));
    assert left.Keys == right.Keys;
    forall id | id in left
      ensures left[id] == right[id]
    {
    }
  }

  function ScopeOf(m: Machine): Scope {
    Scope(m.globals, m.stack, m.usages)
  }

  /** The machine after a part of a descriptor with that effect, but for the collection stack. */
  function After(m: Machine, e: Effect, collections: seq<Collection>): Machine {
    Machine(e.scope.globals, e.scope.stack, collections, e.scope.usages,
            Add(m.inputs, e.inputs), Add(m.outputs, e.outputs), m.found || e.found)
  }

  ghost predicate Realises(m: Machine, nodes: seq<Node>, r: Result<Effect, HidError>, n: Result<Machine, HidError>) {
    match r
    case Err(e) => n == Err(e)
    case Ok(e) =>
      && n.Ok?
      && n.value == After(m, e, n.value.collections)
      && (Closed(nodes) ==> n.value.collections == m.collections)
  }

  lemma AfterThen(m: Machine, a: Effect, b: Effect, c1: seq<Collection>, c2: seq<Collection>)
    ensures After(After(m, a, c1), b, c2) == After(m, Then(a, b), c2)
  {
    AddAssociative(m.inputs, a.inputs, b.inputs);
    AddAssociative(m.outputs, a.outputs, b.outputs);
  }

  ghost predicate LeafRealised(m: Machine, item: Item) {
    match LeafMeaning(item, ScopeOf(m), VENDOR in m.collections)
    case Err(e) => ApplyItem(m, item) == Err(e)
    case Ok(e) => ApplyItem(m, item) == Ok(After(m, e, m.collections))
  }

  lemma FieldRealises(m: Machine, item: Item)
    requires item.Short? && item.kind == 0 && item.tag in {0x8, 0x9}
    ensures LeafRealised(m, item)
  {
    hide Add, ItemValue;
    AddUnit(m.inputs);
    AddUnit(m.outputs);
    var bits := m.globals.reportSize * m.globals.reportCount;
    AddField(m.inputs, m.globals.reportId, bits);
    AddField(m.outputs, m.globals.reportId, bits);
  }

  lemma GlobalRealises(m: Machine, item: Item)
    requires item.Short? && item.kind == 1
    ensures LeafRealised(m, item)
  {
    hide Add, ItemValue, SetGlobal, ApplyMain;
    AddUnit(m.inputs);
    AddUnit(m.outputs);
  }

  lemma LeafRealises(m: Machine, item: Item, top: bool)
    requires !IsBegin(item) && (IsEnd(item) ==> top) && (top ==> m.collections == [])
    ensures LeafRealised(m, item)
  {
    if item.Short? && item.kind == 0 && item.tag in {0x8, 0x9} {
      FieldRealises(m, item);
    } else if item.Short? && item.kind == 1 {
      GlobalRealises(m, item);
    } else {
      hide Add, ItemValue, ApplyGlobal;
      AddUnit(m.inputs);
      AddUnit(m.outputs);
    }
  }

  lemma AddField(totals: map<nat, nat>, id: nat, bits: nat)
    ensures Add(totals, map[id := bits]) == totals[id := Bits(totals, id) + bits]
  {
  }

  lemma FoldOne(m: Machine, item: Item)
    ensures Fold(m, [item]) == ApplyItem(m, item)
  {
    assert [item][1..] == [];
  }

  lemma BeginRealises(m: Machine, begin: Item)
    requires IsBegin(begin)
    ensures ApplyItem(m, begin).Ok?
    ensures var n := ApplyItem(m, begin).value;
            var vendor := OpensVendor(begin, ScopeOf(m));
            && ScopeOf(n) == ScopeOf(m).(usages := [])
            && n.inputs == m.inputs && n.outputs == m.outputs && n.found == (m.found || vendor)
            && |n.collections| == |m.collections| + 1 && n.collections[..|m.collections|] == m.collections
            && (VENDOR in n.collections <==> (VENDOR in m.collections || vendor))
  {
  }

  lemma EndRealises(m: Machine, end: Item)
    requires IsEnd(end) && m.collections != []
    ensures ApplyItem(m, end) == Ok(m.(collections := m.collections[..|m.collections| - 1], usages := []))
  {
  }

  /** For every shaped forest, folding its flattened items gives the recursive meaning. */
  lemma {:induction false} FlattenRealises(m: Machine, nodes: seq<Node>, top: bool)
    requires Shaped(nodes, top) && (top ==> m.collections == [])
    ensures Realises(m, nodes, Meaning(nodes, ScopeOf(m), VENDOR in m.collections, top), Fold(m, Flatten(nodes)))
    decreases nodes, 1
  {
    hide ApplyItem, LeafMeaning;
    if nodes == [] {
      AddUnit(m.inputs);
      AddUnit(m.outputs);
    } else {
      var inside := VENDOR in m.collections;
      var first := Flatten([nodes[0]]);
      FlattenFirst(nodes);
      FirstRealises(m, nodes, top);
      FoldConcat(m, first, Flatten(nodes[1..]));
      var meaning := NodeMeaning(nodes, ScopeOf(m), inside, top);
      if meaning.Ok? && !(nodes[0].Group? && nodes[0].end.None?) {
        assert [nodes[0]][1..] == [] && Closed([nodes[0]]);
        var n := Fold(m, first).value;
        FlattenRealises(n, nodes[1..], top);
        var rest := Meaning(nodes[1..], meaning.value.scope, inside, top);
        if rest.Ok? {
          AfterThen(m, meaning.value, rest.value, n.collections, Fold(n, Flatten(nodes[1..])).value.collections);
        }
      }
    }
  }

  lemma FlattenFirst(nodes: seq<Node>)
    requires nodes != []
    ensures Flatten(nodes) == Flatten([nodes[0]]) + Flatten(nodes[1..])
  {
    assert [nodes[0]][1..] == [];
  }

  lemma {:induction false} FirstRealises(m: Machine, nodes: seq<Node>, top: bool)
    requires nodes != [] && Shaped(nodes, top) && (top ==> m.collections == [])
    ensures Realises(m, [nodes[0]], NodeMeaning(nodes, ScopeOf(m), VENDOR in m.collections, top),
                     Fold(m, Flatten([nodes[0]])))
    decreases nodes, 0
  {
    hide ApplyItem, LeafMeaning, OpensVendor;
    assert [nodes[0]][1..] == [];
    match nodes[0]
    case Leaf(item) =>
      assert Flatten([nodes[0]]) == [item];
      LeafRealises(m, item, top);
      FoldOne(m, item);
    case Group(begin, children, end) =>
      var inner := Flatten(children);
      var closing := if end.Some? then [end.value] else [];
      assert Flatten([nodes[0]]) == [begin] + (inner + closing);
      FoldConcat(m, [begin], inner + closing);
      FoldOne(m, begin);
      BeginRealises(m, begin);
      var n := ApplyItem(m, begin).value;
      FlattenRealises(n, children, false);
      FoldConcat(n, inner, closing);
      if end.Some? && Fold(n, inner).Ok? {
        FoldOne(Fold(n, inner).value, end.value);
        EndRealises(Fold(n, inner).value, end.value);
      }
  }

  // -- Every descriptor is such a tree --------------------------------------------------------

  /** The forest at the front of an item sequence, and what is left: nothing, or inside a
      collection the End Collection that closes it and everything behind. */
  function Build(items: seq<Item>, inside: bool): (r: (seq<Node>, seq<Item>))
    ensures |r.1| <= |items|
    ensures r.1 != [] ==> inside && IsEnd(r.1[0])
    decreases |items|
  {
    if items == [] then ([], [])
    else if IsEnd(items[0]) && inside then ([], items)
    else if IsBegin(items[0]) then
      var (children, rest) := Build(items[1..], true);
      if rest == [] then ([Group(items[0], children, None)], [])
      else
        var (more, left) := Build(rest[1..], inside);
        ([Group(items[0], children, Some(rest[0]))] + more, left)
    else
      var (more, left) := Build(items[1..], inside);
      ([Leaf(items[0])] + more, left)
  }

  lemma FlattenCons(node: Node, more: seq<Node>)
    ensures Flatten([node] + more) == Flatten([node]) + Flatten(more)
    ensures Flatten([node]) == match node
                               case Leaf(item) => [item]
                               case Group(begin, children, end) =>
                                 [begin] + Flatten(children) + (if end.Some? then [end.value] else [])
  {
    assert ([node] + more)[1..] == more;
    assert [node][1..] == [];
  }

  lemma ShapedCons(node: Node, more: seq<Node>, top: bool)
    ensures Shaped([node] + more, top) <==>
            match node
            case Leaf(item) => !IsBegin(item) && (IsEnd(item) ==> top) && Shaped(more, top)
            case Group(begin, children, end) =>
              && IsBegin(begin) && Shaped(children, false)
              && (end.Some? ==> IsEnd(end.value) && Closed(children) && Shaped(more, top))
              && (end.None? ==> more == [])
    ensures Closed([node] + more) <==> ((node.Group? ==> node.end.Some?) && Closed(more))
  {
    assert ([node] + more)[1..] == more;
  }

  ghost predicate Rebuilds(items: seq<Item>, nodes: seq<Node>, rest: seq<Item>, inside: bool) {
    && Flatten(nodes) + rest == items && Shaped(nodes, !inside)
    && (rest != [] ==> Closed(nodes))
  }

  lemma GroupRebuilds(begin: Item, tail: seq<Item>, children: seq<Node>, rest: seq<Item>,
                      more: seq<Node>, left: seq<Item>, inside: bool)
    requires IsBegin(begin) && Rebuilds(tail, children, rest, true)
    requires rest != [] && IsEnd(rest[0]) && Rebuilds(rest[1..], more, left, inside)
    ensures Rebuilds([begin] + tail, [Group(begin, children, Some(rest[0]))] + more, left, inside)
  {
    hide Flatten, Shaped, Closed;
    var node := Group(begin, children, Some(rest[0]));
    FlattenCons(node, more);
    ShapedCons(node, more, !inside);
    assert rest == [rest[0]] + (Flatten(more) + left);
    assert Flatten([node]) + Flatten(more) + left
        == [begin] + (Flatten(children) + ([rest[0]] + (Flatten(more) + left)));
  }

  lemma OpenRebuilds(begin: Item, tail: seq<Item>, children: seq<Node>, inside: bool)
    requires IsBegin(begin) && Rebuilds(tail, children, [], true)
    ensures Rebuilds([begin] + tail, [Group(begin, children, None)], [], inside)
  {
    hide Flatten, Shaped, Closed;
    var node := Group(begin, children, None);
    FlattenCons(node, []);
    ShapedCons(node, [], !inside);
    assert [node] + [] == [node] && Flatten(children) + [] == Flatten(children);
  }

  lemma LeafRebuilds(item: Item, tail: seq<Item>, more: seq<Node>, left: seq<Item>, inside: bool)
    requires !IsBegin(item) && (IsEnd(item) ==> !inside) && Rebuilds(tail, more, left, inside)
    ensures Rebuilds([item] + tail, [Leaf(item)] + more, left, inside)
  {
    hide Flatten, Shaped, Closed;
    FlattenCons(Leaf(item), more);
    ShapedCons(Leaf(item), more, !inside);
    assert [item] + Flatten(more) + left == [item] + (Flatten(more) + left);
  }

  lemma {:induction false} BuildFlattens(items: seq<Item>, inside: bool)
    ensures Rebuilds(items, Build(items, inside).0, Build(items, inside).1, inside)
    decreases |items|
  {
    if items == [] || (IsEnd(items[0]) && inside) {
      assert Flatten([]) + items == items;
    } else {
      hide Rebuilds, Flatten;
      var tail := items[1..];
      assert items == [items[0]] + tail;
      if IsBegin(items[0]) {
        var (children, rest) := Build(tail, true);
        BuildFlattens(tail, true);
        if rest == [] {
          OpenRebuilds(items[0], tail, children, inside);
        } else {
          BuildFlattens(rest[1..], inside);
          GroupRebuilds(items[0], tail, children, rest, Build(rest[1..], inside).0, Build(rest[1..], inside).1, inside);
        }
      } else {
        BuildFlattens(tail, inside);
        LeafRebuilds(items[0], tail, Build(tail, inside).0, Build(tail, inside).1, inside);
      }
    }
  }

  const ORIGIN := Scope(Globals(0, 0, 0, 0), [], [])

  /** The vendor totals of a whole descriptor tree. */
  function TreeMeaning(nodes: seq<Node>): Result<Effect, HidError>
    requires Shaped(nodes, true)
  {
    Meaning(nodes, ORIGIN, false, true)
  }

  ghost function EffectCaps(e: Effect): VendorCaps {
    var id := SelectReport(e.inputs.Keys + e.outputs.Keys);
    VendorCaps(e.found, id, ReportBytes(e.inputs, id), ReportBytes(e.outputs, id))
  }

  lemma TreeFold(nodes: seq<Node>)
    requires Shaped(nodes, true)
    ensures match TreeMeaning(nodes)
            case Err(e) => Fold(START, Flatten(nodes)) == Err(e)
            case Ok(e) => Fold(START, Flatten(nodes)).Ok? && Caps(Fold(START, Flatten(nodes)).value) == EffectCaps(e)
  {
    FlattenRealises(START, nodes, true);
    if TreeMeaning(nodes).Ok? {
      AddUnit(TreeMeaning(nodes).value.inputs);
      AddUnit(TreeMeaning(nodes).value.outputs);
    }
    hide Fold, SelectReport, Add, Meaning;
  }

  /** Parsing the bytes of any descriptor tree gives the meaning of the tree. */
  lemma ParseIsMeaning(nodes: seq<Node>)
    requires Shaped(nodes, true) && AllWellFormed(Flatten(nodes))
    ensures Parse(EncodeAll(Flatten(nodes))) ==
            match TreeMeaning(nodes)
            case Err(e) => Err(e)
            case Ok(e) => Ok(EffectCaps(e))
  {
    hide Fold, Meaning, Caps, EffectCaps;
    TreeFold(nodes);
    var bytes := EncodeAll(Flatten(nodes));
    TokeniseEncoded(Flatten(nodes), []);
    assert bytes + [] == bytes && Flatten(nodes) + [] == Flatten(nodes);
  }

  /** And every byte string that is not truncated is the bytes of such a tree. */
  lemma EveryDescriptorIsATree(descriptor: seq<byte>) returns (nodes: seq<Node>)
    requires Tokenise(descriptor).tail.None?
    ensures Shaped(nodes, true) && AllWellFormed(Flatten(nodes)) && EncodeAll(Flatten(nodes)) == descriptor
  {
    var items := Tokenise(descriptor).items;
    nodes := Build(items, false).0;
    BuildFlattens(items, false);
    assert Flatten(nodes) + [] == Flatten(nodes);
    var left := EncodeTokenised(descriptor);
    assert EncodeAll(items) + [] == EncodeAll(items);
  }

  // -- Writable --------------------------------------------------------------------------------

  /** Outside the vendor collection, bits are only counted once it has been found. */
  lemma {:induction false} CountedMeansFound(nodes: seq<Node>, scope: Scope, top: bool)
    requires Shaped(nodes, top) && Meaning(nodes, scope, false, top).Ok?
    ensures var e := Meaning(nodes, scope, false, top).value;
            e.inputs != map[] || e.outputs != map[] ==> e.found
    decreases nodes
  {
    if nodes != [] {
      var first := NodeMeaning(nodes, scope, false, top).value;
      match nodes[0] {
        case Leaf(item) => assert first.inputs == map[] && first.outputs == map[];
        case Group(begin, children, end) =>
          if !OpensVendor(begin, scope) {
            CountedMeansFound(children, scope.(usages := []), false);
          }
      }
      if nodes[0].Leaf? || nodes[0].end.Some? {
        CountedMeansFound(nodes[1..], first.scope, top);
      }
    }
  }

  /** The endpoint is accepted for writing exactly when report 0x0E carries 57 to 64 input bits and
      57 to 64 output bits inside the vendor collection. */
  lemma WritableIff(nodes: seq<Node>)
    requires Shaped(nodes, true) && TreeMeaning(nodes).Ok?
    ensures var e := TreeMeaning(nodes).value;
            EffectCaps(e).Writable() <==>
            (57 <= Bits(e.inputs, REPORT_ID) <= 64 && 57 <= Bits(e.outputs, REPORT_ID) <= 64)
  {
    CountedMeansFound(nodes, ORIGIN, true);
    hide Meaning;
    var e := TreeMeaning(nodes).value;
    if REPORT_ID in e.inputs || REPORT_ID in e.outputs {
      assert e.found;
      assert SelectReport(e.inputs.Keys + e.outputs.Keys) == Some(REPORT_ID);
    }
  }
}
