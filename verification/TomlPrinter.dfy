/** The state file's TOML printer, at the level of lines, and its inverse: replaying the lines under
the current-table rule (section "Table" of TOML v1.0.0). */
module TomlPrinter {
  import opened Wrappers

  datatype Scalar = Bool(flag: bool) | Int(number: int) | Str(text: string)

  /** A Python dictionary, in insertion order. */
  datatype Node = Leaf(scalar: Scalar) | Table(entries: seq<Pair>)
  datatype Pair = Pair(key: string, node: Node)

  /** A dictionary without its order. */
  datatype Tree = Value(scalar: Scalar) | Dict(fields: map<string, Tree>)

  function KeySet(entries: seq<Pair>): set<string> {
    if entries == [] then {} else {entries[0].key} + KeySet(entries[1..])
  }

  /** Keys are distinct, at every depth. */
  ghost predicate Proper(entries: seq<Pair>) {
    entries != [] ==>
      && entries[0].key !in KeySet(entries[1..])
      && (entries[0].node.Table? ==> Proper(entries[0].node.entries))
      && Proper(entries[1..])
  }

  function Unordered(entries: seq<Pair>): map<string, Tree> {
    if entries == [] then map[]
    else
      Unordered(entries[1..])[entries[0].key :=
        match entries[0].node
        case Leaf(scalar) => Value(scalar)
        case Table(inner) => Dict(Unordered(inner))]
  }

  // -- Printing ---------------------------------------------------------------------------------

  datatype Line = Blank | Header(path: seq<string>) | Entry(key: string, value: Scalar)

  function ScalarLines(entries: seq<Pair>): seq<Line> {
    if entries == [] then []
    else
      var own := if entries[0].node.Leaf? then [Entry(entries[0].key, entries[0].node.scalar)] else [];
      own + ScalarLines(entries[1..])
  }

  function HeaderLines(path: seq<string>, lines: seq<Line>): seq<Line> {
    if path == [] then []
    else (if lines != [] && lines[|lines| - 1] != Blank then [Blank] else []) + [Header(path)]
  }

  /** What `_dump_table` appends to the lines written so far. */
  function Dump(entries: seq<Pair>, path: seq<string>, lines: seq<Line>): seq<Line>
    decreases entries, 1, 0
  {
    var own := HeaderLines(path, lines) + ScalarLines(entries);
    own + DumpChildren(entries, path, lines + own)
  }

  function DumpChildren(entries: seq<Pair>, path: seq<string>, lines: seq<Line>): seq<Line>
    decreases entries, 0, |entries|
  {
    if entries == [] then []
    else if entries[0].node.Leaf? then DumpChildren(entries[1..], path, lines)
    else
      var child := Dump(entries[0].node.entries, path + [entries[0].key], lines);
      child + DumpChildren(entries[1..], path, lines + child)
  }

  /** The header and the scalars of one table. */
  method AppendOwn(entries: seq<Pair>, path: seq<string>, lines: seq<Line>) returns (result: seq<Line>)
    ensures result == lines + (HeaderLines(path, lines) + ScalarLines(entries))
  {
    hide ScalarLines;
    result := lines;
    if path != [] {
      if result != [] && result[|result| - 1] != Blank {
        result := result + [Blank];
      }
      result := result + [Header(path)];
    }
    assert result == lines + HeaderLines(path, lines);
    ghost var headed := result;
    var i := 0;
    while i < |entries|
      invariant 0 <= i <= |entries|
      invariant result + ScalarLines(entries[i..]) == headed + ScalarLines(entries)
    {
      ScalarStep(entries, i);
      ghost var rest := ScalarLines(entries[i + 1..]);
      if entries[i].node.Leaf? {
        var line := Entry(entries[i].key, entries[i].node.scalar);
        assert (result + [line]) + rest == result + ([line] + rest);
        result := result + [line];
      } else {
        assert [] + rest == rest;
      }
      i := i + 1;
    }
    ScalarEnd(entries);
    assert (lines + HeaderLines(path, lines)) + ScalarLines(entries)
        == lines + (HeaderLines(path, lines) + ScalarLines(entries));
  }

  lemma ScalarStep(entries: seq<Pair>, i: nat)
    requires i < |entries|
    ensures ScalarLines(entries[i..]) ==
            (if entries[i].node.Leaf? then [Entry(entries[i].key, entries[i].node.scalar)] else [])
            + ScalarLines(entries[i + 1..])
  {
    assert entries[i..][1..] == entries[i + 1..];
  }

  lemma ScalarEnd(entries: seq<Pair>)
    ensures ScalarLines(entries[|entries|..]) == [] && entries[0..] == entries
  {
  }

  lemma ChildrenStep(rest: seq<Pair>, path: seq<string>, lines: seq<Line>)
    requires rest != []
    ensures var next := if rest[0].node.Leaf? then lines
                        else lines + Dump(rest[0].node.entries, path + [rest[0].key], lines);
            lines + DumpChildren(rest, path, lines) == next + DumpChildren(rest[1..], path, next)
  {
  }

  /** `_dump_table`: append the header and the scalars, then descend into the child tables. */
  method DumpTable(entries: seq<Pair>, path: seq<string>, lines: seq<Line>) returns (result: seq<Line>)
    ensures result == lines + Dump(entries, path, lines)
    decreases entries
  {
    hide DumpChildren, HeaderLines, ScalarLines;
    result := AppendOwn(entries, path, lines);
    ghost var own := result;
    var i := 0;
    assert entries[0..] == entries;
    while i < |entries|
      invariant 0 <= i <= |entries|
      invariant result + DumpChildren(entries[i..], path, result) == own + DumpChildren(entries, path, own)
    {
      ChildrenStep(entries[i..], path, result);
      assert entries[i..][1..] == entries[i + 1..];
      if entries[i].node.Table? {
        result := DumpTable(entries[i].node.entries, path + [entries[i].key], result);
      }
      i := i + 1;
    }
    NoChildren(path, result);
    assert entries[i..] == [];
  }

  /** Every header but one on the first line follows a blank line, and blank lines stand nowhere else. */
  predicate Laid(lines: seq<Line>) {
    && (forall i | 0 < i < |lines| && lines[i].Header? :: lines[i - 1].Blank?)
    && (forall i | 0 <= i < |lines| && lines[i].Blank? ::
          0 < i < |lines| - 1 && !lines[i - 1].Blank? && lines[i + 1].Header?)
  }

  lemma {:induction false} ScalarsAreEntries(entries: seq<Pair>)
    ensures forall i | 0 <= i < |ScalarLines(entries)| :: ScalarLines(entries)[i].Entry?
  {
    if entries != [] {
      ScalarsAreEntries(entries[1..]);
    }
  }

  lemma OwnLaid(entries: seq<Pair>, path: seq<string>, lines: seq<Line>)
    requires Laid(lines)
    ensures Laid(lines + (HeaderLines(path, lines) + ScalarLines(entries)))
  {
    hide ScalarLines;
    ScalarsAreEntries(entries);
    var headed := lines + HeaderLines(path, lines);
    assert Laid(headed);
    EntriesLaid(headed, ScalarLines(entries));
    assert headed + ScalarLines(entries) == lines + (HeaderLines(path, lines) + ScalarLines(entries));
  }

  lemma EntriesLaid(lines: seq<Line>, own: seq<Line>)
    requires Laid(lines) && forall i | 0 <= i < |own| :: own[i].Entry?
    ensures Laid(lines + own)
  {
    var all := lines + own;
    assert forall i | 0 <= i < |lines| :: all[i] == lines[i];
    assert forall i | |lines| <= i < |all| :: all[i].Entry?;
  }

  /** The printed file is laid out that way. */
  lemma {:induction false} DumpLaid(entries: seq<Pair>, path: seq<string>, lines: seq<Line>)
    requires Laid(lines)
    ensures Laid(lines + Dump(entries, path, lines))
    decreases entries, 1, 0
  {
    hide Laid, HeaderLines, ScalarLines;
    OwnLaid(entries, path, lines);
    var own := HeaderLines(path, lines) + ScalarLines(entries);
    ChildrenLaid(entries, path, lines + own);
    assert lines + (own + DumpChildren(entries, path, lines + own)) ==
        (lines + own) + DumpChildren(entries, path, lines + own);
  }

  lemma {:induction false} ChildrenLaid(entries: seq<Pair>, path: seq<string>, lines: seq<Line>)
    requires Laid(lines)
    ensures Laid(lines + DumpChildren(entries, path, lines))
    decreases entries, 0, |entries|
  {
    hide Laid, Dump;
    if entries == [] {
      assert lines + [] == lines;
    } else {
      if entries[0].node.Table? {
        DumpLaid(entries[0].node.entries, path + [entries[0].key], lines);
      }
      ChildrenStep(entries, path, lines);
      var next := if entries[0].node.Leaf? then lines
                  else lines + Dump(entries[0].node.entries, path + [entries[0].key], lines);
      ChildrenLaid(entries[1..], path, next);
    }
  }

  lemma NoChildren(path: seq<string>, lines: seq<Line>)
    ensures lines + DumpChildren([], path, lines) == lines
  {
  }

  // -- Replaying --------------------------------------------------------------------------------

  /** The document so far, the current table and the headers seen. */
  datatype Replay = Replay(root: map<string, Tree>, current: seq<string>, headers: set<seq<string>>)

  /** Define the table at a path, creating the tables above it; a value in the way is an error. */
  function DefineTable(root: map<string, Tree>, path: seq<string>): Option<map<string, Tree>>
    decreases |path|
  {
    if path == [] then Some(root)
    else if path[0] in root && root[path[0]].Value? then None
    else
      match DefineTable(if path[0] in root then root[path[0]].fields else map[], path[1..])
      case None => None
      case Some(inner) => Some(root[path[0] := Dict(inner)])
  }

  /** Set a key in the table at a path; an existing key is an error. */
  function SetKey(root: map<string, Tree>, path: seq<string>, key: string, value: Scalar): Option<map<string, Tree>>
    decreases |path|
  {
    if path == [] then if key in root then None else Some(root[key := Value(value)])
    else if path[0] !in root || root[path[0]].Value? then None
    else
      match SetKey(root[path[0]].fields, path[1..], key, value)
      case None => None
      case Some(inner) => Some(root[path[0] := Dict(inner)])
  }

  function ReplayLine(r: Replay, line: Line): Option<Replay> {
    match line
    case Blank => Some(r)
    case Header(path) =>
      if path in r.headers then None
      else
        (match DefineTable(r.root, path)
         case None => None
         case Some(root) => Some(Replay(root, path, r.headers + {path})))
    case Entry(key, value) =>
      match SetKey(r.root, r.current, key, value)
      case None => None
      case Some(root) => Some(r.(root := root))
  }

  function ReplayLines(r: Replay, lines: seq<Line>): Option<Replay>
    decreases |lines|
  {
    if lines == [] then Some(r)
    else
      match ReplayLine(r, lines[0])
      case None => None
      case Some(s) => ReplayLines(s, lines[1..])
  }

  lemma {:induction false} ReplayConcat(r: Replay, first: seq<Line>, second: seq<Line>)
    ensures ReplayLines(r, first + second) == match ReplayLines(r, first)
                                              case None => None
                                              case Some(s) => ReplayLines(s, second)
    decreases |first|
  {
    if first == [] {
      assert first + second == second;
    } else {
      assert (first + second)[0] == first[0] && (first + second)[1..] == first[1..] + second;
      if ReplayLine(r, first[0]).Some? {
        ReplayConcat(ReplayLine(r, first[0]).value, first[1..], second);
      }
    }
  }

  // -- Documents with one table replaced ----------------------------------------------------------

  /** The table at a path exists. */
  predicate HasTable(root: map<string, Tree>, path: seq<string>)
    decreases |path|
  {
    path == [] || (path[0] in root && root[path[0]].Dict? && HasTable(root[path[0]].fields, path[1..]))
  }

  function FieldsAt(root: map<string, Tree>, path: seq<string>): map<string, Tree>
    requires HasTable(root, path)
    decreases |path|
  {
    if path == [] then root else FieldsAt(root[path[0]].fields, path[1..])
  }

  function PutTable(root: map<string, Tree>, path: seq<string>, fields: map<string, Tree>): map<string, Tree>
    requires HasTable(root, path)
    decreases |path|
  {
    if path == [] then fields
    else root[path[0] := Dict(PutTable(root[path[0]].fields, path[1..], fields))]
  }

  lemma {:induction false} PutTableHas(root: map<string, Tree>, path: seq<string>, fields: map<string, Tree>)
    requires HasTable(root, path)
    ensures HasTable(PutTable(root, path, fields), path)
    ensures FieldsAt(PutTable(root, path, fields), path) == fields
    ensures forall again: map<string, Tree> ::
            PutTable(PutTable(root, path, fields), path, again) == PutTable(root, path, again)
    ensures PutTable(root, path, FieldsAt(root, path)) == root
    decreases |path|
  {
    if path != [] {
      PutTableHas(root[path[0]].fields, path[1..], fields);
    }
  }

  lemma {:induction false} SetKeyPuts(root: map<string, Tree>, path: seq<string>, key: string, value: Scalar)
    requires HasTable(root, path) && key !in FieldsAt(root, path)
    ensures SetKey(root, path, key, value) == Some(PutTable(root, path, FieldsAt(root, path)[key := Value(value)]))
    decreases |path|
  {
    if path != [] {
      SetKeyPuts(root[path[0]].fields, path[1..], key, value);
    }
  }

  lemma {:induction false} DefineTablePuts(root: map<string, Tree>, path: seq<string>, key: string)
    requires HasTable(root, path) && key !in FieldsAt(root, path)
    ensures DefineTable(root, path + [key]) == Some(PutTable(root, path, FieldsAt(root, path)[key := Dict(map[])]))
    decreases |path|
  {
    if path == [] {
      assert (path + [key])[1..] == [];
    } else {
      assert (path + [key])[0] == path[0] && (path + [key])[1..] == path[1..] + [key];
      DefineTablePuts(root[path[0]].fields, path[1..], key);
    }
  }

  /** Filling a fresh child table is the same as setting that key in its parent. */
  lemma {:induction false} PutChild(root: map<string, Tree>, path: seq<string>, key: string,
      fields: map<string, Tree>, inner: map<string, Tree>)
    requires HasTable(root, path) && key in fields && fields[key].Dict?
    ensures HasTable(PutTable(root, path, fields), path + [key])
    ensures FieldsAt(PutTable(root, path, fields), path + [key]) == fields[key].fields
    ensures PutTable(PutTable(root, path, fields), path + [key], inner) ==
            PutTable(root, path, fields[key := Dict(inner)])
    decreases |path|
  {
    if path == [] {
      assert (path + [key])[1..] == [];
    } else {
      assert (path + [key])[0] == path[0] && (path + [key])[1..] == path[1..] + [key];
      PutChild(root[path[0]].fields, path[1..], key, fields, inner);
    }
  }

  // -- The round trip -----------------------------------------------------------------------------

  ghost predicate NoneUnder(headers: set<seq<string>>, path: seq<string>) {
    forall h | h in headers :: !(path <= h)
  }

  /** New headers all lie at or below a path. */
  ghost predicate AddsUnder(before: set<seq<string>>, after: set<seq<string>>, path: seq<string>) {
    before <= after && forall h | h in after && h !in before :: path <= h
  }

  function ScalarFields(entries: seq<Pair>): (m: map<string, Tree>)
    ensures m.Keys <= KeySet(entries)
  {
    if entries == [] then map[]
    else
      var rest := ScalarFields(entries[1..]);
      if entries[0].node.Leaf? then rest[entries[0].key := Value(entries[0].node.scalar)] else rest
  }

  function TableFields(entries: seq<Pair>): (m: map<string, Tree>)
    ensures m.Keys <= KeySet(entries)
  {
    if entries == [] then map[]
    else
      var rest := TableFields(entries[1..]);
      if entries[0].node.Table? then rest[entries[0].key := Dict(Unordered(entries[0].node.entries))] else rest
  }

  lemma {:induction false} FieldsSplit(entries: seq<Pair>)
    requires Proper(entries)
    ensures ScalarFields(entries).Keys !! TableFields(entries).Keys
    ensures Unordered(entries) == ScalarFields(entries) + TableFields(entries)
  {
    if entries != [] {
      FieldsSplit(entries[1..]);
    }
  }

  lemma {:induction false} ScalarsReplay(entries: seq<Pair>, r: Replay)
    requires Proper(entries) && HasTable(r.root, r.current) && KeySet(entries) !! FieldsAt(r.root, r.current).Keys
    ensures var fields := FieldsAt(r.root, r.current) + ScalarFields(entries);
            ReplayLines(r, ScalarLines(entries)) == Some(r.(root := PutTable(r.root, r.current, fields)))
    decreases |entries|
  {
    var fields := FieldsAt(r.root, r.current);
    if entries == [] {
      PutTableHas(r.root, r.current, fields);
      assert fields + map[] == fields;
    } else {
      var rest := entries[1..];
      if entries[0].node.Table? {
        assert ScalarLines(entries) == ScalarLines(rest);
        ScalarsReplay(rest, r);
      } else {
        ScalarReplays(entries, r);
      }
    }
  }

  lemma ScalarReplays(entries: seq<Pair>, r: Replay)
    requires entries != [] && entries[0].node.Leaf?
    requires Proper(entries) && HasTable(r.root, r.current) && KeySet(entries) !! FieldsAt(r.root, r.current).Keys
    ensures var fields := FieldsAt(r.root, r.current) + ScalarFields(entries);
            ReplayLines(r, ScalarLines(entries)) == Some(r.(root := PutTable(r.root, r.current, fields)))
    decreases |entries|, 0
  {
    hide PutTable, HasTable, FieldsAt, SetKey, ReplayLines, ScalarLines;
    var rest := entries[1..];
    var Pair(key, Leaf(scalar)) := entries[0];
    var fields := FieldsAt(r.root, r.current);
    var longer := fields[key := Value(scalar)];
    SetKeyPuts(r.root, r.current, key, scalar);
    PutTableHas(r.root, r.current, longer);
    var next := r.(root := PutTable(r.root, r.current, longer));
    ScalarsReplay(rest, next);
    ScalarLeaf(entries);
    EntryReplays(r, key, scalar, next, ScalarLines(rest));
    assert longer + ScalarFields(rest) == fields + ScalarFields(entries);
  }

  lemma ScalarLeaf(entries: seq<Pair>)
    requires entries != [] && entries[0].node.Leaf?
    ensures ScalarLines(entries) == [Entry(entries[0].key, entries[0].node.scalar)] + ScalarLines(entries[1..])
  {
  }

  lemma EntryReplays(r: Replay, key: string, scalar: Scalar, next: Replay, lines: seq<Line>)
    requires ReplayLine(r, Entry(key, scalar)) == Some(next)
    ensures ReplayLines(r, [Entry(key, scalar)] + lines) == ReplayLines(next, lines)
  {
    hide ReplayLine;
    assert ([Entry(key, scalar)] + lines)[1..] == lines;
  }

  /** One table below an existing one, header to last line. */
  lemma {:induction false} ChildReplays(entries: seq<Pair>, parent: seq<string>, key: string, lines: seq<Line>,
      r: Replay)
    requires Proper(entries) && HasTable(r.root, parent) && key !in FieldsAt(r.root, parent)
    requires NoneUnder(r.headers, parent + [key])
    ensures var path := parent + [key];
            var result := ReplayLines(r, Dump(entries, path, lines));
            && result.Some?
            && result.value.root == PutTable(r.root, parent, FieldsAt(r.root, parent)[key := Dict(Unordered(entries))])
            && AddsUnder(r.headers, result.value.headers, path)
    decreases entries, 2
  {
    hide PutTable, HasTable, FieldsAt, ReplayLines, HeaderLines, ScalarLines, DumpChildren, DefineTable;
    var path := parent + [key];
    var fields := FieldsAt(r.root, parent)[key := Dict(map[])];
    DefineTablePuts(r.root, parent, key);
    PutChild(r.root, parent, key, fields, map[]);
    PutChild(r.root, parent, key, fields, Unordered(entries));
    var begun := Replay(PutTable(r.root, parent, fields), path, r.headers + {path});
    HeaderReplays(path, lines, r, begun);
    var header := HeaderLines(path, lines);
    var own := header + ScalarLines(entries);
    BodyReplays(entries, lines + own, begun);
    ReplayConcat(r, header, ScalarLines(entries) + DumpChildren(entries, path, lines + own));
    assert Dump(entries, path, lines) == header + (ScalarLines(entries) + DumpChildren(entries, path, lines + own));
    assert fields[key := Dict(Unordered(entries))] == FieldsAt(r.root, parent)[key := Dict(Unordered(entries))];
  }

  lemma BlankReplays(r: Replay)
    ensures ReplayLine(r, Blank) == Some(r)
  {
  }

  lemma HeaderReplays(path: seq<string>, lines: seq<Line>, r: Replay, begun: Replay)
    requires path != [] && ReplayLine(r, Header(path)) == Some(begun)
    ensures ReplayLines(r, HeaderLines(path, lines)) == Some(begun)
  {
    hide ReplayLine;
    BlankReplays(r);
    assert [Header(path)][1..] == [] && ([Blank] + [Header(path)])[1..] == [Header(path)];
    assert ReplayLines(r, [Header(path)]) == Some(begun);
    var header := HeaderLines(path, lines);
    assert header == [Header(path)] || (header[0] == Blank && header[1..] == [Header(path)]);
  }

  /** The lines of a table after its header. */
  lemma {:induction false} BodyReplays(entries: seq<Pair>, lines: seq<Line>, r: Replay)
    requires Proper(entries) && HasTable(r.root, r.current) && FieldsAt(r.root, r.current) == map[]
    requires forall h | h in r.headers && r.current <= h :: h == r.current
    ensures var result := ReplayLines(r, ScalarLines(entries) + DumpChildren(entries, r.current, lines));
            && result.Some?
            && result.value.root == PutTable(r.root, r.current, Unordered(entries))
            && AddsUnder(r.headers, result.value.headers, r.current)
    decreases entries, 1
  {
    hide PutTable, HasTable, FieldsAt, ReplayLines, ScalarLines, DumpChildren;
    ScalarsReplay(entries, r);
    var fields := ScalarFields(entries);
    assert map[] + fields == fields;
    PutTableHas(r.root, r.current, fields);
    ReplayConcat(r, ScalarLines(entries), DumpChildren(entries, r.current, lines));
    FieldsSplit(entries);
    ChildrenReplay(entries, r.current, lines, r.(root := PutTable(r.root, r.current, fields)));
  }

  ghost predicate ChildPathsFresh(entries: seq<Pair>, path: seq<string>, headers: set<seq<string>>) {
    forall k | k in TableFields(entries) :: NoneUnder(headers, path + [k])
  }

  ghost predicate ChildrenReplayed(entries: seq<Pair>, path: seq<string>, r: Replay, result: Option<Replay>)
    requires HasTable(r.root, path)
  {
    && result.Some?
    && result.value.root == PutTable(r.root, path, FieldsAt(r.root, path) + TableFields(entries))
    && AddsUnder(r.headers, result.value.headers, path)
  }

  lemma {:induction false} ChildrenReplay(entries: seq<Pair>, path: seq<string>, lines: seq<Line>, r: Replay)
    requires Proper(entries) && HasTable(r.root, path) && TableFields(entries).Keys !! FieldsAt(r.root, path).Keys
    requires ChildPathsFresh(entries, path, r.headers)
    ensures ChildrenReplayed(entries, path, r, ReplayLines(r, DumpChildren(entries, path, lines)))
    decreases entries, 0, 1
  {
    var fields := FieldsAt(r.root, path);
    if entries == [] {
      PutTableHas(r.root, path, fields);
      assert fields + map[] == fields;
    } else if entries[0].node.Leaf? {
      ChildrenReplay(entries[1..], path, lines, r);
    } else {
      FirstChildReplays(entries, path, lines, r);
    }
  }

  lemma {:induction false} FirstChildReplays(entries: seq<Pair>, path: seq<string>, lines: seq<Line>, r: Replay)
    requires entries != [] && entries[0].node.Table?
    requires Proper(entries) && HasTable(r.root, path) && TableFields(entries).Keys !! FieldsAt(r.root, path).Keys
    requires ChildPathsFresh(entries, path, r.headers)
    ensures ChildrenReplayed(entries, path, r, ReplayLines(r, DumpChildren(entries, path, lines)))
    decreases entries, 0, 0
  {
    hide PutTable, HasTable, FieldsAt, ReplayLines, Dump, NoneUnder, AddsUnder, Unordered;
    var fields := FieldsAt(r.root, path);
    var rest := entries[1..];
    var Pair(key, Table(inner)) := entries[0];
    var child := Dump(inner, path + [key], lines);
    assert key in TableFields(entries) && key !in TableFields(rest);
    ChildReplays(inner, path, key, lines, r);
    var s := ReplayLines(r, child).value;
    var longer := fields[key := Dict(Unordered(inner))];
    PutTableHas(r.root, path, longer);
    SiblingsStayFresh(rest, path, key, r.headers, s.headers);
    ChildrenReplay(rest, path, lines + child, s);
    ReplayConcat(r, child, DumpChildren(rest, path, lines + child));
    assert longer + TableFields(rest) == fields + TableFields(entries);
    AddsUnderBoth(r.headers, s.headers, ReplayLines(s, DumpChildren(rest, path, lines + child)).value.headers, path);
  }

  lemma AddsUnderBoth(a: set<seq<string>>, b: set<seq<string>>, c: set<seq<string>>, path: seq<string>)
    requires AddsUnder(a, b, path) && AddsUnder(b, c, path)
    ensures AddsUnder(a, c, path)
  {
  }

  lemma SiblingsStayFresh(rest: seq<Pair>, path: seq<string>, key: string, before: set<seq<string>>,
      after: set<seq<string>>)
    requires ChildPathsFresh(rest, path, before) && AddsUnder(before, after, path + [key])
    requires key !in TableFields(rest)
    ensures ChildPathsFresh(rest, path, after)
    ensures AddsUnder(before, after, path)
  {
    forall k, h | k in TableFields(rest) && h in after
      ensures !(path + [k] <= h)
    {
      if h !in before {
        assert (path + [key])[|path|] == key && h[|path|] == key;
        assert (path + [k])[|path|] == k;
      }
    }
    forall h | h in after && h !in before
      ensures path <= h
    {
      assert path + [key] <= h;
    }
  }

  const EMPTY := Replay(map[], [], {})

  /** Replaying what the printer emits rebuilds the nested dictionary, at any depth; that the replay
      succeeds includes that no header is emitted twice and no key is set twice. */
  lemma PrintedReplays(entries: seq<Pair>)
    requires Proper(entries)
    ensures var result := ReplayLines(EMPTY, Dump(entries, [], []));
            result.Some? && result.value.root == Unordered(entries)
  {
    BodyReplays(entries, ScalarLines(entries), EMPTY);
    assert Dump(entries, [], []) == ScalarLines(entries) + DumpChildren(entries, [], ScalarLines(entries)) by {
      assert HeaderLines([], []) + ScalarLines(entries) == ScalarLines(entries);
      assert [] + ScalarLines(entries) == ScalarLines(entries);
    }
  }

  function Restricted(fields: map<string, Tree>, keys: set<string>): map<string, Tree> {
    map k | k in fields && k in keys :: fields[k]
  }

  /** Any nested dictionary can be listed, entry by entry. */
  lemma {:induction false} ListSome(t: Tree, keys: set<string>) returns (entries: seq<Pair>)
    requires t.Dict? && keys <= t.fields.Keys
    ensures Proper(entries) && KeySet(entries) == keys && Unordered(entries) == Restricted(t.fields, keys)
    decreases t, keys
  {
    if keys == {} {
      entries := [];
    } else {
      var k :| k in keys;
      var rest := ListSome(t, keys - {k});
      var node;
      match t.fields[k] {
        case Value(scalar) => node := Leaf(scalar);
        case Dict(inner) =>
          var below := ListSome(t.fields[k], inner.Keys);
          assert Restricted(inner, inner.Keys) == inner;
          node := Table(below);
      }
      entries := [Pair(k, node)] + rest;
      assert entries[1..] == rest;
      assert Restricted(t.fields, keys) == Restricted(t.fields, keys - {k})[k := t.fields[k]];
    }
  }

  lemma ListEntries(fields: map<string, Tree>) returns (entries: seq<Pair>)
    ensures Proper(entries) && Unordered(entries) == fields
  {
    entries := ListSome(Dict(fields), fields.Keys);
    assert Restricted(fields, fields.Keys) == fields;
  }
}
