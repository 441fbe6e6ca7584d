/**
 * The configuration store: the state in memory, the primary file and its one
 * backup, under loads, reloads, updates that may fail at any stage, restarts of
 * the process and outside damage to the primary file.
 */
module ConfigStore {
  import opened Wrappers
  import opened TomlPrinter
  import opened ServiceConfig

  datatype Parsed = Parsed(data: Fields, order: seq<string>)

  /** A parsed TOML document with the listing order of its touchpad settings. */
  type Document = d: Parsed | ListsSettings(d.order, d.data) witness Parsed(map[], [])

  /** `Garbage` is a file that exists but cannot be read or parsed. */
  datatype File = Missing | Garbage | Doc(doc: Document)

  function Read(f: File): (r: Option<State>)
    ensures r.Some? ==> Valid(r.value) && BUILT_INS <= r.value.power.profiles.Keys
  {
    if f.Doc? then
      match FromDict(f.doc.data, f.doc.order)
      case Ok(s) => Some(s)
      case Err(_) => None
    else None
  }

  datatype Ordering = Ordering(state: State, order: seq<string>)

  /** A new state together with the order in which its settings will be listed. */
  type Draft = d: Ordering | Lists(d.order, d.state.touchpad.Keys) witness Ordering(DefaultState(), [])

  function Written(d: Draft): (r: File) {
    SavedLists(d.state, d.order);
    Doc(Parsed(ToDict(d.state), d.order))
  }

  lemma WrittenReads(d: Draft)
    ensures Written(d).Doc?
    ensures Read(Written(d)) == Some(d.state) <==> Valid(d.state) && BUILT_INS <= d.state.power.profiles.Keys
  {
    hide ToDict, FromDict, Valid;
    StateRoundTripIff(d.state, d.order);
  }

  // ----------------------------------------------------------------------- steps

  datatype Store = Store(state: State, valid: bool, loaded: bool, primary: File, backup: File)

  function Fresh(primary: File, backup: File): (r: Store) { Store(DefaultState(), true, false, primary, backup) }

  /** Where a save stops; `copies` says whether copying the primary to the backup works. */
  datatype Fate =
    | NoDirectory                  // the directory cannot be made
    | WriteFails(copies: bool)     // before the new file replaces the old one
    | DirectoryLost(copies: bool)  // after it: the directory cannot be opened or closed for its sync
    | Saves(copies: bool)

  datatype Action =
    | Load
    | Reload
    | Update(draft: Draft, fate: Fate)
    | Restart
    | Damage(primary: File)
    | DamageBackup(copy: File)

  function LoadWith(s: Store, allowBackup: bool): (r: Store) {
    if s.primary.Missing? then s.(state := DefaultState(), valid := true, loaded := true)
    else if Read(s.primary).Some? then s.(state := Read(s.primary).value, valid := true, loaded := true)
    else if allowBackup && Read(s.backup).Some? then s.(state := Read(s.backup).value, valid := false, loaded := true)
    else s.(valid := false, loaded := true)
  }

  /** The backup after a save: the present primary, if that can still be read. */
  function BackedUp(s: Store, copies: bool): (r: File) {
    if copies && Read(s.primary).Some? then s.primary else s.backup
  }

  function UpdateWith(s: Store, draft: Draft, fate: Fate): (r: Store) {
    if !Valid(draft.state) then s
    else
      match fate
      case NoDirectory => s.(valid := false)
      case WriteFails(copies) => s.(backup := BackedUp(s, copies), valid := false)
      case DirectoryLost(copies) => s.(backup := BackedUp(s, copies), primary := Written(draft), valid := false)
      case Saves(copies) => Store(draft.state, true, true, Written(draft), BackedUp(s, copies))
  }

  predicate Succeeds(a: Action) { a.Update? && Valid(a.draft.state) && a.fate.Saves? }

  function Step(s: Store, a: Action): (r: Store) {
    match a
    case Load => LoadWith(s, !s.loaded)
    case Reload => LoadWith(s, false)
    case Update(draft, fate) => UpdateWith(s, draft, fate)
    case Restart => Fresh(s.primary, s.backup)
    case Damage(f) => s.(primary := f)
    case DamageBackup(f) => s.(backup := f)
  }

  function Run(s: Store, actions: seq<Action>): (r: Store) {
    if actions == [] then s else Step(Run(s, actions[..|actions|-1]), actions[|actions|-1])
  }

  // -------------------------------------------------------------- over every run

  /** The state in memory is always valid. */
  lemma {:induction false} MemoryAlwaysValid(primary: File, backup: File, actions: seq<Action>)
    ensures Valid(Run(Fresh(primary, backup), actions).state)
  {
    hide Valid, Read, DefaultState;
    DefaultValid();
    if actions != [] {
      MemoryAlwaysValid(primary, backup, actions[..|actions|-1]);
    }
  }

  /** A backup that can be read is only ever replaced by another one that can, as long as nobody
      outside the store touches it. */
  lemma {:induction false} BackupStaysGood(s: Store, actions: seq<Action>)
    requires Read(s.backup).Some? && forall i :: 0 <= i < |actions| ==> !actions[i].DamageBackup?
    ensures Read(Run(s, actions).backup).Some?
  {
    hide Valid, Read, DefaultState, Written;
    if actions != [] {
      BackupStaysGood(s, actions[..|actions|-1]);
    }
  }

  /** An update that fails leaves memory alone and the primary holding the old or the new document. */
  lemma FailedUpdate(s: Store, draft: Draft, fate: Fate)
    requires !Succeeds(Update(draft, fate))
    ensures var t := UpdateWith(s, draft, fate);
            && t.state == s.state && t.loaded == s.loaded
            && t.primary == (if Valid(draft.state) && fate.DirectoryLost? then Written(draft) else s.primary)
            && (t.backup == s.backup || (t.backup == s.primary && Read(s.primary).Some?))
            && (Valid(draft.state) ==> !t.valid)
            && (!Valid(draft.state) ==> t == s)
  {
    hide Valid, Read, Written;
  }

  /** An update that succeeds leaves memory and disk equal exactly when the new state has the built-in profiles. */
  lemma SuccessfulUpdate(s: Store, draft: Draft, fate: Fate)
    requires Succeeds(Update(draft, fate))
    ensures var t := UpdateWith(s, draft, fate);
            && t.state == draft.state && t.valid && t.loaded && t.primary == Written(draft)
            && t.backup == (if fate.copies && Read(s.primary).Some? then s.primary else s.backup)
            && (Read(t.primary) == Some(t.state) <==> BUILT_INS <= draft.state.power.profiles.Keys)
  {
    hide Valid, Read, Written;
    WrittenReads(draft);
  }

  /** What `valid` promises: disk and memory agree. */
  ghost predicate InSync(s: Store) {
    s.valid && s.loaded ==> (s.primary.Missing? && s.state == DefaultState()) || Read(s.primary) == Some(s.state)
  }

  /** Nobody damages the file and every new state keeps the built-in profiles. */
  ghost predicate Undisturbed(a: Action) {
    !a.Damage? && (a.Update? ==> BUILT_INS <= a.draft.state.power.profiles.Keys)
  }

  /** As long as that holds, a store that calls itself valid agrees with its file, over whole runs. */
  lemma {:induction false} ValidMeansInSync(primary: File, backup: File, actions: seq<Action>)
    requires forall i :: 0 <= i < |actions| ==> Undisturbed(actions[i])
    ensures InSync(Run(Fresh(primary, backup), actions))
  {
    hide Valid, Read, DefaultState, Written, Undisturbed;
    if actions != [] {
      var n := |actions| - 1;
      ValidMeansInSync(primary, backup, actions[..n]);
      StepInSync(Run(Fresh(primary, backup), actions[..n]), actions[n]);
    }
  }

  lemma StepInSync(s: Store, a: Action)
    requires InSync(s) && Undisturbed(a)
    ensures InSync(Step(s, a))
  {
    hide Valid, Read, DefaultState, Written;
    if a.Update? { WrittenReads(a.draft); }
  }

  // -------------------------------------------------------------------- recovery

  /** A fresh process that finds its primary damaged, but present, starts from the backup and says so. */
  lemma RecoversBackup(s: Store, damaged: File)
    requires !damaged.Missing? && Read(damaged).None? && Read(s.backup).Some?
    ensures var t := Run(s, [Restart, Damage(damaged), Load]);
            Some(t.state) == Read(s.backup) && !t.valid && t.loaded && t.backup == s.backup
  {
    hide Valid, Read, DefaultState;
    RunThree(s, Restart, Damage(damaged), Load);
  }

  lemma RunThree(s: Store, a: Action, b: Action, c: Action)
    ensures Run(s, [a, b, c]) == Step(Step(Step(s, a), b), c)
  {
    hide Step;
    assert [a, b, c][..2] == [a, b] && [a, b][..1] == [a] && [a][..0] == [];
    assert Run(s, [a]) == Step(s, a);
    assert Run(s, [a, b]) == Step(Step(s, a), b);
  }

  /** After two saves, losing the second file brings the first state back. */
  lemma RecoversPreviousSave(s: Store, first: Draft, second: Draft, c: bool, damaged: File)
    requires Valid(first.state) && Valid(second.state) && BUILT_INS <= first.state.power.profiles.Keys
    requires !damaged.Missing? && Read(damaged).None?
    ensures var saved := UpdateWith(UpdateWith(s, first, Saves(c)), second, Saves(true));
            Run(saved, [Restart, Damage(damaged), Load]).state == first.state
  {
    hide Valid, Read, DefaultState, Written;
    WrittenReads(first);
    RecoversBackup(UpdateWith(UpdateWith(s, first, Saves(c)), second, Saves(true)), damaged);
  }

  /** A restart finds the last saved state, and the refused one when only the directory was lost. */
  lemma RestartFinds(s: Store, draft: Draft, fate: Fate)
    requires Valid(draft.state) && BUILT_INS <= draft.state.power.profiles.Keys
    ensures var t := Step(Step(UpdateWith(s, draft, fate), Restart), Load);
            && (fate.Saves? || fate.DirectoryLost? ==> t.state == draft.state && t.valid)
            && (fate.WriteFails? || fate.NoDirectory? ==> t.primary == s.primary)
  {
    hide Valid, Read, DefaultState, Written;
    WrittenReads(draft);
  }

  /** A primary that is missing, rather than damaged, means defaults even when a good backup is there. */
  lemma MissingMeansDefaults(s: Store)
    requires s.primary.Missing?
    ensures var t := Step(Step(s, Restart), Load);
            t.state == DefaultState() && t.valid && t.backup == s.backup
  {
    hide Valid, DefaultState, Read;
  }

  /** Reloading a damaged primary never replaces a live state. */
  lemma ReloadKeepsLive(s: Store)
    requires !s.primary.Missing? && Read(s.primary).None?
    ensures Step(s, Reload) == s.(valid := false, loaded := true)
    ensures s.loaded ==> Step(s, Load) == s.(valid := false)
  {
    hide Valid, Read, DefaultState;
  }

  /** The directory cannot be opened after the new file is in place: the update is refused, memory keeps
      the old state, and a restart finds the new one. A sync that fails on an open directory is
      ignored, and the update succeeds. */
  lemma DirectoryLostExample()
    ensures var draft := Ordering(DefaultState().(gpu := true), []);
            var s := UpdateWith(Fresh(Missing, Missing), draft, DirectoryLost(true));
            var t := Step(Step(s, Restart), Load);
            !s.state.gpu && !s.valid && t.state.gpu && t.valid
  {
    hide Read, Written, ValidPower, ValidFan, ValidGestures, ValidTouchpad, ValidBattery, DefaultProfiles;
    DefaultValid();
    var draft := Ordering(DefaultState().(gpu := true), []);
    RestartFinds(Fresh(Missing, Missing), draft, DirectoryLost(true));
  }

  /** An update to a state without built-in profiles succeeds, and the file then says something else. */
  lemma WithoutBuiltInsDiverges()
    ensures var draft := Ordering(WithoutBuiltIns(), []);
            var t := UpdateWith(Fresh(Missing, Missing), draft, Saves(true));
            t.valid && t.state == WithoutBuiltIns() && Read(t.primary) != Some(t.state)
  {
    hide Read, Written, Valid, ToDict, WithoutBuiltIns;
    WithoutBuiltInsValid();
    LacksBuiltIns();
    SuccessfulUpdate(Fresh(Missing, Missing), Ordering(WithoutBuiltIns(), []), Saves(true));
  }

  /** Two stores that differ in nothing but their backups. */
  predicate SameButBackup(s: Store, t: Store) { s.(backup := t.backup) == t }

  /** Until the process restarts, a store that has loaded never reads its backup: over every run the
      state in memory, the flags and the primary do not depend on it. */
  lemma {:induction false} LiveNeverFromBackup(s: Store, backup: File, actions: seq<Action>)
    requires s.loaded && forall i :: 0 <= i < |actions| ==> !actions[i].Restart?
    ensures Run(s, actions).loaded && SameButBackup(Run(s, actions), Run(s.(backup := backup), actions))
  {
    hide Step, SameButBackup;
    if actions == [] {
      assert SameButBackup(s, s.(backup := backup)) by { OwnBackup(s, backup); }
    } else {
      var n := |actions| - 1;
      LiveNeverFromBackup(s, backup, actions[..n]);
      StepIgnoresBackup(Run(s, actions[..n]), Run(s.(backup := backup), actions[..n]), actions[n]);
    }
  }

  lemma OwnBackup(s: Store, backup: File)
    ensures SameButBackup(s, s.(backup := backup))
  {}

  lemma StepIgnoresBackup(s: Store, t: Store, a: Action)
    requires s.loaded && SameButBackup(s, t) && !a.Restart?
    ensures Step(s, a).loaded && SameButBackup(Step(s, a), Step(t, a))
  {
    hide Valid, Read, DefaultState, Written;
  }

  // ---------------------------------------------------------------------- object

  /** The store as an object; the files are part of what it changes. */
  class Config {
    var state: State
    var valid: bool
    var loaded: bool
    var primary: File
    var backup: File

    function View(): (r: Store) reads this { Store(state, valid, loaded, primary, backup) }

    constructor (onDisk: File, copy: File)
      ensures View() == Fresh(onDisk, copy)
    {
      state, valid, loaded := DefaultState(), true, false;
      primary, backup := onDisk, copy;
    }

    method LoadFile(allowBackup: bool)
      modifies this
      ensures View() == LoadWith(old(View()), allowBackup)
    {
      hide Valid, Read, DefaultState, ListsSettings;
      loaded := true;
      if primary.Missing? {
        state, valid := DefaultState(), true;
        return;
      }
      var found := Read(primary);
      if found.Some? {
        state, valid := found.value, true;
        return;
      }
      valid := false;
      if allowBackup {
        var recovered := Read(backup);
        if recovered.Some? {
          state := recovered.value;
        }
      }
    }

    method LoadState()
      modifies this
      ensures View() == Step(old(View()), Load)
    {
      hide LoadWith;
      LoadFile(!loaded);
    }

    method ReloadState()
      modifies this
      ensures View() == Step(old(View()), Reload)
    {
      hide LoadWith;
      LoadFile(false);
    }

    /** Back up, write beside, replace, synchronise; says how far it got. */
    method SaveAtomic(draft: Draft, fate: Fate) returns (ok: bool)
      modifies this`valid, this`primary, this`backup
      ensures ok == fate.Saves? && valid == ok
      ensures primary == (if fate.Saves? || fate.DirectoryLost? then Written(draft) else old(primary))
      ensures backup == (if fate.NoDirectory? then old(backup) else BackedUp(old(View()), fate.copies))
    {
      hide Valid, Read, Written, ListsSettings;
      valid := false;
      if fate.NoDirectory? {
        return false;
      }
      if !primary.Missing? {
        var current := Read(primary);
        if current.Some? && fate.copies {
          backup := primary;
        }
      }
      assert primary.Missing? ==> Read(primary).None? by { MissingUnread(); }
      if fate.WriteFails? {
        return false;
      }
      primary := Written(draft);
      if fate.DirectoryLost? {
        return false;
      }
      valid := true;
      return true;
    }

    /** Validate the new state, save it, and only then adopt it. */
    method UpdateState(draft: Draft, fate: Fate) returns (ok: bool)
      modifies this
      ensures View() == Step(old(View()), Update(draft, fate))
      ensures ok == Succeeds(Update(draft, fate))
    {
      hide Valid, Read, Written;
      if !Valid(draft.state) {
        return false;
      }
      ok := SaveAtomic(draft, fate);
      if ok {
        state, loaded := draft.state, true;
      }
    }
  }

  lemma MissingUnread()
    ensures Read(Missing).None?
  {}
}
