/** The snapshot store, the refreshing client and the view as objects. */
module NotificationObjects {
  import opened Wrappers
  import opened ChangeNotification

  function Without(items: seq<string>, item: string): (r: seq<string>)
    ensures item !in r && forall x | x in items && x != item :: x in r
    ensures forall x | x in r :: x in items
  {
    if items == [] then []
    else (if items[0] == item then [] else [items[0]]) + Without(items[1..], item)
  }

  const MAX_ERRORS := 10

  function Numbers(n: nat): seq<nat> {
    seq(n, i requires 0 <= i < n => i + 1)
  }

  /** `SnapshotStore`: one value per domain, the stale domains, and a sequence that counts changes.
      `signals` is what the change subscriber has sent. */
  class SnapshotStore<V(==)> {
    var values: map<string, V>
    var stale: seq<string>
    var errors: seq<string>
    var sequence: nat
    var signals: seq<nat>

    /** One signal per change, numbered without gaps. */
    ghost predicate Valid()
      reads this
    {
      signals == Numbers(sequence) && |errors| <= MAX_ERRORS
    }

    constructor (values: map<string, V>)
      ensures Valid() && this.values == values && sequence == 0 && stale == [] && errors == []
    {
      this.values := values;
      stale, errors, sequence, signals := [], [], 0, [];
    }

    method Notify()
      requires sequence > 0 && signals == Numbers(sequence - 1)
      modifies this`signals
      ensures signals == Numbers(sequence)
    {
      signals := signals + [sequence];
    }

    /** `update`: nothing happens unless the value differs or the domain was stale. */
    method Update(domain: string, value: V) returns (current: nat)
      requires Valid() && domain in values
      modifies this
      ensures Valid() && current == sequence && errors == old(errors)
      ensures old(values[domain]) == value && domain !in old(stale) ==>
                sequence == old(sequence) && values == old(values) && stale == old(stale)
      ensures old(values[domain]) != value || domain in old(stale) ==>
                sequence == old(sequence) + 1 && values == old(values)[domain := value]
                && stale == Without(old(stale), domain)
    {
      if values[domain] == value && domain !in stale {
        return sequence;
      }
      values := values[domain := value];
      stale := Without(stale, domain);
      sequence := sequence + 1;
      Notify();
      current := sequence;
    }

    /** `mark_stale`: the last known good value stays, the error list stays bounded. */
    method MarkStale(domain: string, error: string) returns (current: nat)
      requires Valid()
      modifies this
      ensures Valid() && current == sequence && values == old(values)
      ensures domain in old(stale) ==> sequence == old(sequence) && stale == old(stale) && errors == old(errors)
      ensures domain !in old(stale) ==>
                sequence == old(sequence) + 1 && stale == old(stale) + [domain]
                && (error == "" || error in old(errors) ==> errors == old(errors))
                && (error != "" && error !in old(errors) ==>
                      errors == (if |old(errors)| < MAX_ERRORS then old(errors) else old(errors)[1..]) + [error])
    {
      if domain in stale {
        return sequence;
      }
      stale := stale + [domain];
      if error != "" && error !in errors {
        var longer := errors + [error];
        errors := if |longer| > MAX_ERRORS then longer[|longer| - MAX_ERRORS..] else longer;
      }
      sequence := sequence + 1;
      Notify();
      current := sequence;
    }
  }

  /** `GuiState`, as far as sequences go. */
  class GuiState {
    var shown: Option<nat>
    var connected: bool
    var allowReset: bool

    ghost function Screen(): View
      reads this
    {
      View(shown, connected, allowReset)
    }

    constructor ()
      ensures Screen() == View(None, false, true)
    {
      shown, connected, allowReset := None, false, true;
    }

    method ShowSnapshot(sequence: nat) returns (changed: bool)
      modifies this
      ensures Screen() == SetSnapshot(old(Screen()), sequence)
      ensures changed <==> shown != old(shown)
    {
      changed := false;
      var old_seq: int := if shown.Some? then shown.value else -1;
      if !allowReset && sequence < old_seq {
        return;
      }
      shown := Some(sequence);
      allowReset := false;
      changed := sequence != old_seq;
    }

    method ShowConnected(connected: bool)
      modifies this
      ensures Screen() == SetConnected(old(Screen()), connected)
    {
      if connected != this.connected {
        this.connected := connected;
        if !connected {
          allowReset := true;
        }
      }
    }
  }

  /** The client's side of the refresh: what it keeps between two suspension points. */
  class RefreshClient {
    const gui: GuiState
    var pending: Option<nat>
    var task: Task

    /** The client as part of a system in which the rest is as given. */
    ghost function In(rest: System): System
      reads this, gui
    {
      rest.(pending := pending, task := task, view := gui.Screen())
    }

    constructor (gui: GuiState)
      ensures this.gui == gui && pending == None && task == Idle(Never)
    {
      this.gui := gui;
      pending, task := None, Idle(Never);
    }

    method QueueSnapshotRefresh(sequence: nat, ghost rest: System)
      modifies this
      ensures In(rest) == QueueRefresh(old(In(rest)), sequence)
    {
      if pending.None? || sequence > pending.value {
        pending := Some(sequence);
      }
      if task.Idle? {
        task := Starting([]);
      }
    }

    /** `_notify_snapshot` up to its next await. */
    method NotifySnapshot(ghost rest: System)
      modifies this, gui
      ensures In(rest) == RefreshStep(old(In(rest)))
    {
      match task
      case Starting(bounds) =>
        if pending.None? {
          task := Idle(Nothing);
        } else {
          task := Asking(bounds + [pending.value]);
          pending := None;
        }
      case Answered(bounds, reply) =>
        var _ := gui.ShowSnapshot(reply);
        task := Delivered(bounds, reply);
      case Delivered(bounds, reply) =>
        var required := Last(bounds);
        if pending.Some? && pending.value > required {
          required := pending.value;
        }
        if reply >= required {
          pending := None;
          task := Idle(Covered(reply));
        } else if |bounds| >= MAX_COALESCED_REFRESHES {
          pending := None;
          task := Idle(GaveUp(bounds + [required]));
        } else {
          pending := Some(required);
          task := Starting(bounds);
        }
      case _ =>
    }
  }
}
