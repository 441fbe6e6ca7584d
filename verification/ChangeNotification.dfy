/** Change notification end to end: the server's numbered snapshots, FIFO change signals, the
client's coalescing refresh with its bounded retry, and the view's stale-snapshot filter.

A step is what one participant does between two suspension points. Disabled steps change
nothing, so every sequence of steps is a run.
*/
module ChangeNotification {
  import opened Wrappers

  const MAX_COALESCED_REFRESHES := 4

  /** Where the refresh task stands. `bounds` lists what was required at the start of each attempt. */
  datatype Task =
    | Idle(end: End)
    | Starting(bounds: seq<nat>)                    // about to read the pending sequence
    | Asking(bounds: seq<nat>)                      // snapshot requested, not answered yet
    | Answered(bounds: seq<nat>, reply: nat)        // answered by the server
    | Delivered(bounds: seq<nat>, reply: nat)       // subscribers called

  datatype End =
    | Never
    | Nothing                       // no sequence was pending
    | Covered(reply: nat)
    | GaveUp(bounds: seq<nat>)      // what was required, attempt by attempt, and at the end
    | Failed                        // the request raised, or the task was cancelled

  datatype View = View(shown: Option<nat>, connected: bool, allowReset: bool)

  datatype System = System(
    sequence: nat,              // server store
    signals: seq<nat>,          // change signals on their way
    received: nat,              // highest sequence signalled to the client so far, 0 if none
    pending: Option<nat>,       // _pending_sequence
    task: Task,
    polls: seq<nat>,            // answers to other fetches, not yet shown
    view: View)

  const INITIAL := System(0, [], 0, None, Idle(Never), [], View(None, true, true))

  datatype Action =
    | Change                    // the store replaces a domain and notifies
    | Receive                   // the client handles one signal
    | Refresh                   // the refresh task runs to its next suspension point
    | Answer                    // the server answers the refresh request
    | Fail                      // the refresh request raises
    | PollAnswer                // the server answers some other fetch
    | PollShow(index: nat)      // the view gets that answer
    | Connection(connected: bool)

  function Max(a: nat, b: nat): nat {
    if a < b then b else a
  }

  function PendingOr0(pending: Option<nat>): nat {
    if pending.Some? then pending.value else 0
  }

  /** `GuiState.set_snapshot`. */
  function SetSnapshot(v: View, sequence: nat): View {
    if !v.allowReset && v.shown.Some? && sequence < v.shown.value then v
    else v.(shown := Some(sequence), allowReset := false)
  }

  /** `GuiState.set_connected`. */
  function SetConnected(v: View, connected: bool): View {
    if connected == v.connected then v
    else v.(connected := connected, allowReset := v.allowReset || !connected)
  }

  function Last(bounds: seq<nat>): nat {
    if bounds == [] then 0 else bounds[|bounds| - 1]
  }

  /** `_queue_snapshot_refresh`. */
  function QueueRefresh(s: System, sequence: nat): System {
    var pending := if s.pending.None? || sequence > s.pending.value then Some(sequence) else s.pending;
    s.(pending := pending, task := if s.task.Idle? then Starting([]) else s.task)
  }

  /** One stretch of `_notify_snapshot`. */
  function RefreshStep(s: System): System {
    match s.task
    case Starting(bounds) =>
      if s.pending.None? then s.(task := Idle(Nothing))
      else s.(pending := None, task := Asking(bounds + [s.pending.value]))
    case Answered(bounds, reply) =>
      s.(task := Delivered(bounds, reply), view := SetSnapshot(s.view, reply))
    case Delivered(bounds, reply) =>
      var required := Max(Last(bounds), PendingOr0(s.pending));
      if reply >= required then s.(pending := None, task := Idle(Covered(reply)))
      else if |bounds| >= MAX_COALESCED_REFRESHES then s.(pending := None, task := Idle(GaveUp(bounds + [required])))
      else s.(pending := Some(required), task := Starting(bounds))
    case _ => s
  }

  function Step(s: System, a: Action): System {
    match a
    case Change => s.(sequence := s.sequence + 1, signals := s.signals + [s.sequence + 1])
    case Receive =>
      if s.signals == [] then s
      else
        QueueRefresh(s.(signals := s.signals[1..], received := Max(s.received, s.signals[0])), s.signals[0])
    case Refresh => RefreshStep(s)
    case Answer => if s.task.Asking? then s.(task := Answered(s.task.bounds, s.sequence)) else s
    case Fail => if s.task.Asking? || s.task.Answered? then s.(task := Idle(Failed)) else s
    case PollAnswer => s.(polls := s.polls + [s.sequence])
    case PollShow(i) =>
      if i < |s.polls| then s.(polls := s.polls[..i] + s.polls[i + 1..], view := SetSnapshot(s.view, s.polls[i])) else s
    case Connection(connected) => s.(view := SetConnected(s.view, connected))
  }

  function Exec(s: System, actions: seq<Action>): System
    decreases |actions|
  {
    if actions == [] then s else Exec(Step(s, actions[0]), actions[1..])
  }

  // -- The invariant ----------------------------------------------------------------------------

  ghost predicate Increasing(xs: seq<nat>) {
    forall i, j | 0 <= i < j < |xs| :: xs[i] < xs[j]
  }

  /** Signals arrive in increasing order and never ahead of the store. */
  ghost predicate Signalled(s: System) {
    && Increasing(s.signals)
    && s.received <= s.sequence
    && (forall i | 0 <= i < |s.signals| :: s.received < s.signals[i] <= s.sequence)
    && (s.pending.Some? ==> s.pending.value <= s.received)
  }

  /** Everything signalled so far is either required, pending, or shown by the snapshot that ended
      the last refresh; the requirement rises from attempt to attempt, and a reply is never older
      than what was required when it was asked for. */
  ghost predicate Tracked(s: System) {
    match s.task
    case Idle(Covered(reply)) => s.pending.None? && s.received <= reply <= s.sequence
    case Idle(GaveUp(bounds)) => |bounds| == MAX_COALESCED_REFRESHES + 1 && Increasing(bounds)
    case Idle(Never) => s.received == 0 && s.pending.None?
    case Idle(Nothing) => false
    case Idle(Failed) => true
    case Starting(bounds) =>
      && |bounds| < MAX_COALESCED_REFRESHES && Increasing(bounds)
      && s.pending.Some? && s.received <= s.pending.value && (bounds != [] ==> Last(bounds) < s.pending.value)
    case Asking(bounds) => Attempt(s, bounds)
    case Answered(bounds, reply) => Attempt(s, bounds) && Last(bounds) <= reply <= s.sequence
    case Delivered(bounds, reply) => Attempt(s, bounds) && Last(bounds) <= reply <= s.sequence
  }

  ghost predicate Attempt(s: System, bounds: seq<nat>) {
    && 0 < |bounds| <= MAX_COALESCED_REFRESHES && Increasing(bounds)
    && Last(bounds) <= s.received <= s.sequence
    && s.received <= Max(Last(bounds), PendingOr0(s.pending))
  }

  ghost predicate Inv(s: System) {
    Signalled(s) && Tracked(s)
  }

  lemma IncreasingAppend(xs: seq<nat>, x: nat)
    requires Increasing(xs) && (xs != [] ==> Last(xs) < x)
    ensures Increasing(xs + [x]) && Last(xs + [x]) == x
  {
  }

  lemma ChangeKeeps(s: System)
    requires Inv(s)
    ensures Inv(Step(s, Change))
  {
    IncreasingAppend(s.signals, s.sequence + 1);
  }

  lemma ReceiveKeeps(s: System)
    requires Inv(s)
    ensures Inv(Step(s, Receive))
  {
    var t := Step(s, Receive);
    if s.signals != [] {
      assert Signalled(t);
    }
  }

  lemma RefreshKeeps(s: System)
    requires Inv(s)
    ensures Inv(Step(s, Refresh))
  {
    match s.task
    case Starting(bounds) =>
      IncreasingAppend(bounds, s.pending.value);
    case Delivered(bounds, reply) =>
      var required := Max(Last(bounds), PendingOr0(s.pending));
      if reply < required {
        IncreasingAppend(bounds, required);
      }
    case _ =>
  }

  lemma StepKeeps(s: System, a: Action)
    requires Inv(s)
    ensures Inv(Step(s, a))
  {
    match a
    case Change => ChangeKeeps(s);
    case Receive => ReceiveKeeps(s);
    case Refresh => RefreshKeeps(s);
    case _ =>
      hide SetSnapshot, SetConnected, Increasing;
  }

  lemma {:induction false} ExecKeeps(s: System, actions: seq<Action>)
    requires Inv(s)
    ensures Inv(Exec(s, actions))
    decreases |actions|
  {
    if actions != [] {
      StepKeeps(s, actions[0]);
      ExecKeeps(Step(s, actions[0]), actions[1..]);
    }
  }

  // -- Theorems -----------------------------------------------------------------------------------

  /** In every run: when the refresh task has ended by coverage, the snapshot it delivered is at
      least as new as every sequence signalled so far. */
  lemma CoverageIsComplete(actions: seq<Action>)
    ensures var s := Exec(INITIAL, actions);
            s.task.Idle? && s.task.end.Covered? ==> s.received <= s.task.end.reply <= s.sequence
  {
    ExecKeeps(INITIAL, actions);
  }

  lemma {:induction false} ExecSnoc(s: System, actions: seq<Action>)
    requires actions != []
    ensures var n := |actions| - 1; Exec(s, actions) == Step(Exec(s, actions[..n]), actions[n])
    decreases |actions|
  {
    if |actions| > 1 {
      var n := |actions| - 1;
      assert actions[..n][1..] == actions[1..][..n - 1];
      ExecSnoc(Step(s, actions[0]), actions[1..]);
    }
  }

  /** At step p of the run the client receives a signal newer than the answer of the refresh with these
      requirements, between that answer and the final check. */
  predicate OvertakenAt(actions: seq<Action>, bounds: seq<nat>, reply: nat, p: nat) {
    && p < |actions| && actions[p].Receive?
    && var s := Exec(INITIAL, actions[..p]);
       && s.signals != [] && reply < s.signals[0]
       && (s.task.Answered? || s.task.Delivered?) && s.task.bounds == bounds && s.task.reply == reply
  }

  ghost predicate Overtaken(actions: seq<Action>, bounds: seq<nat>, reply: nat) {
    exists p: nat :: OvertakenAt(actions, bounds, reply, p)
  }

  /** Refresh number i was overtaken, with whatever it was answered. */
  ghost predicate Heard(actions: seq<Action>, bounds: seq<nat>, i: nat) {
    i < |bounds| && EverOvertaken(actions, bounds[..i + 1])
  }

  ghost predicate EverOvertaken(actions: seq<Action>, bounds: seq<nat>) {
    exists reply: nat :: Overtaken(actions, bounds, reply)
  }

  ghost predicate HeardBelow(actions: seq<Action>, bounds: seq<nat>, n: nat) {
    forall i | 0 <= i < n :: Heard(actions, bounds, i)
  }

  /** What the run so far has heard, refresh by refresh. */
  ghost predicate History(actions: seq<Action>, s: System) {
    match s.task
    case Starting(bounds) => HeardBelow(actions, bounds, |bounds|)
    case Asking(bounds) => bounds != [] && HeardBelow(actions, bounds, |bounds| - 1)
    case Answered(bounds, reply) => Underway(actions, s, bounds, reply)
    case Delivered(bounds, reply) => Underway(actions, s, bounds, reply)
    case Idle(GaveUp(bounds)) => HeardBelow(actions, bounds, MAX_COALESCED_REFRESHES)
    case _ => true
  }

  /** The refresh under way has been overtaken exactly if a signal newer than its answer was received. */
  ghost predicate Underway(actions: seq<Action>, s: System, bounds: seq<nat>, reply: nat) {
    && bounds != [] && HeardBelow(actions, bounds, |bounds| - 1)
    && (s.received > reply <==> Overtaken(actions, bounds, reply))
  }

  lemma OvertakenGrows(actions: seq<Action>, a: Action, bounds: seq<nat>, reply: nat)
    ensures Overtaken(actions, bounds, reply) ==> Overtaken(actions + [a], bounds, reply)
  {
    if Overtaken(actions, bounds, reply) {
      var p: nat :| OvertakenAt(actions, bounds, reply, p);
      assert (actions + [a])[..p] == actions[..p];
      assert OvertakenAt(actions + [a], bounds, reply, p);
    }
  }

  lemma HeardGrows(actions: seq<Action>, a: Action, bounds: seq<nat>, more: seq<nat>, n: nat)
    requires HeardBelow(actions, bounds, n) && n <= |bounds|
    ensures HeardBelow(actions + [a], bounds + more, n)
  {
    hide Overtaken;
    forall i | 0 <= i < n ensures Heard(actions + [a], bounds + more, i) {
      assert Heard(actions, bounds, i);
      var reply: nat :| Overtaken(actions, bounds[..i + 1], reply);
      assert (bounds + more)[..i + 1] == bounds[..i + 1];
      OvertakenGrows(actions, a, bounds[..i + 1], reply);
    }
  }

  lemma HeardStays(actions: seq<Action>, a: Action, bounds: seq<nat>, n: nat)
    requires HeardBelow(actions, bounds, n) && n <= |bounds|
    ensures HeardBelow(actions + [a], bounds, n)
  {
    hide HeardBelow;
    HeardGrows(actions, a, bounds, [], n);
    assert bounds + [] == bounds;
  }

  lemma {:induction false} ReceivedGrows(s: System, actions: seq<Action>)
    ensures s.received <= Exec(s, actions).received
    decreases |actions|
  {
    if actions != [] {
      ReceivedGrows(Step(s, actions[0]), actions[1..]);
    }
  }

  /** A signal received at step p is counted ever after. */
  lemma OvertakenCounts(actions: seq<Action>, bounds: seq<nat>, reply: nat)
    requires Overtaken(actions, bounds, reply)
    ensures Exec(INITIAL, actions).received > reply
  {
    var p: nat :| OvertakenAt(actions, bounds, reply, p);
    var s := Exec(INITIAL, actions[..p]);
    ExecConcat(INITIAL, actions[..p], actions[p..]);
    assert actions[..p] + actions[p..] == actions && actions[p..][0] == Receive;
    ReceivedGrows(Step(s, Receive), actions[p..][1..]);
  }

  /** Nothing has been received while this refresh was answered, as long as it was not answered. */
  lemma AnswerIsFresh(actions: seq<Action>, s: System)
    requires s == Exec(INITIAL, actions) && Inv(s) && s.task.Asking?
    ensures !Overtaken(actions + [Answer], s.task.bounds, s.sequence)
  {
    var more := actions + [Answer];
    ExecSnoc(INITIAL, more);
    assert more[..|actions|] == actions;
    if Overtaken(more, s.task.bounds, s.sequence) {
      OvertakenCounts(more, s.task.bounds, s.sequence);
    }
  }

  lemma ReceiveHistory(actions: seq<Action>, s: System)
    requires s == Exec(INITIAL, actions) && Inv(s) && History(actions, s)
    ensures History(actions + [Receive], Step(s, Receive))
  {
    hide HeardBelow;
    match s.task
    case Starting(bounds) => HeardStays(actions, Receive, bounds, |bounds|);
    case Idle(end) =>
      if end.GaveUp? {
        HeardStays(actions, Receive, end.bounds, MAX_COALESCED_REFRESHES);
      }
      NothingBelow(actions + [Receive]);
    case Asking(bounds) => HeardStays(actions, Receive, bounds, |bounds| - 1);
    case Answered(bounds, reply) => ReceiveUnderway(actions, s, bounds, reply);
    case Delivered(bounds, reply) => ReceiveUnderway(actions, s, bounds, reply);
  }

  lemma NothingBelow(actions: seq<Action>)
    ensures HeardBelow(actions, [], 0)
  {
  }

  lemma ReceiveUnderway(actions: seq<Action>, s: System, bounds: seq<nat>, reply: nat)
    requires s == Exec(INITIAL, actions) && Inv(s) && Underway(actions, s, bounds, reply)
    requires s.task == Answered(bounds, reply) || s.task == Delivered(bounds, reply)
    ensures Underway(actions + [Receive], Step(s, Receive), bounds, reply)
  {
    hide HeardBelow, Overtaken;
    var more, t := actions + [Receive], Step(s, Receive);
    HeardStays(actions, Receive, bounds, |bounds| - 1);
    OvertakenGrows(actions, Receive, bounds, reply);
    if t.received > reply && s.received <= reply {
      assert more[..|actions|] == actions;
      NowOvertaken(more, bounds, reply, |actions|);
    }
    if Overtaken(more, bounds, reply) {
      OvertakenCounts(more, bounds, reply);
      ExecSnoc(INITIAL, more);
      assert more[..|actions|] == actions;
    }
  }

  lemma NowOvertaken(actions: seq<Action>, bounds: seq<nat>, reply: nat, p: nat)
    requires OvertakenAt(actions, bounds, reply, p)
    ensures Overtaken(actions, bounds, reply)
  {
  }

  lemma QuietReceived(s: System, a: Action)
    requires !a.Receive?
    ensures Step(s, a).received == s.received
  {
    hide SetSnapshot, SetConnected;
  }

  /** Steps that receive nothing leave a refresh under way as overtaken as it was. */
  lemma QuietUnderway(actions: seq<Action>, s: System, bounds: seq<nat>, reply: nat, a: Action)
    requires s == Exec(INITIAL, actions) && Underway(actions, s, bounds, reply) && !a.Receive?
    ensures Step(s, a).received == s.received && Underway(actions + [a], Step(s, a), bounds, reply)
  {
    hide HeardBelow, Overtaken, Step, Exec;
    var more := actions + [a];
    QuietReceived(s, a);
    HeardStays(actions, a, bounds, |bounds| - 1);
    OvertakenGrows(actions, a, bounds, reply);
    if Overtaken(more, bounds, reply) {
      OvertakenCounts(more, bounds, reply);
      ExecSnoc(INITIAL, more);
      assert more[..|actions|] == actions;
    }
  }

  lemma RefreshHistory(actions: seq<Action>, s: System)
    requires s == Exec(INITIAL, actions) && Inv(s) && History(actions, s)
    ensures History(actions + [Refresh], Step(s, Refresh))
  {
    hide HeardBelow, Overtaken, SetSnapshot;
    match s.task
    case Starting(bounds) => HeardGrows(actions, Refresh, bounds, [s.pending.value], |bounds|);
    case Delivered(bounds, reply) =>
      QuietUnderway(actions, s, bounds, reply, Refresh);
      var required := Max(Last(bounds), PendingOr0(s.pending));
      if reply < required {
        AllHeard(actions + [Refresh], bounds, reply);
        HeardMore(actions + [Refresh], bounds, [required], |bounds|);
      }
    case Answered(bounds, reply) => QuietUnderway(actions, s, bounds, reply, Refresh);
    case Asking(bounds) => HeardStays(actions, Refresh, bounds, |bounds| - 1);
    case Idle(end) =>
      if end.GaveUp? {
        HeardStays(actions, Refresh, end.bounds, MAX_COALESCED_REFRESHES);
      }
  }

  lemma AllHeard(actions: seq<Action>, bounds: seq<nat>, reply: nat)
    requires bounds != [] && HeardBelow(actions, bounds, |bounds| - 1) && Overtaken(actions, bounds, reply)
    ensures HeardBelow(actions, bounds, |bounds|)
  {
    hide Overtaken;
    assert bounds[..|bounds|] == bounds;
    assert Heard(actions, bounds, |bounds| - 1);
  }

  lemma HeardMore(actions: seq<Action>, bounds: seq<nat>, more: seq<nat>, n: nat)
    requires HeardBelow(actions, bounds, n) && n <= |bounds|
    ensures HeardBelow(actions, bounds + more, n)
  {
    hide Overtaken;
    forall i | 0 <= i < n ensures Heard(actions, bounds + more, i) {
      assert Heard(actions, bounds, i);
      assert (bounds + more)[..i + 1] == bounds[..i + 1];
    }
  }

  lemma OtherHistory(actions: seq<Action>, s: System, a: Action)
    requires s == Exec(INITIAL, actions) && Inv(s) && History(actions, s) && !a.Receive? && !a.Refresh?
    ensures History(actions + [a], Step(s, a))
  {
    hide HeardBelow, Overtaken, SetSnapshot, SetConnected;
    match s.task
    case Idle(end) =>
      if end.GaveUp? {
        HeardStays(actions, a, end.bounds, MAX_COALESCED_REFRESHES);
      }
    case Starting(bounds) => HeardStays(actions, a, bounds, |bounds|);
    case Asking(bounds) =>
      HeardStays(actions, a, bounds, |bounds| - 1);
      if a.Answer? {
        AnswerIsFresh(actions, s);
      }
    case Answered(bounds, reply) => QuietUnderway(actions, s, bounds, reply, a);
    case Delivered(bounds, reply) => QuietUnderway(actions, s, bounds, reply, a);
  }

  lemma {:induction false} RunHistory(actions: seq<Action>)
    ensures History(actions, Exec(INITIAL, actions))
  {
    hide History, Inv, Step;
    if actions == [] {
      NothingHeard();
    } else {
      var n := |actions| - 1;
      var front, a := actions[..n], actions[n];
      assert front + [a] == actions;
      RunHistory(front);
      InvAtStart();
      ExecKeeps(INITIAL, front);
      ExecSnoc(INITIAL, actions);
      var s := Exec(INITIAL, front);
      if a.Receive? {
        ReceiveHistory(front, s);
      } else if a.Refresh? {
        RefreshHistory(front, s);
      } else {
        OtherHistory(front, s, a);
      }
    }
  }

  lemma NothingHeard()
    ensures History([], INITIAL)
  {
  }

  lemma InvAtStart()
    ensures Inv(INITIAL)
  {
  }

  /** In every run, when a refresh comes to its final check: it covers exactly when no signal newer than
      its answer was received between the two; otherwise it is tried again, or given up as the fourth. */
  lemma RefreshCoversIff(actions: seq<Action>)
    ensures var s := Exec(INITIAL, actions);
            s.task.Delivered? ==>
              var Delivered(bounds, reply) := s.task; var next := Step(s, Refresh).task;
              && (next == Idle(Covered(reply)) <==> !Overtaken(actions, bounds, reply))
              && (next.Idle? && next.end.GaveUp? <==>
                    Overtaken(actions, bounds, reply) && |bounds| == MAX_COALESCED_REFRESHES)
              && (next.Starting? <==> Overtaken(actions, bounds, reply) && |bounds| < MAX_COALESCED_REFRESHES)
  {
    hide HeardBelow, Overtaken;
    ExecKeeps(INITIAL, actions) by { InvAtStart(); }
    RunHistory(actions);
  }

  /** In every run: giving up means that each of the four refreshes was overtaken in that way. */
  lemma GivingUpMeansChurn(actions: seq<Action>)
    ensures var s := Exec(INITIAL, actions);
            s.task.Idle? && s.task.end.GaveUp? ==>
              var bounds := s.task.end.bounds;
              && |bounds| == 5 && (forall i | 0 <= i < 4 :: bounds[i] < bounds[i + 1])
              && (forall i | 0 <= i < 4 :: Heard(actions, bounds, i))
  {
    ExecKeeps(INITIAL, actions);
    RunHistory(actions);
  }

  /** The store does not change. */
  predicate Silent(a: Action) {
    !a.Change?
  }

  /** A client that gave up stays behind the last signal, with nothing pending, until the next change. */
  lemma {:induction false} BehindUntilNextChange(s: System, actions: seq<Action>)
    requires s.task.Idle? && s.signals == [] && forall i | 0 <= i < |actions| :: Silent(actions[i])
    ensures var t := Exec(s, actions);
            t.task == s.task && t.pending == s.pending && t.sequence == s.sequence && t.received == s.received
                && t.signals == []
    decreases |actions|
  {
    hide SetSnapshot, SetConnected;
    if actions != [] {
      BehindUntilNextChange(Step(s, actions[0]), actions[1..]);
    }
  }

  /** One refresh that is overtaken: answered, then a change is signalled before it is delivered. */
  const OVERTAKEN := [Refresh, Answer, Change, Receive, Refresh, Refresh]

  predicate Ready(s: System, bounds: seq<nat>) {
    && s.task == Starting(bounds) && |bounds| < MAX_COALESCED_REFRESHES && s.signals == []
    && s.pending == Some(s.sequence) && s.received == s.sequence && !s.view.allowReset
    && (bounds != [] ==> Last(bounds) < s.sequence)
    && (s.view.shown.Some? ==> s.view.shown.value <= s.sequence)
  }

  lemma Overtakes(s: System, bounds: seq<nat>)
    requires Ready(s, bounds)
    ensures var t := Exec(s, OVERTAKEN); var longer := bounds + [s.sequence];
            && t.sequence == s.sequence + 1 && t.received == t.sequence && t.view.shown == Some(s.sequence)
                && t.signals == []
            && (if |longer| < MAX_COALESCED_REFRESHES then Ready(t, longer)
                else t.task == Idle(GaveUp(longer + [t.sequence])) && t.pending.None?)
  {
    SixSteps(s);
    hide Exec;
    var s1 := Step(s, Refresh);
    var s4 := Step(Step(Step(s1, Answer), Change), Receive);
    var longer := bounds + [s.sequence];
    assert s1.task == Asking(longer) && s1.pending.None? && Last(longer) == s.sequence;
    assert s4.task == Answered(longer, s.sequence) && s4.pending == Some(s.sequence + 1) && s4.signals == [];
  }

  lemma SixSteps(s: System)
    ensures var s1 := Step(s, Refresh);
            var s4 := Step(Step(Step(s1, Answer), Change), Receive);
            Exec(s, OVERTAKEN) == Step(Step(s4, Refresh), Refresh)
  {
    hide Step;
    var s1 := Step(s, Refresh);
    var s2 := Step(s1, Answer);
    var s3 := Step(s2, Change);
    var s4 := Step(s3, Receive);
    var s5 := Step(s4, Refresh);
    assert OVERTAKEN[1..] == [Answer, Change, Receive, Refresh, Refresh];
    assert [Answer, Change, Receive, Refresh, Refresh][1..] == [Change, Receive, Refresh, Refresh];
    assert [Change, Receive, Refresh, Refresh][1..] == [Receive, Refresh, Refresh];
    assert [Receive, Refresh, Refresh][1..] == [Refresh, Refresh] && [Refresh, Refresh][1..] == [Refresh]
        && [Refresh][1..] == [];
    assert Exec(s5, [Refresh]) == Step(s5, Refresh);
    assert Exec(s3, [Receive, Refresh, Refresh]) == Exec(s4, [Refresh, Refresh]);
    assert Exec(s1, [Answer, Change, Receive, Refresh, Refresh]) == Exec(s2, [Change, Receive, Refresh, Refresh]);
  }

  lemma ExecConcat(s: System, first: seq<Action>, second: seq<Action>)
    ensures Exec(s, first + second) == Exec(Exec(s, first), second)
    decreases |first|
  {
    if first == [] {
      assert first + second == second;
    } else {
      assert (first + second)[1..] == first[1..] + second;
      ExecConcat(Step(s, first[0]), first[1..], second);
    }
  }

  const FIRST_CHANGE := [PollAnswer, PollShow(0), Change, Receive]

  const FOUR_OVERTAKEN := FIRST_CHANGE + OVERTAKEN + OVERTAKEN + OVERTAKEN + OVERTAKEN

  /** A run after which the client has given up: it shows sequence 4, was told of 5, and without a
      further change it stays there, although every request would now be answered. */
  lemma GivingUpExample(after: seq<Action>)
    requires forall i | 0 <= i < |after| :: Silent(after[i]) && !after[i].PollAnswer? && !after[i].PollShow?
    ensures var s := Exec(INITIAL, FOUR_OVERTAKEN); var t := Exec(s, after);
            && s.task == Idle(GaveUp([1, 2, 3, 4, 5])) && s.view.shown == Some(4) && s.received == 5
            && t.task == s.task && t.pending.None? && t.received == 5 && t.sequence == 5 && t.view.shown == Some(4)
  {
    hide Exec, Step, Ready;
    var s0 := Exec(INITIAL, FIRST_CHANGE);
    FirstReady();
    ChainFour(s0);
    FourRounds(s0);
    var s := Exec(INITIAL, FOUR_OVERTAKEN);
    BehindUntilNextChange(s, after);
    ShownStays(s, after);
  }

  function Four(s: System): System {
    Exec(Exec(Exec(Exec(s, OVERTAKEN), OVERTAKEN), OVERTAKEN), OVERTAKEN)
  }

  lemma ChainFour(s0: System)
    requires s0 == Exec(INITIAL, FIRST_CHANGE)
    ensures Exec(INITIAL, FOUR_OVERTAKEN) == Four(s0)
  {
    hide Exec;
    ExecConcat(INITIAL, FIRST_CHANGE, OVERTAKEN);
    ExecConcat(INITIAL, FIRST_CHANGE + OVERTAKEN, OVERTAKEN);
    ExecConcat(INITIAL, FIRST_CHANGE + OVERTAKEN + OVERTAKEN, OVERTAKEN);
    ExecConcat(INITIAL, FIRST_CHANGE + OVERTAKEN + OVERTAKEN + OVERTAKEN, OVERTAKEN);
  }

  lemma FourRounds(s0: System)
    requires Ready(s0, []) && s0.sequence == 1
    ensures var t := Four(s0);
            && t.task == Idle(GaveUp([1, 2, 3, 4, 5])) && t.pending.None? && t.signals == []
            && t.sequence == 5 && t.received == 5 && t.view.shown == Some(4)
  {
    hide Exec, Ready;
    var s1 := Exec(s0, OVERTAKEN);
    var s2 := Exec(s1, OVERTAKEN);
    var s3 := Exec(s2, OVERTAKEN);
    assert [] + [1] == [1] && [1] + [2] == [1, 2] && [1, 2] + [3] == [1, 2, 3];
    assert [1, 2, 3] + [4] == [1, 2, 3, 4] && [1, 2, 3, 4] + [5] == [1, 2, 3, 4, 5];
    Overtakes(s0, []);
    Overtakes(s1, [1]);
    Overtakes(s2, [1, 2]);
    Overtakes(s3, [1, 2, 3]);
  }

  lemma FirstReady()
    ensures Ready(Exec(INITIAL, FIRST_CHANGE), []) && Exec(INITIAL, FIRST_CHANGE).sequence == 1
  {
    var s1 := Step(INITIAL, PollAnswer);
    var s2 := Step(s1, PollShow(0));
    var s3 := Step(s2, Change);
    assert FIRST_CHANGE[1..] == [PollShow(0), Change, Receive]
        && [PollShow(0), Change, Receive][1..] == [Change, Receive];
    assert [Change, Receive][1..] == [Receive] && [Receive][1..] == [];
    assert Exec(s1, [PollShow(0), Change, Receive]) == Exec(s2, [Change, Receive]);
    assert Exec(s3, [Receive]) == Step(s3, Receive);
  }

  lemma {:induction false} ShownStays(s: System, actions: seq<Action>)
    requires s.task.Idle? && s.signals == []
    requires forall i | 0 <= i < |actions| :: Silent(actions[i]) && !actions[i].PollAnswer? && !actions[i].PollShow?
    ensures Exec(s, actions).view.shown == s.view.shown
    decreases |actions|
  {
    if actions != [] {
      ShownStays(Step(s, actions[0]), actions[1..]);
    }
  }

  /** In every run: an idle client has covered every signal, unless it gave up or the request failed;
      the refresh task never finds its pending sequence gone. */
  lemma NoSignalIsLost(actions: seq<Action>)
    ensures var s := Exec(INITIAL, actions);
            && (s.task.Idle? ==> !s.task.end.Nothing?)
            && (s.task.Idle? && !s.task.end.GaveUp? && !s.task.end.Failed? ==>
                  s.received == 0 || (s.task.end.Covered? && s.received <= s.task.end.reply))
  {
    ExecKeeps(INITIAL, actions);
  }

  const ROUND := [Refresh, Answer, Refresh, Refresh]

  lemma RoundSteps(s: System)
    ensures Exec(s, ROUND) == Step(Step(Step(Step(s, Refresh), Answer), Refresh), Refresh)
  {
    hide Step;
    var s1 := Step(s, Refresh);
    var s2 := Step(s1, Answer);
    var s3 := Step(s2, Refresh);
    assert ROUND[1..] == [Answer, Refresh, Refresh] && [Answer, Refresh, Refresh][1..] == [Refresh, Refresh];
    assert [Refresh, Refresh][1..] == [Refresh] && [Refresh][1..] == [];
    assert Exec(s3, [Refresh]) == Step(s3, Refresh);
    assert Exec(s1, [Answer, Refresh, Refresh]) == Exec(s2, [Refresh, Refresh]);
  }

  /** The refresh under way is the fourth and has been overtaken already. */
  predicate Doomed(s: System) {
    (s.task.Answered? || s.task.Delivered?) && s.task.reply < s.received && |s.task.bounds| == MAX_COALESCED_REFRESHES
  }

  lemma RoundSettles(s: System)
    requires Inv(s) && (s.task.Starting? || s.task.Asking?) && s.signals == []
    ensures Exec(s, ROUND).task == Idle(Covered(s.sequence)) && s.received <= s.sequence
  {
    RoundSteps(s);
    hide Exec, Increasing, SetSnapshot;
  }

  lemma RoundRetries(s: System)
    requires Inv(s) && (s.task.Answered? || s.task.Delivered?) && s.signals == []
    ensures var t := Exec(s, ROUND);
            && t.signals == [] && t.sequence == s.sequence && t.received == s.received
            && (s.received <= s.task.reply ==> t.task == Idle(Covered(s.task.reply)))
            && (s.received > s.task.reply && |s.task.bounds| < MAX_COALESCED_REFRESHES ==>
                  t.task.Asking? || (t.task.Answered? && t.task.reply == s.sequence))
            && (Doomed(s) ==> t.task.Idle? && t.task.end.GaveUp?)
  {
    RoundSteps(s);
    hide Exec, Increasing, SetSnapshot;
  }

  lemma IdleRound(s: System)
    requires s.task.Idle?
    ensures Exec(s, ROUND).task == s.task
  {
    RoundSteps(s);
    hide Exec;
  }

  /** Once the changes stop and the signals have arrived, a running refresh settles the client, within
      two rounds, on a snapshot that covers every signal, exactly unless it was doomed already. */
  lemma ConvergesIff(actions: seq<Action>)
    requires var s := Exec(INITIAL, actions); s.signals == [] && !s.task.Idle?
    ensures var s := Exec(INITIAL, actions); var t := Exec(s, ROUND + ROUND);
            && t.task.Idle?
            && (t.task.end.Covered? && s.received <= t.task.end.reply <= s.sequence <==> !Doomed(s))
            && (Doomed(s) ==> t.task.end.GaveUp?)
  {
    hide Exec, Step, Inv;
    InvAtStart();
    ExecKeeps(INITIAL, actions);
    var s := Exec(INITIAL, actions);
    var t := Exec(s, ROUND);
    ExecKeeps(s, ROUND);
    ExecConcat(s, ROUND, ROUND);
    ReplyBounded(s);
    if s.task.Starting? || s.task.Asking? {
      RoundSettles(s);
      IdleRound(t);
    } else {
      RoundRetries(s);
      if t.task.Idle? {
        IdleRound(t);
      } else if t.task.Asking? {
        RoundSettles(t);
      } else {
        RoundRetries(t);
        ReplyBounded(t);
      }
    }
  }

  lemma ReplyBounded(s: System)
    requires Inv(s)
    ensures s.received <= s.sequence
    ensures s.task.Answered? || s.task.Delivered? ==>
            s.task.reply <= s.sequence && |s.task.bounds| <= MAX_COALESCED_REFRESHES
  {
  }

  // -- The view ---------------------------------------------------------------------------------

  predicate KeepsConnection(actions: seq<Action>) {
    forall i | 0 <= i < |actions| :: actions[i] != Connection(false)
  }

  lemma ViewStep(s: System, a: Action)
    requires a != Connection(false)
    ensures var t := Step(s, a);
            && (s.view.shown.Some? && !s.view.allowReset ==>
                  t.view.shown.Some? && t.view.shown.value >= s.view.shown.value && !t.view.allowReset)
            && (s.view.shown.None? && t.view.shown.Some? ==> !t.view.allowReset)
  {
  }

  /** Within one connection the sequence shown never decreases, whatever older answers arrive late. */
  lemma {:induction false} ShownNeverDecreases(s: System, actions: seq<Action>)
    requires s.view.shown.Some? && !s.view.allowReset && KeepsConnection(actions)
    ensures var t := Exec(s, actions);
            t.view.shown.Some? && t.view.shown.value >= s.view.shown.value && !t.view.allowReset
    decreases |actions|
  {
    if actions != [] {
      ViewStep(s, actions[0]);
      ShownNeverDecreases(Step(s, actions[0]), actions[1..]);
    }
  }

  /** What the last refresh delivered is on screen, or something newer. */
  ghost predicate OnScreen(s: System) {
    && (!s.view.allowReset ==> s.view.shown.Some? && s.view.shown.value <= s.sequence)
    && (forall i | 0 <= i < |s.polls| :: s.polls[i] <= s.sequence)
    && (s.task.Delivered? ==> !s.view.allowReset && s.task.reply <= s.view.shown.value)
    && (s.task.Idle? && s.task.end.Covered? ==> !s.view.allowReset && s.task.end.reply <= s.view.shown.value)
  }

  lemma OnScreenStep(s: System, a: Action)
    requires Inv(s) && OnScreen(s) && a != Connection(false)
    ensures OnScreen(Step(s, a))
  {
    hide Increasing;
  }

  lemma {:induction false} OnScreenExec(s: System, actions: seq<Action>)
    requires Inv(s) && OnScreen(s) && KeepsConnection(actions)
    ensures OnScreen(Exec(s, actions)) && Inv(Exec(s, actions))
    decreases |actions|
  {
    if actions != [] {
      hide Inv, OnScreen, Step;
      StepKeeps(s, actions[0]);
      OnScreenStep(s, actions[0]);
      OnScreenExec(Step(s, actions[0]), actions[1..]);
    }
  }

  /** From store to screen, over every run that keeps the connection: when a refresh has ended by
      coverage, the view shows a snapshot at least as new as every sequence signalled so far, and
      never one the store has not reached. */
  lemma CoveredIsShown(actions: seq<Action>)
    requires KeepsConnection(actions)
    ensures var s := Exec(INITIAL, actions);
            s.task.Idle? && s.task.end.Covered? ==>
              s.view.shown.Some? && s.received <= s.view.shown.value <= s.sequence
  {
    OnScreenExec(INITIAL, actions);
  }
}
