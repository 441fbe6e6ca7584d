/** Change notification across restarts of the service: the new process counts its snapshots from 0
again, and the view has to accept an older-looking snapshot once, after a disconnection. */
module ServiceRestart {
  import opened Wrappers
  import opened ChangeNotification

  datatype Event =
    | Plain(action: Action)
    | Restart               // another process takes over; signals on their way are lost
    | Reconnect             // the worker tells the view, closes the client and opens a new one

  function Happen(s: System, e: Event): System {
    match e
    case Plain(a) => Step(s, a)
    case Restart => s.(sequence := 0, signals := [])
    case Reconnect =>
      System(s.sequence, [], 0, None, Idle(Never), [], SetConnected(s.view, false))
  }

  function Live(s: System, events: seq<Event>): System
    decreases |events|
  {
    if events == [] then s else Live(Happen(s, events[0]), events[1..])
  }

  // -- What the view is handed ---------------------------------------------------------------------

  function Handed(s: System, a: Action): seq<nat> {
    match a
    case Refresh => if s.task.Answered? then [s.task.reply] else []
    case PollShow(i) => if i < |s.polls| then [s.polls[i]] else []
    case _ => []
  }

  function Presented(s: System, actions: seq<Action>): seq<nat>
    decreases |actions|
  {
    if actions == [] then [] else Handed(s, actions[0]) + Presented(Step(s, actions[0]), actions[1..])
  }

  predicate Greatest(n: nat, xs: seq<nat>) {
    n in xs && forall i | 0 <= i < |xs| :: xs[i] <= n
  }

  /** What a view holds against a snapshot: what it shows, unless it accepts a fresh start. */
  function Against(v: View): seq<nat> {
    if v.allowReset || v.shown.None? then [] else [v.shown.value]
  }

  lemma HandedStep(s: System, a: Action)
    requires a != Connection(false)
    ensures var v, w := s.view, Step(s, a).view;
            if Handed(s, a) == [] then w.shown == v.shown && w.allowReset == v.allowReset
            else w.shown.Some? && !w.allowReset && Greatest(w.shown.value, Against(v) + Handed(s, a))
  {
  }

  lemma GreatestChain(earlier: seq<nat>, first: seq<nat>, m: nat, rest: seq<nat>, n: nat)
    requires Greatest(m, earlier + first) && Greatest(n, [m] + rest)
    ensures Greatest(n, earlier + (first + rest))
  {
    var all := earlier + (first + rest);
    assert all == (earlier + first) + rest;
    assert forall i | 0 <= i < |rest| :: rest[i] == ([m] + rest)[i + 1];
    assert ([m] + rest)[0] == m;
  }

  /** Within a connection the view shows the newest of what it was handed, and of what it showed before
      unless it accepts a fresh start. */
  lemma {:induction false} ShownIsNewest(s: System, actions: seq<Action>)
    requires KeepsConnection(actions)
    ensures var t := Exec(s, actions); var presented := Presented(s, actions);
            if presented == [] then t.view.shown == s.view.shown && t.view.allowReset == s.view.allowReset
            else t.view.shown.Some? && !t.view.allowReset && Greatest(t.view.shown.value, Against(s.view) + presented)
    decreases |actions|
  {
    if actions != [] {
      var a, rest := actions[0], actions[1..];
      HandedStep(s, a);
      ShownIsNewest(Step(s, a), rest);
      hide Step, Exec, Handed, Greatest;
      var first, later := Handed(s, a), Presented(Step(s, a), rest);
      var t := Exec(s, actions);
      if first == [] {
        assert first + later == later;
      } else if later == [] {
        assert first + later == first;
      } else {
        GreatestChain(Against(s.view), first, Step(s, a).view.shown.value, later, t.view.shown.value);
      }
    }
  }

  // -- After a disconnection ------------------------------------------------------------------------

  /** The first snapshot after a disconnection is shown, whatever was shown before, and whether or not the
      service is back by then. */
  lemma FirstIsShown(v: View, n: nat)
    requires v.connected
    ensures var away := SetConnected(v, false);
            && away.shown == v.shown && !away.connected
            && SetSnapshot(away, n).shown == Some(n)
            && SetSnapshot(SetConnected(away, true), n).shown == Some(n)
  {
  }

  /** The view and the refresh it goes by, while nothing else is shown. */
  ghost predicate Following(s: System) {
    && (!s.view.allowReset ==>
          && s.view.shown.Some? && s.view.shown.value <= s.sequence
          && (s.task.Answered? ==> s.view.shown.value <= s.task.reply))
    && (s.task.Delivered? ==> !s.view.allowReset && s.view.shown == Some(s.task.reply))
    && (s.task.Idle? && s.task.end.Covered? ==> !s.view.allowReset && s.view.shown == Some(s.task.end.reply))
  }

  predicate NoPolls(actions: seq<Action>) {
    forall i | 0 <= i < |actions| :: !actions[i].PollShow?
  }

  lemma FollowingStep(s: System, a: Action)
    requires Inv(s) && Following(s) && a != Connection(false) && !a.PollShow?
    ensures Following(Step(s, a))
  {
    hide Increasing;
  }

  lemma {:induction false} FollowingExec(s: System, actions: seq<Action>)
    requires Inv(s) && Following(s) && KeepsConnection(actions) && NoPolls(actions)
    ensures Following(Exec(s, actions))
    decreases |actions|
  {
    if actions != [] {
      hide Inv, Following, Step;
      StepKeeps(s, actions[0]);
      FollowingStep(s, actions[0]);
      FollowingExec(Step(s, actions[0]), actions[1..]);
    }
  }

  lemma ReconnectedInv(s: System)
    requires s.view.connected
    ensures var r := Happen(s, Reconnect);
            Inv(r) && OnScreen(r) && Following(r) && r.view.allowReset && r.view.shown == s.view.shown
  {
  }

  /** Whatever happened before, restarts included: after a reconnection the view shows the newest snapshot
      handed to it since, and keeps the old one exactly until there is one. When a refresh has ended by
      coverage, that is at least its reply and never ahead of the store, and exactly its reply if nothing
      else was shown. */
  lemma ReconnectedShows(events: seq<Event>, actions: seq<Action>)
    requires Live(INITIAL, events).view.connected && KeepsConnection(actions)
    ensures var s := Live(INITIAL, events); var r := Happen(s, Reconnect);
            var t := Exec(r, actions); var presented := Presented(r, actions);
            && (presented == [] ==> t.view.shown == s.view.shown)
            && (presented != [] ==> t.view.shown.Some? && Greatest(t.view.shown.value, presented))
            && (t.task.Idle? && t.task.end.Covered? ==>
                  && presented != [] && t.received <= t.task.end.reply <= t.view.shown.value <= t.sequence
                  && (NoPolls(actions) ==> t.view.shown == Some(t.task.end.reply)))
  {
    var s := Live(INITIAL, events);
    var r := Happen(s, Reconnect);
    ReconnectedInv(s);
    ShownIsNewest(r, actions);
    OnScreenExec(r, actions);
    if NoPolls(actions) {
      FollowingExec(r, actions);
    }
    hide Exec, Live, Presented, Greatest, Increasing;
    assert [] + Presented(r, actions) == Presented(r, actions);
  }

  /** From there on, until the next disconnection and whatever arrives late, it never goes back. */
  lemma ReconnectedNeverDecreases(events: seq<Event>, actions: seq<Action>, more: seq<Action>)
    requires Live(INITIAL, events).view.connected && KeepsConnection(actions) && KeepsConnection(more)
    requires Presented(Happen(Live(INITIAL, events), Reconnect), actions) != []
    ensures var t := Exec(Happen(Live(INITIAL, events), Reconnect), actions);
            t.view.shown.Some? && Exec(t, more).view.shown.Some?
                && Exec(t, more).view.shown.value >= t.view.shown.value
  {
    hide Exec, Live, Presented;
    var r := Happen(Live(INITIAL, events), Reconnect);
    ShownIsNewest(r, actions);
    ShownNeverDecreases(Exec(r, actions), more);
  }

  // -- A restart that nobody notices ----------------------------------------------------------------

  /** The client learns of a restart only from a call or a listener that fails. If none does, the view
      stays on the old process's snapshot exactly as long as it is handed nothing newer. */
  lemma UnnoticedRestartIff(s: System, actions: seq<Action>)
    requires s.view.shown.Some? && !s.view.allowReset && KeepsConnection(actions)
    ensures var r := Happen(s, Restart); var presented := Presented(r, actions);
            Exec(r, actions).view.shown == s.view.shown <==>
            forall i | 0 <= i < |presented| :: presented[i] <= s.view.shown.value
  {
    var r := Happen(s, Restart);
    ShownIsNewest(r, actions);
    hide Exec, Presented, Greatest;
    var presented := Presented(r, actions);
    if presented != [] {
      GreatestIsFirst(s.view.shown.value, presented, Exec(r, actions).view.shown.value);
    }
  }

  lemma GreatestIsFirst(first: nat, rest: seq<nat>, n: nat)
    requires Greatest(n, [first] + rest)
    ensures n == first <==> forall i | 0 <= i < |rest| :: rest[i] <= first
  {
    var all := [first] + rest;
    assert forall i | 0 <= i < |rest| :: rest[i] == all[i + 1];
    assert all[0] == first;
    var i :| 0 <= i < |all| && all[i] == n;
    assert i > 0 ==> n == rest[i - 1];
  }

  /** Two changes, and the second is on screen. */
  const SHOWS_TWO := [Plain(Change), Plain(Change), Plain(PollAnswer), Plain(PollShow(0))]

  /** The first change of the new process, and the refresh that covers it. */
  const COVERS_ONE := [Change, Receive, Refresh, Answer, Refresh, Refresh]

  lemma ShowsTwo()
    ensures var s := Live(INITIAL, SHOWS_TWO);
            && s.view == View(Some(2), true, false) && s.received == 0 && s.pending.None? && s.task == Idle(Never)
            && s.polls == []
  {
    var s1 := Step(INITIAL, Change);
    var s2 := Step(s1, Change);
    var s3 := Step(s2, PollAnswer);
    var s4 := Step(s3, PollShow(0));
    assert SHOWS_TWO[1..] == [Plain(Change), Plain(PollAnswer), Plain(PollShow(0))];
    assert SHOWS_TWO[1..][1..] == [Plain(PollAnswer), Plain(PollShow(0))];
    assert [Plain(PollAnswer), Plain(PollShow(0))][1..] == [Plain(PollShow(0))];
    assert [Plain(PollShow(0))][1..] == [];
    assert Live(s3, [Plain(PollShow(0))]) == s4;
    assert Live(s1, SHOWS_TWO[1..]) == Live(s2, [Plain(PollAnswer), Plain(PollShow(0))]);
    assert s4.polls == [];
  }

  lemma CoversOne(s: System)
    requires s.sequence == 0 && s.signals == [] && s.received == 0 && s.pending.None? && s.task.Idle?
    ensures var t := Exec(s, COVERS_ONE);
            t.task == Idle(Covered(1)) && t.sequence == 1 && t.view == SetSnapshot(s.view, 1)
  {
    var s2 := Step(Step(s, Change), Receive);
    var s3 := Step(s2, Refresh);
    var s4 := Step(s3, Answer);
    var s6 := Step(Step(s4, Refresh), Refresh);
    CoverSteps(s);
    hide Exec, SetSnapshot;
    assert s2.task == Starting([]) && s2.pending == Some(1) && s2.signals == [];
    assert [] + [1] == [1];
    assert s4.task == Answered([1], 1) && s4.pending.None?;
    assert s6.task == Idle(Covered(1));
  }

  lemma CoverSteps(s: System)
    ensures Exec(s, COVERS_ONE) ==
            Step(Step(Step(Step(Step(Step(s, Change), Receive), Refresh), Answer), Refresh), Refresh)
  {
    hide Step;
    var s1 := Step(s, Change);
    var s2 := Step(s1, Receive);
    assert COVERS_ONE[1..] == [Receive] + ROUND && ([Receive] + ROUND)[1..] == ROUND;
    assert Exec(s1, [Receive] + ROUND) == Exec(s2, ROUND);
    RoundSteps(s2);
  }

  /** The view shows snapshot 2 and the service restarts. Unnoticed, the refresh of the new process is
      covered but the view still shows 2; after a reconnection it shows 1. */
  lemma RestartExample()
    ensures var s := Live(INITIAL, SHOWS_TWO + [Restart]);
            var unnoticed, noticed := Exec(s, COVERS_ONE), Exec(Happen(s, Reconnect), COVERS_ONE);
            && unnoticed.task == noticed.task == Idle(Covered(1)) && unnoticed.sequence == noticed.sequence == 1
            && unnoticed.view.shown == Some(2) && noticed.view.shown == Some(1)
  {
    var before := Live(INITIAL, SHOWS_TWO);
    ShowsTwo();
    LiveConcat(INITIAL, SHOWS_TWO, [Restart]);
    hide Exec, SHOWS_TWO;
    assert [Restart][1..] == [];
    assert Live(before, [Restart]) == Happen(before, Restart);
    var s := Happen(before, Restart);
    CoversOne(s);
    CoversOne(Happen(s, Reconnect));
  }

  lemma {:induction false} LiveConcat(s: System, first: seq<Event>, second: seq<Event>)
    ensures Live(s, first + second) == Live(Live(s, first), second)
    decreases |first|
  {
    if first == [] {
      assert first + second == second;
    } else {
      assert (first + second)[1..] == first[1..] + second;
      LiveConcat(Happen(s, first[0]), first[1..], second);
    }
  }
}
