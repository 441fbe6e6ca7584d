/** The serialized hardware command queue.

The event loop submits one call at a time under an async lock, one worker thread
executes the FIFO `requests`, and completions come back through the loop's callback
queue. A call that times out or is cancelled unfinished poisons the queue and reserves
its recovery behind itself.

`Step` is one atomic step of any participant. It is total: a step that is not enabled
leaves the state alone, so every sequence of actions is an interleaving and every
theorem about `Exec` speaks of all of them.
*/
module CommandQueue {
  import opened Wrappers

  /** The hardware functions the daemon passes to the queue. */
  datatype HwCall = FanAuto | FanManual | FanSpeed(speed: int) | ReadTemp | OtherCall

  /** What a hardware function gives back; only the truth value of a result matters
      to the callers that are modelled. */
  datatype HwResult =
    | Returned(truthy: bool)
    | Raised            // any exception but TimeoutError
    | RaisedTimeout     // the function itself raised TimeoutError

  /** `_WorkItem`: a call and the future that its completion sets. */
  datatype Item = Item(future: nat, call: HwCall)

  datatype Request = Work(item: Item) | Stop

  datatype Completed = Completed(item: Item, result: HwResult)

  /** The coroutine that holds the queue lock and waits for its future. */
  datatype Waiter = Waiter(item: Item, recovery: Option<HwCall>)

  datatype State = State(
    requests: seq<Request>,         // queue.Queue, next to be taken first
    executing: Option<Item>,        // the call the worker is inside
    stopped: bool,                  // the worker returned
    callbacks: seq<Completed>,      // completions posted to the loop, not yet run
    futures: map<nat, HwResult>,    // futures that are done
    nextFuture: nat,
    active: Option<Waiter>,         // holder of the lock
    timedOut: Option<nat>,          // _timed_out_future
    closed: bool,
    enqueued: seq<Request>,         // history: everything ever put on the queue
    trace: seq<Completed>)          // history: every hardware call that ran, in order

  const INITIAL := State([], None, false, [], map[], 0, None, None, false, [], [])

  datatype Action =
    | Submit(call: HwCall, recovery: Option<HwCall>)  // run, from lock to enqueue
    | Take                                            // worker: queue.get
    | Finish(result: HwResult)                        // worker: the call returns
    | Deliver                                         // loop: run one completion callback
    | Wake                                            // waiter polls its future
    | Deadline                                        // waiter finds its time used up
    | Cancel                                          // waiter's task is cancelled
    | Shutdown

  predicate Done(s: State, future: nat) {
    future in s.futures
  }

  predicate Poisoned(s: State) {
    s.timedOut.Some? && !Done(s, s.timedOut.value)
  }

  predicate Admits(s: State) {
    s.active.None? && !s.closed && !Poisoned(s)
  }

  function Enqueue(s: State, call: HwCall): State {
    var work := Work(Item(s.nextFuture, call));
    s.(requests := s.requests + [work], enqueued := s.enqueued + [work], nextFuture := s.nextFuture + 1)
  }

  /** The waiter gives up: reserve the recovery, poison the queue, release the lock. */
  function Abandon(s: State): State
    requires s.active.Some?
  {
    match s.active.value.recovery
    case None => s.(timedOut := Some(s.active.value.item.future), active := None)
    case Some(call) => Enqueue(s, call).(timedOut := Some(s.nextFuture), active := None)
  }

  function Step(s: State, a: Action): State {
    match a
    case Submit(call, recovery) =>
      if !Admits(s) then s
      else
        Enqueue(s, call).(timedOut := None, active := Some(Waiter(Item(s.nextFuture, call), recovery)))
    case Take =>
      if s.stopped || s.executing.Some? || s.requests == [] then s
      else if s.requests[0].Stop? then s.(requests := s.requests[1..], stopped := true)
      else s.(requests := s.requests[1..], executing := Some(s.requests[0].item))
    case Finish(result) =>
      if s.executing.None? then s
      else
        var done := Completed(s.executing.value, result);
        s.(executing := None, trace := s.trace + [done], callbacks := s.callbacks + [done])
    case Deliver =>
      if s.callbacks == [] then s
      else
        var done := s.callbacks[0];
        s.(callbacks := s.callbacks[1..],
        futures := if Done(s, done.item.future) then s.futures
        else s.futures[done.item.future := done.result])
    case Wake =>
      if s.active.None? || !Done(s, s.active.value.item.future) then s
      else if s.futures[s.active.value.item.future].RaisedTimeout? then Abandon(s)
      else s.(active := None)
    case Deadline =>
      if s.active.None? || Done(s, s.active.value.item.future) then s else Abandon(s)
    case Cancel =>
      if s.active.None? then s
      else if Done(s, s.active.value.item.future) then s.(active := None)
      else Abandon(s)
    case Shutdown =>
      if s.closed then s
      else s.(closed := true, requests := s.requests + [Stop], enqueued := s.enqueued + [Stop])
  }

  function Exec(s: State, actions: seq<Action>): State
    decreases |actions|
  {
    if actions == [] then s else Exec(Step(s, actions[0]), actions[1..])
  }

  lemma {:induction false} ExecConcat(s: State, first: seq<Action>, second: seq<Action>)
    ensures Exec(s, first + second) == Exec(Exec(s, first), second)
    decreases |first|
  {
    if first == [] {
      assert first + second == second;
    } else {
      assert (first + second)[1..] == first[1..] + second;
      ExecConcat(Step(s, first[0]), first[1..], second);
    }
  }

  // -- The work items of a request sequence --------------------------------------

  function Items(requests: seq<Request>): seq<Item> {
    if requests == [] then []
    else (if requests[0].Work? then [requests[0].item] else []) + Items(requests[1..])
  }

  lemma {:induction false} ItemsConcat(a: seq<Request>, b: seq<Request>)
    ensures Items(a + b) == Items(a) + Items(b)
  {
    if a == [] {
      assert a + b == b;
    } else {
      ItemsCons(a);
      ItemsCons(a + b);
      hide Items;
      assert (a + b)[0] == a[0] && (a + b)[1..] == a[1..] + b;
      ItemsConcat(a[1..], b);
    }
  }

  lemma ItemsCons(requests: seq<Request>)
    requires requests != []
    ensures Items(requests) == (if requests[0].Work? then [requests[0].item] else []) + Items(requests[1..])
  {
  }

  function AsWork(trace: seq<Completed>): seq<Request> {
    seq(|trace|, i requires 0 <= i < |trace| => Work(trace[i].item))
  }

  function Ran(trace: seq<Completed>): seq<Item> {
    seq(|trace|, i requires 0 <= i < |trace| => trace[i].item)
  }

  lemma {:induction false} ItemsAsWork(trace: seq<Completed>)
    ensures Items(AsWork(trace)) == Ran(trace)
  {
    if trace != [] {
      ItemsAsWork(trace[1..]);
      assert AsWork(trace)[1..] == AsWork(trace[1..]);
      assert Ran(trace) == [trace[0].item] + Ran(trace[1..]);
    }
  }

  // -- The invariant of every interleaving ----------------------------------------

  function One<T>(x: Option<T>): seq<T> {
    if x.Some? then [x.value] else []
  }

  /** The queue is first in, first out: what was enqueued is what ran, then what runs,
      then the stop marker if it was taken, then what waits. */
  ghost predicate Fifo(enqueued: seq<Request>, trace: seq<Completed>, executing: Option<Item>,
                       stopped: bool, requests: seq<Request>)
  {
    && (stopped ==> executing.None?)
    && enqueued == AsWork(trace) + Head(executing, stopped) + requests
  }

  function Head(executing: Option<Item>, stopped: bool): seq<Request> {
    if executing.Some? then [Work(executing.value)] else if stopped then [Stop] else []
  }

  /** The n-th work item carries the n-th future. */
  ghost predicate Numbered(items: seq<Item>, nextFuture: nat) {
    && nextFuture == |items|
    && forall i | 0 <= i < |items| :: items[i].future == i
  }

  /** Completions reach the loop in execution order, each exactly once. */
  ghost predicate Posted(trace: seq<Completed>, callbacks: seq<Completed>, futures: map<nat, HwResult>) {
    && |callbacks| <= |trace|
    && callbacks == trace[|trace| - |callbacks|..]
    && (forall f: nat :: f in futures <==> f < |trace| - |callbacks|)
    && (forall f: nat | f in futures :: futures[f] == trace[f].result)
  }

  /** Who may still be unsettled: nobody, the active call, or a poisoning call and its recovery. */
  ghost predicate Bounded(active: Option<Waiter>, timedOut: Option<nat>, items: seq<Item>, delivered: int) {
    if active.Some? then
      timedOut.None? && items != [] && items[|items| - 1] == active.value.item && |items| - delivered <= 1
    else if timedOut.Some? then
      items != [] && timedOut.value == |items| - 1 && |items| - delivered <= 2
    else |items| == delivered
  }

  /** The stop marker is put exactly once, when the queue closes. */
  ghost predicate Marked(closed: bool, enqueued: seq<Request>) {
    && (closed <==> Stop in enqueued)
    && (forall i, j | 0 <= i < j < |enqueued| :: !(enqueued[i].Stop? && enqueued[j].Stop?))
  }

  /** How many completions the loop has run. */
  function Delivered(s: State): int {
    |s.trace| - |s.callbacks|
  }

  ghost predicate Inv(s: State) {
    && Fifo(s.enqueued, s.trace, s.executing, s.stopped, s.requests)
    && Numbered(Items(s.enqueued), s.nextFuture)
    && Posted(s.trace, s.callbacks, s.futures)
    && Bounded(s.active, s.timedOut, Items(s.enqueued), Delivered(s))
    && Marked(s.closed, s.enqueued)
  }

  /** The work items split into those that ran, the one that runs and those that wait. */
  lemma ItemsSplit(s: State)
    requires Fifo(s.enqueued, s.trace, s.executing, s.stopped, s.requests)
    ensures Items(s.enqueued) == Ran(s.trace) + One(s.executing) + Items(s.requests)
  {
    var head := Head(s.executing, s.stopped);
    ItemsConcat(AsWork(s.trace) + head, s.requests);
    ItemsConcat(AsWork(s.trace), head);
    ItemsAsWork(s.trace);
    assert Items(head) == One(s.executing);
  }

  lemma MarkedAppend(closed: bool, enqueued: seq<Request>, item: Item)
    requires Marked(closed, enqueued)
    ensures Marked(closed, enqueued + [Work(item)])
  {
  }

  lemma EnqueueItems(s: State, call: HwCall)
    ensures Items(Enqueue(s, call).enqueued) == Items(s.enqueued) + [Item(s.nextFuture, call)]
  {
    var work := Work(Item(s.nextFuture, call));
    ItemsConcat(s.enqueued, [work]);
    assert Items([work]) == [work.item];
  }

  lemma AbandonKeeps(s: State)
    requires Inv(s) && s.active.Some?
    ensures Inv(Abandon(s))
  {
    if s.active.value.recovery.Some? {
      var call := s.active.value.recovery.value;
      EnqueueItems(s, call);
      MarkedAppend(s.closed, s.enqueued, Item(s.nextFuture, call));
    }
  }

  lemma TakeKeeps(s: State)
    requires Inv(s)
    ensures Inv(Step(s, Take))
  {
    hide Items, Numbered, Posted, Bounded, Marked, AsWork;
    var t := Step(s, Take);
    if t != s {
      var ran := AsWork(s.trace);
      assert ran + [] + s.requests == ran + [s.requests[0]] + s.requests[1..];
      assert Head(s.executing, s.stopped) == [];
      assert Head(t.executing, t.stopped) == [s.requests[0]];
    }
  }

  lemma FinishKeeps(s: State, result: HwResult)
    requires Inv(s)
    ensures Inv(Step(s, Finish(result)))
  {
    hide Items, Numbered, Bounded, Marked;
    var t := Step(s, Finish(result));
    if t != s {
      assert AsWork(t.trace) == AsWork(s.trace) + [Work(s.executing.value)];
    }
  }

  lemma DeliverKeeps(s: State)
    requires Inv(s)
    ensures Inv(Step(s, Deliver))
  {
    hide Items, Marked, Fifo;
    var t := Step(s, Deliver);
    if t != s {
      var d := Delivered(s);
      DeliveredFuture(s);
      TraceIsItems(s);
      assert t.futures == s.futures[d := s.trace[d].result];
    }
  }

  /** The completion delivered next belongs to the first undelivered future. */
  lemma DeliveredFuture(s: State)
    requires Inv(s) && s.callbacks != []
    ensures s.callbacks[0] == s.trace[Delivered(s)] && s.callbacks[0].item.future == Delivered(s)
  {
    hide Bounded, Marked, Fifo, Items;
    ItemsSplit(s);
    assert Items(s.enqueued)[Delivered(s)] == s.trace[Delivered(s)].item;
  }

  lemma ShutdownKeeps(s: State)
    requires Inv(s)
    ensures Inv(Step(s, Shutdown))
  {
    hide Items, Numbered, Posted, Bounded, Marked, AsWork, Head;
    var t := Step(s, Shutdown);
    if t != s {
      StopIsNoItem(s.enqueued);
      MarkedStop(s.enqueued) by { assert Marked(false, s.enqueued); }
    }
  }

  lemma StopIsNoItem(enqueued: seq<Request>)
    ensures Items(enqueued + [Stop]) == Items(enqueued)
  {
    ItemsConcat(enqueued, [Stop]);
  }

  lemma MarkedStop(enqueued: seq<Request>)
    requires Marked(false, enqueued)
    ensures Marked(true, enqueued + [Stop])
  {
    assert (enqueued + [Stop])[|enqueued|] == Stop;
  }

  /** A call is admitted only when everything submitted before it has been settled. */
  lemma AdmittedDrained(s: State)
    requires Inv(s) && Admits(s)
    ensures |Items(s.enqueued)| == Delivered(s)
    ensures s.executing.None? && Items(s.requests) == [] && s.callbacks == []
  {
    ItemsSplit(s);
  }

  lemma SubmitKeeps(s: State, call: HwCall, recovery: Option<HwCall>)
    requires Inv(s) && Admits(s)
    ensures Inv(Step(s, Submit(call, recovery)))
  {
    AdmittedDrained(s);
    EnqueueItems(s, call);
    MarkedAppend(s.closed, s.enqueued, Item(s.nextFuture, call));
  }

  lemma StepKeeps(s: State, a: Action)
    requires Inv(s)
    ensures Inv(Step(s, a))
  {
    match a
    case Submit(call, recovery) => if Admits(s) { SubmitKeeps(s, call, recovery); }
    case Take => TakeKeeps(s);
    case Finish(result) => FinishKeeps(s, result);
    case Deliver => DeliverKeeps(s);
    case Shutdown => ShutdownKeeps(s);
    case _ =>
      if s.active.Some? {
        AbandonKeeps(s);
        ItemsSplit(s);
      }
  }

  lemma {:induction false} ExecKeeps(s: State, actions: seq<Action>)
    requires Inv(s)
    ensures Inv(Exec(s, actions))
    decreases |actions|
  {
    if actions != [] {
      StepKeeps(s, actions[0]);
      ExecKeeps(Step(s, actions[0]), actions[1..]);
    }
  }

  function Reached(actions: seq<Action>): State {
    Exec(INITIAL, actions)
  }

  lemma ReachedInv(actions: seq<Action>)
    ensures Inv(Reached(actions))
  {
    assert Inv(INITIAL);
    ExecKeeps(INITIAL, actions);
  }

  // -- Theorems over every run -------------------------------------------------------

  /** In every run a submission that enqueues anything finds every earlier item executed
      and the worker idle. */
  lemma AcceptedOnlyWhenSettled(actions: seq<Action>, call: HwCall, recovery: Option<HwCall>)
    requires Step(Reached(actions), Submit(call, recovery)).enqueued != Reached(actions).enqueued
    ensures var s := Reached(actions);
            && Ran(s.trace) == Items(s.enqueued)
            && s.executing.None? && Items(s.requests) == [] && s.callbacks == []
            && Step(s, Submit(call, recovery)).enqueued == s.enqueued + [Work(Item(|s.trace|, call))]
  {
    ReachedInv(actions);
    AdmittedDrained(Reached(actions));
    ItemsSplit(Reached(actions));
  }

  /** In every run the hardware calls are a prefix of what was enqueued, in that order,
      no item runs twice, and at most two work items are unfinished; when there are two,
      the queue is poisoned by the second. */
  lemma RunsOnceInOrder(actions: seq<Action>)
    ensures var s := Reached(actions); var items := Items(s.enqueued);
            && Ran(s.trace) <= items
            && (s.executing.Some? ==> |s.trace| < |items| && s.executing.value == items[|s.trace|])
            && (forall i, j | 0 <= i < j < |items| :: items[i].future != items[j].future)
            && |items| - |s.trace| <= 2
            && (|items| - |s.trace| == 2 ==> s.timedOut == Some(items[|items| - 1].future))
  {
    ReachedInv(actions);
    ItemsSplit(Reached(actions));
  }

  /** Nothing recorded is ever taken back. */
  ghost predicate Grows(s: State, t: State) {
    && s.enqueued <= t.enqueued && s.trace <= t.trace
    && (forall f | Done(s, f) :: Done(t, f) && t.futures[f] == s.futures[f])
    && (s.closed ==> t.closed)
  }

  lemma StepGrows(s: State, a: Action)
    ensures Grows(s, Step(s, a))
  {
  }

  lemma {:induction false} HistoryGrows(s: State, actions: seq<Action>)
    ensures Grows(s, Exec(s, actions))
    decreases |actions|
  {
    if actions != [] {
      StepGrows(s, actions[0]);
      HistoryGrows(Step(s, actions[0]), actions[1..]);
    }
  }

  lemma ItemsPrefix(a: seq<Request>, b: seq<Request>)
    requires a <= b
    ensures Items(a) <= Items(b)
  {
    ItemsConcat(a, b[|a|..]);
    assert a + b[|a|..] == b;
  }

  /** The waiter leaves the queue poisoned: its deadline passed or it was cancelled before its
      future was done, or the call itself raised TimeoutError. */
  predicate GivesUp(s: State, a: Action) {
    s.active.Some? &&
    var future := s.active.value.item.future;
    match a
    case Deadline => !Done(s, future)
    case Cancel => !Done(s, future)
    case Wake => Done(s, future) && s.futures[future].RaisedTimeout?
    case _ => false
  }

  /** While the poisoning future is not done, the queue takes nothing. */
  lemma PoisonedStep(s: State, a: Action)
    requires s.active.None? && Poisoned(s)
    ensures var t := Step(s, a);
            && t.active.None? && t.timedOut == s.timedOut
            && (t.enqueued == s.enqueued || t.enqueued == s.enqueued + [Stop])
  {
  }

  lemma {:induction false} StaysPoisoned(s: State, actions: seq<Action>)
    requires s.active.None? && Poisoned(s) && !Done(Exec(s, actions), s.timedOut.value)
    ensures var t := Exec(s, actions);
            && t.active.None? && t.timedOut == s.timedOut
            && Items(t.enqueued) == Items(s.enqueued)
    decreases |actions|
  {
    if actions != [] {
      var t := Step(s, actions[0]);
      PoisonedStep(s, actions[0]);
      HistoryGrows(t, actions[1..]);
      ItemsConcat(s.enqueued, [Stop]);
      StaysPoisoned(t, actions[1..]);
    }
  }

  /** The recovery is the very next hardware call after the abandoned one, in every
      continuation; until its completion is delivered every submission is refused and
      no work is enqueued. */
  lemma RecoveryRunsNext(before: seq<Action>, a: Action, after: seq<Action>, call: HwCall, again: Option<HwCall>)
    requires GivesUp(Reached(before), a) && Reached(before).active.value.recovery.Some?
    ensures var s := Reached(before); var t := Exec(Step(s, a), after);
            var k := s.active.value.item.future;
            && (k + 1 < |t.trace| ==>
                  t.trace[k].item == s.active.value.item
                  && t.trace[k + 1].item == Item(k + 1, s.active.value.recovery.value))
            && (!Done(t, k + 1) ==>
                  Step(t, Submit(call, again)) == t
                  && Items(t.enqueued) == Items(s.enqueued) + [Item(k + 1, s.active.value.recovery.value)])
  {
    ReachedInv(before);
    hide Inv, Step, Exec, Items;
    RecoveryNext(Reached(before), a, after);
    if !Done(Exec(Step(Reached(before), a), after), Reached(before).active.value.item.future + 1) {
      RefusedMeanwhile(Reached(before), a, after, Submit(call, again));
    }
  }

  lemma RecoveryNext(s: State, a: Action, after: seq<Action>)
    requires Inv(s) && GivesUp(s, a) && s.active.value.recovery.Some?
    ensures var t := Exec(Step(s, a), after); var k := s.active.value.item.future;
            k + 1 < |t.trace| ==>
              t.trace[k].item == s.active.value.item
              && t.trace[k + 1].item == Item(k + 1, s.active.value.recovery.value)
  {
    hide Inv, Step, Items;
    var r := Step(s, a);
    GivenUp(s, a);
    var t := Exec(r, after);
    ExecKeeps(r, after);
    HistoryGrows(r, after);
    ItemsPrefix(r.enqueued, t.enqueued);
    TraceIsItems(t);
  }

  lemma TraceIsItems(s: State)
    requires Inv(s)
    ensures |s.trace| <= |Items(s.enqueued)|
    ensures forall i | 0 <= i < |s.trace| :: s.trace[i].item == Items(s.enqueued)[i]
  {
    ItemsSplit(s);
  }

  lemma RefusedMeanwhile(s: State, a: Action, after: seq<Action>, submit: Action)
    requires Inv(s) && GivesUp(s, a) && s.active.value.recovery.Some? && submit.Submit?
    requires !Done(Exec(Step(s, a), after), s.active.value.item.future + 1)
    ensures var t := Exec(Step(s, a), after); var k := s.active.value.item.future;
            && Step(t, submit) == t
            && Items(t.enqueued) == Items(s.enqueued) + [Item(k + 1, s.active.value.recovery.value)]
  {
    GivenUp(s, a);
    HistoryGrows(Step(s, a), after);
    StaysPoisoned(Step(s, a), after);
  }

  lemma GivenUp(s: State, a: Action)
    requires Inv(s) && GivesUp(s, a) && s.active.value.recovery.Some?
    ensures var r := Step(s, a); var k := s.active.value.item.future;
            && Inv(r) && r.active.None? && r.timedOut == Some(k + 1)
            && |Items(s.enqueued)| == k + 1 && Items(s.enqueued)[k] == s.active.value.item
            && Items(r.enqueued) == Items(s.enqueued) + [Item(k + 1, s.active.value.recovery.value)]
            && r.closed == s.closed
  {
    ActiveIsLast(s);
    hide Inv, Items;
    StepKeeps(s, a);
    GivingUpAbandons(s, a);
    hide Step;
    EnqueueItems(s, s.active.value.recovery.value);
  }

  lemma GivingUpAbandons(s: State, a: Action)
    requires GivesUp(s, a)
    ensures Step(s, a) == Abandon(s)
  {
  }

  lemma ActiveIsLast(s: State)
    requires Inv(s) && s.active.Some?
    ensures var k := s.active.value.item.future;
            |Items(s.enqueued)| == k + 1 == s.nextFuture && Items(s.enqueued)[k] == s.active.value.item
  {
    hide Items, Fifo, Marked, Posted;
  }

  lemma {:induction false} WorkOnlyItems(requests: seq<Request>)
    requires Stop !in requests
    ensures |Items(requests)| == |requests|
    ensures forall i | 0 <= i < |requests| :: Items(requests)[i] == requests[i].item
  {
    if requests != [] {
      WorkOnlyItems(requests[1..]);
    }
  }

  /** Nothing that stands behind the stop marker is ever executed. */
  lemma NothingRunsAfterStop(before: seq<Action>, after: seq<Action>, k: nat)
    requires k < |Reached(before).enqueued| && Reached(before).enqueued[k].Stop?
    ensures var t := Exec(Reached(before), after);
            |t.trace| + |One(t.executing)| <= k
  {
    var s := Reached(before);
    ReachedInv(before);
    ExecKeeps(s, after);
    HistoryGrows(s, after);
    var t := Exec(s, after);
    assert t.enqueued[k].Stop?;
    assert forall i | 0 <= i < |t.trace| :: t.enqueued[i] == AsWork(t.trace)[i];
  }

  /** One turn of the worker loop. */
  function Turn(s: State): State {
    Step(Step(s, Take), Finish(Returned(true)))
  }

  lemma TurnRuns(s: State)
    requires Inv(s) && !s.closed && s.executing.None?
    ensures var t := Turn(s);
            && Inv(t) && !t.closed && t.executing.None?
            && t.enqueued == s.enqueued && t.active == s.active && t.timedOut == s.timedOut
            && |t.trace| == if |s.trace| < |Items(s.enqueued)| then |s.trace| + 1 else |s.trace|
  {
    NoMarkerWaits(s);
    hide Inv, Items;
    StepKeeps(s, Take);
    StepKeeps(Step(s, Take), Finish(Returned(true)));
    TurnTrace(s);
    hide Step;
  }

  lemma TurnTrace(s: State)
    requires s.executing.None? && !s.stopped && forall i | 0 <= i < |s.requests| :: s.requests[i].Work?
    ensures var t := Turn(s);
            && t.executing.None? && t.closed == s.closed && t.enqueued == s.enqueued
            && t.active == s.active && t.timedOut == s.timedOut
            && |t.trace| == if s.requests == [] then |s.trace| else |s.trace| + 1
  {
  }

  /** Until the queue is closed the worker has not stopped and only work waits. */
  lemma NoMarkerWaits(s: State)
    requires Inv(s) && !s.closed
    ensures !s.stopped && |s.requests| + |One(s.executing)| == |Items(s.enqueued)| - |s.trace|
    ensures forall i | 0 <= i < |s.requests| :: s.requests[i].Work?
  {
    hide Items, Numbered, Posted, Bounded;
    ItemsSplit(s);
    assert forall r | r in s.requests :: r in s.enqueued;
    assert forall r | r in Head(s.executing, s.stopped) :: r in s.enqueued;
    assert s.stopped ==> Stop in Head(s.executing, s.stopped);
    WorkOnlyItems(s.requests);
  }

  const WORKER_DRAINS := [Finish(Returned(true)), Take, Finish(Returned(true)), Take, Finish(Returned(true))]

  lemma WorkerDrains(s: State)
    requires Inv(s) && !s.closed
    ensures var t := Exec(s, WORKER_DRAINS);
            && Inv(t) && !t.closed && t.enqueued == s.enqueued
            && t.active == s.active && t.timedOut == s.timedOut
            && |t.trace| == |Items(t.enqueued)|
  {
    hide Inv, Items, Turn;
    var s0 := Step(s, Finish(Returned(true)));
    StepKeeps(s, Finish(Returned(true)));
    TwoTurns(s0);
    assert Exec(s, WORKER_DRAINS) == Turn(Turn(s0));
    UnfinishedAtMostTwo(s0);
    TurnRuns(s0);
    TurnRuns(Turn(s0));
  }

  lemma UnfinishedAtMostTwo(s: State)
    requires Inv(s)
    ensures |s.trace| <= |Items(s.enqueued)| <= |s.trace| + 2
  {
    ItemsSplit(s);
  }

  lemma TwoTurns(s: State)
    ensures Exec(s, WORKER_DRAINS[1..]) == Turn(Turn(s))
  {
    var s1 := Step(s, Take);
    var s2 := Step(s1, Finish(Returned(true)));
    var s3 := Step(s2, Take);
    assert WORKER_DRAINS[1..][1..][1..][1..][1..] == [];
    assert Exec(s1, WORKER_DRAINS[1..][1..]) == Exec(s2, WORKER_DRAINS[1..][1..][1..]);
    assert Exec(s3, WORKER_DRAINS[1..][1..][1..][1..]) == Step(s3, Finish(Returned(true)));
  }

  /** The documentation says the reserved recovery becomes the worker's next item. That is so
      exactly when the queue was not shut down before the caller gave up: otherwise the recovery
      stands behind the stop marker and no continuation executes it. */
  lemma RecoveryCanRunIff(before: seq<Action>, a: Action)
    requires GivesUp(Reached(before), a) && Reached(before).active.value.recovery.Some?
    ensures var s := Reached(before); var k := s.active.value.item.future;
            (exists after :: k + 1 < |Exec(Step(s, a), after).trace|) <==> !s.closed
  {
    var s := Reached(before);
    ReachedInv(before);
    var k := s.active.value.item.future;
    var r := Step(s, a);
    GivenUp(s, a);
    if !s.closed {
      WorkerDrains(r);
      assert k + 1 < |Exec(r, WORKER_DRAINS).trace|;
    } else {
      var j :| 0 <= j < |s.enqueued| && s.enqueued[j] == Stop;
      MarkerBehindItems(s.enqueued, j);
      forall after
        ensures |Exec(r, after).trace| <= k + 1
      {
        ExecConcat(INITIAL, before, [a] + after);
        ReachedSplit(before, a, after);
        NothingRunsAfterStop(before, [a] + after, j);
      }
    }
  }

  const CLOSED_MEANWHILE := [Submit(FanManual, Some(FanAuto)), Take, Shutdown]

  /** A manual call is running when the queue is shut down; its deadline passes afterwards. Whatever
      happens then, the reserved auto request never runs. */
  lemma StrandedRecoveryExample(after: seq<Action>)
    ensures var s := Reached(CLOSED_MEANWHILE); var t := Exec(Step(s, Deadline), after);
            && GivesUp(s, Deadline) && s.active.value.recovery == Some(FanAuto)
            && Items(Step(s, Deadline).enqueued) == [Item(0, FanManual), Item(1, FanAuto)]
            && |t.trace| <= 1
  {
    hide Items, Inv, Step, Exec, Done;
    var s := Reached(CLOSED_MEANWHILE);
    ClosedMeanwhile();
    ReachedInv(CLOSED_MEANWHILE);
    GivenUp(s, Deadline);
    RecoveryCanRunIff(CLOSED_MEANWHILE, Deadline);
  }

  lemma ClosedMeanwhile()
    ensures var s := Reached(CLOSED_MEANWHILE);
            && s.closed && s.active == Some(Waiter(Item(0, FanManual), Some(FanAuto))) && GivesUp(s, Deadline)
  {
    ExecThree(INITIAL, Submit(FanManual, Some(FanAuto)), Take, Shutdown);
  }

  lemma ReachedSplit(before: seq<Action>, a: Action, after: seq<Action>)
    ensures Exec(Reached(before), [a] + after) == Exec(Step(Reached(before), a), after)
  {
    assert ([a] + after)[1..] == after;
  }

  lemma MarkerBehindItems(enqueued: seq<Request>, j: nat)
    requires j < |enqueued| && enqueued[j].Stop?
    requires forall i, j | 0 <= i < j < |enqueued| :: !(enqueued[i].Stop? && enqueued[j].Stop?)
    ensures j <= |Items(enqueued)|
  {
    WorkOnlyItems(enqueued[..j]);
    ItemsConcat(enqueued[..j], enqueued[j..]);
    assert enqueued[..j] + enqueued[j..] == enqueued;
  }

  const SETTLE := WORKER_DRAINS + [Deliver, Deliver, Wake]

  lemma TwoCallbacks(s: State)
    requires Inv(s) && |s.trace| == |Items(s.enqueued)|
    ensures var t := Step(Step(s, Deliver), Deliver);
            && Inv(t) && t.callbacks == [] && t.trace == s.trace && t.enqueued == s.enqueued
            && t.active == s.active && t.timedOut == s.timedOut && t.closed == s.closed
  {
    AtMostTwoCallbacks(s);
    hide Inv, Items;
    StepKeeps(s, Deliver);
    StepKeeps(Step(s, Deliver), Deliver);
  }

  lemma AtMostTwoCallbacks(s: State)
    requires Inv(s) && |s.trace| == |Items(s.enqueued)|
    ensures |s.callbacks| <= 2
  {
    hide Items, Fifo, Marked, Numbered;
  }

  lemma PollFrees(s: State)
    requires Inv(s) && !s.closed && s.callbacks == [] && |s.trace| == |Items(s.enqueued)|
    ensures var t := Step(s, Wake);
            Inv(t) && !t.closed && t.active.None? && (s.active.None? ==> Admits(t))
  {
    AllDone(s);
    hide Inv, Items, Done;
    StepKeeps(s, Wake);
  }

  lemma AllDone(s: State)
    requires Inv(s) && s.callbacks == [] && |s.trace| == |Items(s.enqueued)|
    ensures s.active.Some? ==> Done(s, s.active.value.item.future)
    ensures s.timedOut.Some? ==> Done(s, s.timedOut.value)
  {
    hide Items, Fifo, Marked;
  }

  /** When the loop has run two more callbacks after the worker drained, nothing is outstanding. */
  lemma Settles(s: State)
    requires Inv(s) && !s.closed
    ensures var t := Exec(s, SETTLE);
            && Inv(t) && !t.closed && t.active.None?
            && (s.active.None? ==> Admits(t))
  {
    var w := Exec(s, WORKER_DRAINS);
    WorkerDrains(s);
    TwoCallbacks(w);
    PollFrees(Step(Step(w, Deliver), Deliver));
    ExecConcat(s, WORKER_DRAINS, [Deliver, Deliver, Wake]);
    ExecThree(w, Deliver, Deliver, Wake);
  }

  lemma ExecThree(s: State, a: Action, b: Action, c: Action)
    ensures Exec(s, [a, b, c]) == Step(Step(Step(s, a), b), c)
  {
    assert [a, b, c][1..] == [b, c] && [b, c][1..] == [c] && [c][1..] == [];
    assert Exec(Step(s, a), [b, c]) == Exec(Step(Step(s, a), b), [c]);
  }

  /** The queue never stays poisoned for good: from every state reached without a shutdown,
      some continuation makes it admit calls again. */
  lemma NeverStuck(actions: seq<Action>)
    requires !Reached(actions).closed
    ensures Admits(Reached(actions + SETTLE + SETTLE))
  {
    ReachedInv(actions);
    Settles(Reached(actions));
    Settles(Exec(Reached(actions), SETTLE));
    ExecConcat(INITIAL, actions, SETTLE);
    ExecConcat(INITIAL, actions + SETTLE, SETTLE);
  }

  // -- One call of run, against everything that happens meanwhile ----------------------

  /** What happens while a caller waits: `before` it gets the lock, whether it is cancelled
      there, and `during` the call itself up to its deadline. */
  datatype Wait = Wait(before: seq<Action>, cancelled: bool, during: seq<Action>)

  datatype Exit =
    | BadTimeout                          // ValueError
    | Unavailable                         // the queue is shut down
    | Busy                                // a timed-out command is still running
    | Value(truthy: bool)
    | Failure
    | TimedOut(recovery: Option<nat>)     // CommandTimeoutError.recovery_future
    | Cancelled

  /** Somebody holds the lock at some moment of these actions, so that a caller has to wait for it;
      at a free lock a caller does not suspend and cannot be cancelled. */
  predicate Contended(s: State, before: seq<Action>)
    decreases |before|
  {
    s.active.Some? || (before != [] && Contended(Step(s, before[0]), before[1..]))
  }

  /** The caller is cancelled while it waits for the lock. */
  predicate LostWaiting(s: State, w: Wait) {
    w.cancelled && Contended(s, w.before)
  }

  /** The lock is free again once its holder polls or runs out of time. */
  function LockAcquired(s: State, before: seq<Action>): State {
    Step(Step(Exec(s, before), Wake), Deadline)
  }

  lemma LockIsFree(s: State, before: seq<Action>)
    ensures LockAcquired(s, before).active.None?
  {
  }

  lemma RefusedStays(s: State, call: HwCall, recovery: Option<HwCall>)
    requires !Admits(s)
    ensures Step(s, Submit(call, recovery)) == s
  {
  }

  function TimeoutExit(s: State): Exit
    requires s.active.Some?
  {
    TimedOut(if s.active.value.recovery.Some? then Some(s.nextFuture) else None)
  }

  function Finished(s: State): (State, Exit)
    requires s.active.Some? && Done(s, s.active.value.item.future)
  {
    (Step(s, Wake),
     match s.futures[s.active.value.item.future]
     case Returned(b) => Value(b)
     case Raised => Failure
     case RaisedTimeout => TimeoutExit(s))
  }

  /** `_wait_for_completion`: poll, and give up when the deadline has passed. */
  function Await(s: State, during: seq<Action>): (State, Exit)
    requires s.active.Some?
    decreases |during|
  {
    var done := Done(s, s.active.value.item.future);
    if during == [] then
      if done then Finished(s) else (Step(s, Deadline), TimeoutExit(s))
    else
      match during[0]
      case Cancel => (Step(s, Cancel), Cancelled)
      case Wake => if done then Finished(s) else Await(s, during[1..])
      case Deadline => if done then Await(s, during[1..]) else (Step(s, Deadline), TimeoutExit(s))
      case _ => Await(Step(s, during[0]), during[1..])
  }

  function RunCall(s: State, call: HwCall, recovery: Option<HwCall>, timeout: real, w: Wait): (State, Exit) {
    if timeout <= 0.0 then (s, BadTimeout)
    else if LostWaiting(s, w) then (Exec(s, w.before), Cancelled)
    else
      var locked := LockAcquired(s, w.before);
      if locked.closed then (locked, Unavailable)
      else if Poisoned(locked) then (locked, Busy)
      else Await(Step(locked, Submit(call, recovery)), w.during)
  }

  /** How a call that was admitted with `waiter` can leave the queue in state t. */
  ghost predicate Leaves(items: seq<Item>, waiter: Waiter, t: State, exit: Exit) {
    var k := waiter.item.future;
    var ran := Items(t.enqueued) == items && |t.trace| == k + 1 && t.timedOut.None? && Done(t, k);
    var gaveUp :=
      match waiter.recovery
      case None => Items(t.enqueued) == items && t.timedOut == Some(k)
      case Some(call) => Items(t.enqueued) == items + [Item(k + 1, call)] && t.timedOut == Some(k + 1);
    match exit
    case Value(b) => ran && t.futures[k] == Returned(b)
    case Failure => ran && t.futures[k] == Raised
    case TimedOut(recovery) => gaveUp && recovery == if waiter.recovery.Some? then t.timedOut else None
    case Cancelled => ran || gaveUp
    case _ => false
  }

  lemma WaiterStep(s: State, a: Action)
    requires Inv(s) && s.active.Some? && !a.Wake? && !a.Deadline? && !a.Cancel?
    ensures var t := Step(s, a);
            Inv(t) && t.active == s.active && Items(t.enqueued) == Items(s.enqueued)
  {
    hide Inv;
    StepKeeps(s, a);
    ItemsConcat(s.enqueued, [Stop]);
  }

  lemma ActiveFacts(s: State)
    requires Inv(s) && s.active.Some?
    ensures var k := s.active.value.item.future;
            && |Items(s.enqueued)| == k + 1 && s.nextFuture == k + 1 && s.timedOut.None?
            && (Done(s, k) ==> |s.trace| == k + 1)
  {
    TraceIsItems(s);
  }

  lemma WaiterGivesUp(s: State, a: Action)
    requires Inv(s) && GivesUp(s, a)
    ensures var t := Step(s, a); var waiter := s.active.value;
            && Inv(t) && t.active.None?
            && Leaves(Items(s.enqueued), waiter, t, TimeoutExit(s))
            && Leaves(Items(s.enqueued), waiter, t, Cancelled)
  {
    hide Inv;
    StepKeeps(s, a);
    ActiveFacts(s);
    if s.active.value.recovery.Some? {
      EnqueueItems(s, s.active.value.recovery.value);
    }
  }

  lemma WaiterReturns(s: State, a: Action)
    requires Inv(s) && s.active.Some? && Done(s, s.active.value.item.future)
    requires a.Cancel? || (a.Wake? && !s.futures[s.active.value.item.future].RaisedTimeout?)
    ensures var t := Step(s, a); var waiter := s.active.value;
            && Inv(t) && t.active.None?
            && Leaves(Items(s.enqueued), waiter, t, if a.Cancel? then Cancelled else Finished(s).1)
  {
    hide Inv;
    StepKeeps(s, a);
    ActiveFacts(s);
  }

  lemma GrowsTransitive(s: State, t: State, u: State)
    requires Grows(s, t) && Grows(t, u)
    ensures Grows(s, u)
  {
  }

  lemma {:induction false} AwaitLeaves(s: State, during: seq<Action>)
    requires Inv(s) && s.active.Some?
    ensures var (t, exit) := Await(s, during);
            && Inv(t) && t.active.None? && Grows(s, t) && Leaves(Items(s.enqueued), s.active.value, t, exit)
            && !exit.Busy? && !exit.Unavailable? && !exit.BadTimeout?
    decreases |during|
  {
    hide Inv, Leaves, Grows;
    var future := s.active.value.item.future;
    var a := if during != [] then during[0] else if Done(s, future) then Wake else Deadline;
    StepGrows(s, a);
    if GivesUp(s, a) {
      WaiterGivesUp(s, a);
    } else if a.Cancel? || (a.Wake? && Done(s, future)) {
      WaiterReturns(s, a);
    } else if a.Wake? || a.Deadline? {
      AwaitLeaves(s, during[1..]);
    } else {
      WaiterStep(s, a);
      AwaitLeaves(Step(s, a), during[1..]);
      GrowsTransitive(s, Step(s, a), Await(s, during).0);
    }
  }

  lemma LockKeeps(s: State, before: seq<Action>)
    requires Inv(s)
    ensures var locked := LockAcquired(s, before);
            Inv(locked) && locked.active.None? && Grows(s, locked)
  {
    hide Inv, Grows;
    var q := Exec(s, before);
    ExecKeeps(s, before);
    HistoryGrows(s, before);
    StepKeeps(q, Wake);
    StepGrows(q, Wake);
    StepKeeps(Step(q, Wake), Deadline);
    StepGrows(Step(q, Wake), Deadline);
    GrowsTransitive(s, q, Step(q, Wake));
    GrowsTransitive(s, Step(q, Wake), LockAcquired(s, before));
  }

  lemma Admitted(s: State, call: HwCall, recovery: Option<HwCall>)
    requires Inv(s) && Admits(s)
    ensures var t := Step(s, Submit(call, recovery)); var item := Item(|Items(s.enqueued)|, call);
            && Inv(t) && Grows(s, t) && t.active == Some(Waiter(item, recovery))
            && Items(t.enqueued) == Items(s.enqueued) + [item]
  {
    assert s.nextFuture == |Items(s.enqueued)|;
    hide Inv, Grows;
    StepKeeps(s, Submit(call, recovery));
    StepGrows(s, Submit(call, recovery));
    EnqueueItems(s, call);
  }

  /** What one call of run leaves behind, for every schedule: cancelled before admission it leaves
      the lock to its holder, refused it enqueues nothing; admitted, it leaves in one of the ways of
      `Leaves`. */
  lemma RunCallLeaves(s: State, call: HwCall, recovery: Option<HwCall>, timeout: real, w: Wait)
    requires Inv(s) && timeout > 0.0
    ensures var (t, exit) := RunCall(s, call, recovery, timeout, w);
            var locked := LockAcquired(s, w.before);
            && Inv(locked) && locked.active.None? && Grows(s, locked)
            && Inv(t) && Grows(s, t) && !exit.BadTimeout?
            && (LostWaiting(s, w) ==> t == Exec(s, w.before) && exit == Cancelled)
            && (!LostWaiting(s, w) ==> t.active.None? && Grows(locked, t))
            && (exit.Busy? || exit.Unavailable? ==> t == locked && !Admits(locked))
            && (!exit.Busy? && !exit.Unavailable? && !LostWaiting(s, w) ==>
                  var item := Item(|Items(locked.enqueued)|, call);
                  Leaves(Items(locked.enqueued) + [item], Waiter(item, recovery), t, exit))
  {
    hide Inv, Leaves, Grows, Exec;
    var locked := LockAcquired(s, w.before);
    LockKeeps(s, w.before);
    ExecKeeps(s, w.before);
    HistoryGrows(s, w.before);
    GrowsSame(locked);
    if !LostWaiting(s, w) && Admits(locked) {
      Admitted(locked, call, recovery);
      var t := Step(locked, Submit(call, recovery));
      AwaitLeaves(t, w.during);
      GrowsTransitive(locked, t, Await(t, w.during).0);
      GrowsTransitive(s, locked, Await(t, w.during).0);
    }
  }

  lemma GrowsSame(s: State)
    ensures Grows(s, s)
  {
  }

  /** Which refusal a call gets, for every schedule: a deadline that is not positive is an error of
      the caller and touches nothing; past that, and unless it is cancelled waiting for the lock, the
      queue is found shut down exactly when it is closed by then, and busy exactly when it is open and a
      timed-out command is unfinished. Every other call is admitted. */
  lemma RefusalIff(s: State, call: HwCall, recovery: Option<HwCall>, timeout: real, w: Wait)
    requires Inv(s)
    ensures var (t, exit) := RunCall(s, call, recovery, timeout, w);
            (exit.BadTimeout? <==> timeout <= 0.0) && (exit.BadTimeout? ==> t == s)
    ensures timeout > 0.0 && !LostWaiting(s, w) ==>
              var exit := RunCall(s, call, recovery, timeout, w).1; var locked := LockAcquired(s, w.before);
              && (exit.Unavailable? <==> locked.closed)
              && (exit.Busy? <==>
                    !locked.closed && locked.timedOut.Some? && locked.timedOut.value !in locked.futures)
              && (Admits(locked) <==> !exit.Busy? && !exit.Unavailable?)
  {
    hide Inv, Leaves, Grows, Exec, Step, Await;
    if timeout > 0.0 {
      var locked := LockAcquired(s, w.before);
      LockKeeps(s, w.before);
      if !LostWaiting(s, w) && Admits(locked) {
        Admitted(locked, call, recovery);
        AwaitLeaves(Step(locked, Submit(call, recovery)), w.during);
      }
    }
  }

  // -- Cancellation, read off the schedule -------------------------------------------------

  /** How far the hardware has come with the call that a waiter waits for. */
  datatype Progress =
    | Queued
    | Running
    | Answered(result: HwResult)      // the call returned, its completion is not delivered
    | Arrived(result: HwResult)

  function Advance(p: Progress, a: Action): Progress {
    match a
    case Take => if p.Queued? then Running else p
    case Finish(result) => if p.Running? then Answered(result) else p
    case Deliver => if p.Answered? then Arrived(p.result) else p
    case _ => p
  }

  /** Whether the schedule cancels the wait, and how far the call had come by then. */
  function Cut(during: seq<Action>, p: Progress): Option<Progress>
    decreases |during|
  {
    if during == [] then None
    else
      match during[0]
      case Cancel => Some(p)
      case Wake => if p.Arrived? then None else Cut(during[1..], p)
      case Deadline => if p.Arrived? then Cut(during[1..], p) else None
      case a => Cut(during[1..], Advance(p, a))
  }

  /** The schedule cancels a call of run, waiting for the lock or waiting for its completion. */
  predicate CallCut(s: State, w: Wait) {
    LostWaiting(s, w) || (Admits(LockAcquired(s, w.before)) && Cut(w.during, Queued).Some?)
  }

  /** The answer that a poll finds, unless the schedule cancels the wait or ends it first. */
  function Seen(during: seq<Action>, p: Progress): Option<HwResult>
    decreases |during|
  {
    if during == [] then if p.Arrived? then Some(p.result) else None
    else
      match during[0]
      case Cancel => None
      case Wake => if p.Arrived? then Some(p.result) else Seen(during[1..], p)
      case Deadline => if p.Arrived? then Seen(during[1..], p) else None
      case a => Seen(during[1..], Advance(p, a))
  }

  /** What the hardware has answered, as a piece of its trace. */
  function Answer(item: Item, p: Progress): seq<Completed> {
    if p.Answered? || p.Arrived? then [Completed(item, p.result)] else []
  }

  predicate OnlyStops(requests: seq<Request>) {
    forall i | 0 <= i < |requests| :: requests[i].Stop?
  }

  /** The queue while `item` is waited for and has come this far. */
  ghost predicate Stands(s: State, base: seq<Completed>, item: Item, p: Progress) {
    && s.active.Some? && s.active.value.item == item && s.timedOut.None?
    && s.trace == base + Answer(item, p)
    && (Done(s, item.future) <==> p.Arrived?)
    && (p.Arrived? ==> s.futures[item.future] == p.result)
    && s.callbacks == (if p.Answered? then Answer(item, p) else [])
    && s.executing == (if p.Running? then Some(item) else None)
    && (p.Queued? ==> !s.stopped && s.requests != [] && s.requests[0] == Work(item))
    && OnlyStops(if p.Queued? then s.requests[1..] else s.requests)
  }

  lemma StandsStep(s: State, base: seq<Completed>, item: Item, p: Progress, a: Action)
    requires Stands(s, base, item, p) && !a.Wake? && !a.Deadline? && !a.Cancel?
    ensures Stands(Step(s, a), base, item, Advance(p, a))
  {
  }

  lemma {:induction false} AwaitCut(s: State, during: seq<Action>, base: seq<Completed>, item: Item, p: Progress)
    requires Stands(s, base, item, p)
    ensures var (t, exit) := Await(s, during); var cut := Cut(during, p);
            && (exit.Cancelled? <==> cut.Some?)
            && (forall b :: exit == Value(b) <==> Seen(during, p) == Some(Returned(b)))
            && (exit == Failure <==> Seen(during, p) == Some(Raised))
            && (exit.TimedOut? && Done(t, item.future) ==> t.futures[item.future].RaisedTimeout?)
            && (cut.Some? ==> t.trace == base + Answer(item, cut.value) && (t.timedOut.Some? <==> !cut.value.Arrived?))
    decreases |during|
  {
    if during != [] {
      var a := during[0];
      if !a.Wake? && !a.Deadline? && !a.Cancel? {
        StandsStep(s, base, item, p, a);
        hide Stands;
        AwaitCut(Step(s, a), during[1..], base, item, Advance(p, a));
      } else if (a.Wake? && !p.Arrived?) || (a.Deadline? && p.Arrived?) {
        AwaitCut(s, during[1..], base, item, p);
      }
    }
  }

  lemma AdmittedStands(s: State, call: HwCall, recovery: Option<HwCall>)
    requires Inv(s) && Admits(s)
    ensures Stands(Step(s, Submit(call, recovery)), s.trace, Item(|s.trace|, call), Queued)
    ensures Ran(s.trace) == Items(s.enqueued)
  {
    AdmittedDrained(s);
    NoMarkerWaits(s);
    ItemsSplit(s);
    NextNotDone(s);
    hide Inv, Items;
    assert s.requests == [];
  }

  lemma NextNotDone(s: State)
    requires Inv(s)
    ensures s.nextFuture == |Items(s.enqueued)| && !Done(s, s.nextFuture)
  {
    TraceIsItems(s);
    hide Items;
  }

  /** A call that is admitted ends by cancellation exactly when its schedule says so. The trace has
      then grown by what the hardware had answered, and the queue is poisoned exactly when that
      answer had not arrived. */
  lemma CancelledIff(s: State, call: HwCall, recovery: Option<HwCall>, timeout: real, w: Wait)
    requires Inv(s) && timeout > 0.0 && !LostWaiting(s, w)
    ensures var (t, exit) := RunCall(s, call, recovery, timeout, w);
            var locked := LockAcquired(s, w.before); var cut := Cut(w.during, Queued);
            && (exit.Cancelled? <==> Admits(locked) && cut.Some?)
            && (exit.Cancelled? ==>
                  && t.trace == locked.trace + Answer(Item(|locked.trace|, call), cut.value)
                  && (t.timedOut.Some? <==> !cut.value.Arrived?))
  {
    hide Inv, Stands, Exec;
    LockKeeps(s, w.before);
    var locked := LockAcquired(s, w.before);
    if Admits(locked) {
      AdmittedStands(locked, call, recovery);
      AwaitCut(Step(locked, Submit(call, recovery)), w.during, locked.trace, Item(|locked.trace|, call), Queued);
    }
  }

  /** How an admitted call ends is read off its schedule: cancelled, or with the answer that a poll
      finds, returned or raised; and it times out in every other case, among them a hardware call that
      itself raised a timeout. */
  lemma AdmittedExitIff(s: State, call: HwCall, recovery: Option<HwCall>, timeout: real, w: Wait)
    requires Inv(s) && timeout > 0.0 && !LostWaiting(s, w) && Admits(LockAcquired(s, w.before))
    ensures var exit := RunCall(s, call, recovery, timeout, w).1; var seen := Seen(w.during, Queued);
            && (exit.Cancelled? <==> Cut(w.during, Queued).Some?)
            && (forall b :: exit == Value(b) <==> seen == Some(Returned(b)))
            && (exit == Failure <==> seen == Some(Raised))
            && (exit.TimedOut? <==>
                  Cut(w.during, Queued).None? && (seen.None? || seen.value.RaisedTimeout?))
    ensures var (t, exit) := RunCall(s, call, recovery, timeout, w);
            var k := |Items(LockAcquired(s, w.before).enqueued)|;
            exit.TimedOut? && Done(t, k) ==> t.futures[k].RaisedTimeout?
  {
    hide Inv, Stands, Exec, Grows, Leaves;
    LockKeeps(s, w.before);
    var locked := LockAcquired(s, w.before);
    AdmittedStands(locked, call, recovery);
    assert |Items(locked.enqueued)| == |Ran(locked.trace)| == |locked.trace|;
    Admitted(locked, call, recovery);
    AwaitLeaves(Step(locked, Submit(call, recovery)), w.during);
    AwaitCut(Step(locked, Submit(call, recovery)), w.during, locked.trace, Item(|locked.trace|, call), Queued);
  }
}
