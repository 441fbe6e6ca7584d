/** The hardware command queue as an object, refining the protocol of `CommandQueue`. */
module HardwareQueue {
  import opened Wrappers
  import opened CommandQueue

  /** The queue as the event loop and the worker mutate it. Every method is one atomic step;
      `history` records the steps, so that whatever holds of every run holds of every object. */
  class HardwareCommandQueue {
    var requests: seq<Request>
    var executing: Option<Item>
    var stopped: bool
    var callbacks: seq<Completed>
    var futures: map<nat, HwResult>
    var nextFuture: nat
    var active: Option<Waiter>
    var timedOut: Option<nat>
    var closed: bool
    ghost var enqueued: seq<Request>
    ghost var trace: seq<Completed>
    ghost var history: seq<Action>

    ghost function View(): State
      reads this
    {
      State(requests, executing, stopped, callbacks, futures, nextFuture, active, timedOut, closed, enqueued, trace)
    }

    ghost predicate Valid()
      reads this
    {
      View() == Reached(history)
    }

    constructor ()
      ensures Valid() && View() == INITIAL && history == []
    {
      requests, executing, stopped, callbacks := [], None, false, [];
      futures, nextFuture, active, timedOut, closed := map[], 0, None, None, false;
      enqueued, trace, history := [], [], [];
    }

    /** Records a step that has just been taken. */
    ghost method Record(a: Action, before: State)
      requires before == Reached(history) && View() == Step(before, a)
      modifies this`history
      ensures Valid() && history == old(history) + [a]
    {
      ExecConcat(INITIAL, history, [a]);
      assert [a][1..] == [];
      history := history + [a];
    }

    method Put(call: HwCall) returns (future: nat)
      modifies this
      ensures View() == Enqueue(old(View()), call) && history == old(history)
      ensures future == old(nextFuture)
    {
      future := nextFuture;
      var work := Work(Item(future, call));
      requests := requests + [work];
      enqueued := enqueued + [work];
      nextFuture := nextFuture + 1;
    }

    method GiveUp() returns (recovery: Option<nat>)
      requires active.Some?
      modifies this
      ensures View() == Abandon(old(View())) && history == old(history)
      ensures TimedOut(recovery) == TimeoutExit(old(View()))
    {
      recovery := None;
      var poison := active.value.item.future;
      if active.value.recovery.Some? {
        poison := Put(active.value.recovery.value);
        recovery := Some(poison);
      }
      timedOut := Some(poison);
      active := None;
    }

    method TrySubmit(call: HwCall, recovery: Option<HwCall>) returns (refusal: Option<Exit>)
      requires Valid() && active.None?
      modifies this
      ensures Valid() && View() == Step(old(View()), Submit(call, recovery))
      ensures refusal.None? <==> Admits(old(View()))
      ensures refusal.Some? ==> refusal.value == if old(closed) then Unavailable else Busy
      ensures refusal.None? ==> active == Some(Waiter(Item(old(nextFuture), call), recovery))
    {
      ghost var before := View();
      refusal := None;
      if closed {
        refusal := Some(Unavailable);
      } else if timedOut.Some? && timedOut.value !in futures {
        refusal := Some(Busy);
      } else {
        timedOut := None;
        var future := Put(call);
        active := Some(Waiter(Item(future, call), recovery));
      }
      Record(Submit(call, recovery), before);
    }

    method WorkerTake()
      requires Valid()
      modifies this
      ensures Valid() && View() == Step(old(View()), Take)
    {
      ghost var before := View();
      if !stopped && executing.None? && requests != [] {
        var request := requests[0];
        requests := requests[1..];
        if request.Stop? {
          stopped := true;
        } else {
          executing := Some(request.item);
        }
      }
      Record(Take, before);
    }

    method WorkerFinish(result: HwResult)
      requires Valid()
      modifies this
      ensures Valid() && View() == Step(old(View()), Finish(result))
    {
      ghost var before := View();
      if executing.Some? {
        var done := Completed(executing.value, result);
        callbacks := callbacks + [done];
        trace := trace + [done];
        executing := None;
      }
      Record(Finish(result), before);
    }

    method RunCallback()
      requires Valid()
      modifies this
      ensures Valid() && View() == Step(old(View()), Deliver)
    {
      ghost var before := View();
      if callbacks != [] {
        var done := callbacks[0];
        callbacks := callbacks[1..];
        if done.item.future !in futures {
          futures := futures[done.item.future := done.result];
        }
      }
      Record(Deliver, before);
    }

    /** The waiter's turn: poll, run out of time, or be cancelled. */
    method Waiting(a: Action) returns (recovery: Option<nat>)
      requires Valid() && a in {Wake, Deadline, Cancel}
      modifies this
      ensures Valid() && View() == Step(old(View()), a)
      ensures old(active.Some? && GivesUp(View(), a)) ==> TimedOut(recovery) == TimeoutExit(old(View()))
    {
      ghost var before := View();
      recovery := None;
      if active.Some? {
        var future := active.value.item.future;
        if future !in futures {
          if a != Wake {
            recovery := GiveUp();
          }
        } else if a == Wake && futures[future].RaisedTimeout? {
          recovery := GiveUp();
        } else if a != Deadline {
          active := None;
        }
      }
      Record(a, before);
    }

    method ShutDown()
      requires Valid()
      modifies this
      ensures Valid() && View() == Step(old(View()), Shutdown)
    {
      ghost var before := View();
      if !closed {
        closed := true;
        requests := requests + [Stop];
        enqueued := enqueued + [Stop];
      }
      Record(Shutdown, before);
    }

    /** Any participant's step. */
    method Perform(a: Action)
      requires Valid()
      modifies this
      ensures Valid() && View() == Step(old(View()), a)
    {
      match a
      case Submit(call, recovery) =>
        if active.None? {
          var _ := TrySubmit(call, recovery);
        } else {
          Record(a, View());
        }
      case Take => WorkerTake();
      case Finish(result) => WorkerFinish(result);
      case Deliver => RunCallback();
      case Shutdown => ShutDown();
      case _ => var _ := Waiting(a);
    }

    method PerformAll(actions: seq<Action>)
      requires Valid()
      modifies this
      ensures Valid() && View() == Exec(old(View()), actions)
    {
      var i := 0;
      while i < |actions|
        invariant 0 <= i <= |actions| && Valid()
        invariant Exec(View(), actions[i..]) == Exec(old(View()), actions)
      {
        Perform(actions[i]);
        i := i + 1;
      }
    }

    /** The same, while a caller asks for the lock: whether it has to wait. */
    method PerformWatching(actions: seq<Action>) returns (waited: bool)
      requires Valid()
      modifies this
      ensures Valid() && View() == Exec(old(View()), actions)
      ensures waited == Contended(old(View()), actions)
    {
      waited := active.Some?;
      var i := 0;
      while i < |actions|
        invariant 0 <= i <= |actions| && Valid()
        invariant Exec(View(), actions[i..]) == Exec(old(View()), actions)
        invariant (waited || Contended(View(), actions[i..])) == Contended(old(View()), actions)
        invariant active.Some? ==> waited
      {
        assert actions[i..][1..] == actions[i + 1..];
        Perform(actions[i]);
        waited := waited || active.Some?;
        i := i + 1;
      }
    }

    /** `run`: one hardware call from admission to exit. */
    method Run(call: HwCall, recovery: Option<HwCall>, timeout: real, w: Wait) returns (exit: Exit)
      requires Valid()
      modifies this
      ensures Valid() && (View(), exit) == RunCall(old(View()), call, recovery, timeout, w)
    {
      hide Exec, Contended, Await, Step;
      if timeout <= 0.0 {
        return BadTimeout;
      }
      var waited := PerformWatching(w.before);
      if w.cancelled && waited {
        return Cancelled;
      }
      Perform(Wake);
      Perform(Deadline);
      LockIsFree(old(View()), w.before);
      ghost var locked := View();
      var refusal := TrySubmit(call, recovery);
      if refusal.Some? {
        RefusedStays(locked, call, recovery);
        return refusal.value;
      }
      exit := WaitForCompletion(w.during);
    }

    method WaitForCompletion(during: seq<Action>) returns (exit: Exit)
      requires Valid() && active.Some?
      modifies this
      ensures Valid() && (View(), exit) == Await(old(View()), during)
    {
      var future := active.value.item.future;
      var i := 0;
      while i < |during|
        invariant 0 <= i <= |during| && Valid()
        invariant active.Some? && active.value.item.future == future
        invariant Await(View(), during[i..]) == Await(old(View()), during)
      {
        var a := during[i];
        if a == Cancel {
          var _ := Waiting(Cancel);
          return Cancelled;
        } else if a == Wake && future in futures {
          break;
        } else if a == Deadline && future !in futures {
          var reserved := Waiting(Deadline);
          return TimedOut(reserved);
        } else if a != Wake && a != Deadline {
          Perform(a);
        }
        i := i + 1;
      }
      if future !in futures {
        var reserved := Waiting(Deadline);
        return TimedOut(reserved);
      }
      var result := futures[future];
      var reserved := Waiting(Wake);
      exit := match result
        case Returned(b) => Value(b)
        case Raised => Failure
        case RaisedTimeout => TimedOut(reserved);
    }
  }
}
