/**
 * The pool as the object it is: fields written in place, one method a critical
 * section.  Each method is proved to take the step of `PoolSpec` it stands for,
 * so what `PoolTheorems` says of every run holds of this object.
 */
module Pool {
  import opened Common
  import Spec = PoolSpec
  import opened PoolSpec
  import opened PoolInvariant
  import opened PoolStops
  import opened PoolEffects

  /** What `cancel` answers: not running, cannot be stopped here, or asked of that slot's run. */
  datatype CancelAnswer = NotRunning | CannotStop | Asked(thread: nat, key: Option<string>)

  /** What `update` answers: given the test, already started or ended, or not the item's model (an error). */
  datatype UpdateAnswer = Updated | TooLate | WrongModel

  method AskedToStop(items: seq<Item>, held: set<nat>) returns (asked: seq<Item>)
    ensures |asked| == |items|
    ensures forall k :: 0 <= k < |items| ==>
        asked[k] == (if k in held then items[k].(stopAsked := true) else items[k])
  {
    asked := items;
    for k := 0 to |items|
      invariant |asked| == |items|
      invariant forall j :: 0 <= j < |items| ==>
          asked[j] == (if j < k && j in held then items[j].(stopAsked := true) else items[j])
    {
      if k in held {
        asked := asked[k := asked[k].(stopAsked := true)];
      }
    }
  }

  lemma MarkedOneMore(items: seq<Item>, ids: seq<nat>, i: nat, state: ItemState, told: Told)
    requires i < |items|
    ensures Marked(items, ids + [i], state, told) == Marked(items, ids, state, told)[i := items[i].(state := state, told := told)]
  {}

  lemma DroppedOneMore(active: map<string, nat>, ids: seq<nat>, i: nat, model: string)
    requires forall m :: m in active && active[m] == i ==> m == model
    requires model in active && active[model] == i
    ensures Dropped(active, ids + [i]) == Dropped(active, ids) - {model}
  {}

  /** What waits ends as `state`, and leaves the index. */
  method EndedWaiting(s: State, state: ItemState, told: Told) returns (items: seq<Item>, active: map<string, nat>)
    requires InvQueue(s) && InvActive(s)
    ensures items == Marked(s.items, s.waiting, state, told) && active == Dropped(s.active, s.waiting)
  {
    items, active := s.items, s.active;
    assert s.waiting[..0] == [];
    for k := 0 to |s.waiting|
      invariant items == Marked(s.items, s.waiting[..k], state, told)
      invariant active == Dropped(s.active, s.waiting[..k])
    {
      var i := s.waiting[k];
      assert s.waiting[..k + 1] == s.waiting[..k] + [i];
      MarkedOneMore(s.items, s.waiting[..k], i, state, told);
      DroppedOneMore(s.active, s.waiting[..k], i, s.items[i].test.model);
      active := active - {items[i].test.model};
      assert i !in s.waiting[..k];
      items := items[i := items[i].(state := state, told := told)];
    }
    assert s.waiting[..|s.waiting|] == s.waiting;
  }

  /** The queue and the index are of the items alone. */
  lemma QueueAsItWas(s: State, s': State)
    requires InvQueue(s) && InvActive(s) && s'.items == s.items && s'.waiting == s.waiting && s'.active == s.active
    ensures InvQueue(s') && InvActive(s')
  {}

  lemma DoUpdateIs(s: State, i: nat, test: Test, library: Option<nat>)
    ensures Do(s, DoUpdate(i, test, library)) == Spec.Update(s, i, test, library)
  {}

  class SimulationPool {
    var items: seq<Item>
    var waiting: seq<nat>
    var active: map<string, nat>
    var threads: seq<Thread>
    var slots: map<nat, nat>
    var target: nat
    var closing: bool
    var stopped: Option<map<nat, string>>
    var failures: map<nat, string>
    var library: Option<nat>
    var started: seq<nat>
    var failer: Option<nat>
    var log: seq<Event>

    /** The fields as one value. */
    function Abs(): State
      reads this
    {
      State(items, waiting, active, threads, slots, target, closing, stopped, failures, library, started, failer, log)
    }

    constructor (workers: int)
      ensures Abs() == Init(workers) && Inv(Abs())
    {
      items, waiting, active, threads, slots := [], [], map[], [], map[];
      target, closing, stopped, failures, library := Max(1, workers), false, None, map[], None;
      started, failer, log := [], None, [];
      new;
      InitKeeps(workers);
    }

    // ----- the caller's side -----------------------------------------------------

    method SubmitAll(tests: seq<Test>, swept: Option<nat>) returns (got: seq<Option<nat>>)
      requires Inv(Abs())
      modifies this
      ensures Inv(Abs()) && Abs() == Do(old(Abs()), DoSubmitAll(tests, swept))
      ensures |got| == |tests| && Answered(old(Abs()), tests, got)
      ensures Appended(old(Abs()), tests, swept, got, items) && Queued(old(Abs()), items, waiting)
    {
      hide Inv, SpawnUpTo, Wanted, Appended, Queued, HandsFull, Grown, Live, Names, Answered;
      SubmitAllDoes(Abs(), tests, swept);
      ghost var was := Abs();
      got := [];
      var appended := 0;
      for k := 0 to |tests|
        invariant Abs() == AppendAll(was, tests[..k], swept)
        invariant got == Answers(was, tests[..k], swept)
        invariant |items| == |was.items| + appended
      {
        assert tests[..k + 1][..k] == tests[..k];
        var answer := Append(tests[k], swept);
        got := got + [answer];
        if answer.Some? {
          appended := appended + 1;
        }
      }
      assert tests[..|tests|] == tests;
      if appended > 0 {
        SpawnSlots();
      }
      SubmitAllKeeps(was, tests, swept);
    }

    /** The item, or None: refused. */
    method Append(test: Test, swept: Option<nat>) returns (got: Option<nat>)
      modifies this`library, this`active, this`waiting, this`items
      ensures Abs() == AppendOne(old(Abs()), test, swept)
      ensures got == if Refused(old(Abs()), test) then None else Some(old(|items|))
    {
      if closing || stopped.Some? || test.model in active {
        return None;
      }
      if swept.Some? && (library.None? || swept.value > library.value) {
        library := swept;
      }
      active := active[test.model := |items|];
      waiting := waiting + [|items|];
      items := items + [Item(test, swept, Waiting, None, None, false, Nothing)];
      return Some(|items| - 1);
    }

    /** One thread per item there is to run, up to the target. */
    method SpawnSlots()
      modifies this`threads, this`slots
      ensures Abs() == Spawn(old(Abs()))
    {
      ghost var was := Abs();
      var busy := |BusySlots(slots, threads)|;
      var want := Min(target, |waiting| + busy);
      while |slots| < want
        invariant SpawnUpTo(Abs(), want) == SpawnUpTo(was, want)
        invariant Abs() == was.(threads := threads, slots := slots)
        decreases want - |slots|
      {
        FreeSlotIsFree(slots, want);
        FreeSlotSkipsTaken(slots, 0, want);
        var w := 0;
        while w in slots
          invariant w <= FreeSlot(slots, 0, want)
          invariant FreeSlot(slots, w, want) == FreeSlot(slots, 0, want)
          decreases want - w
        {
          w := w + 1;
        }
        slots := slots[w := |threads|];
        threads := threads + [Thread(w, Making)];
      }
    }

    method SetWorkers(count: int)
      requires Inv(Abs())
      modifies this
      ensures Inv(Abs()) && Abs() == Do(old(Abs()), DoSetWorkers(count))
      ensures target == (if count >= 1 then count else 1)
      ensures |slots| == Max(old(|slots|), Min(target, |waiting| + |HandsFull(old(Abs()))|))
    {
      hide Inv, SpawnUpTo, HandsFull, Grown;
      SetWorkersDoes(Abs(), count);
      SetWorkersKeeps(Abs(), count);
      target := Max(1, count);
      SpawnSlots();
    }

    /** Nothing is changed once it has started, or ended, or for another model's test. */
    method Update(i: nat, test: Test, swept: Option<nat>) returns (answer: UpdateAnswer)
      requires Inv(Abs()) && i < |items|
      modifies this`items, this`library
      ensures Inv(Abs()) && Abs() == Do(old(Abs()), DoUpdate(i, test, swept))
      ensures answer.WrongModel? <==> test.model != old(items[i].test.model)
      ensures answer.Updated? <==> test.model == old(items[i].test.model) && old(items[i].state) == Waiting
      ensures Handed(old(Abs()), Abs(), i, test, swept)
    {
      hide Inv, Handed, Do;
      UpdateDoes(Abs(), i, test, swept);
      DoUpdateIs(Abs(), i, test, swept);
      UpdateKeeps(Abs(), i, test, swept);
      if test.model != items[i].test.model {
        return WrongModel;
      }
      if items[i].state != Waiting {
        return TooLate;
      }
      items := items[i := items[i].(test := test)];
      if swept.Some? && (items[i].library.None? || swept.value > items[i].library.value) {
        items := items[i := items[i].(library := swept)];
        if library.None? || swept.value > library.value {
          library := swept;
        }
      }
      assert items == Spec.Update(old(Abs()), i, test, swept).items;
      return Updated;
    }

    method Remove(i: nat) returns (done: bool)
      requires Inv(Abs()) && i < |items|
      modifies this`waiting, this`active, this`items
      ensures Inv(Abs()) && Abs() == Do(old(Abs()), DoRemove(i))
      ensures done == (old(items[i].state) == Waiting)
      ensures TakenOut(old(Abs()), Abs(), i)
    {
      hide Inv, TakenOut;
      RemoveDoes(Abs(), i);
      RemoveKeeps(Abs(), i);
      if items[i].state != Waiting {
        return false;
      }
      waiting := Without(waiting, i);
      active := active - {items[i].test.model};
      items := items[i := items[i].(state := Removed)];
      return true;
    }

    /** The lookup of the running item's slot cannot fail. */
    method Cancel(i: nat, canCancel: bool) returns (answer: CancelAnswer)
      requires Inv(Abs()) && i < |items|
      modifies this`items
      ensures Inv(Abs()) && Abs() == if canCancel then AskStop(old(Abs()), i) else old(Abs())
      ensures answer.NotRunning? <==> old(items[i].state) != Running
      ensures answer.CannotStop? <==> old(items[i].state) == Running && !canCancel
      ensures answer.Asked? ==>
        && answer.thread < |threads| && threads[answer.thread].stage.HasItem()
        && threads[answer.thread].stage.Held() == i && answer.key == items[i].key
      ensures answer.Asked? ==> Stopped(old(Abs()), Abs(), i)
      ensures answer.Asked? && InHand(Abs(), i, answer.thread) ==> Stopping(Abs(), i, answer.thread)
    {
      if items[i].state != Running {
        return NotRunning;
      }
      if !canCancel {
        return CannotStop;
      }
      AskStopKeeps(Abs(), i);
      AskedIsStopping(Abs(), i, slots[items[i].worker.value]);
      hide Stopped, Inv;
      items := items[i := items[i].(stopAsked := true)];
      return Asked(slots[items[i].worker.value], items[i].key);
    }

    method Close()
      requires Inv(Abs())
      modifies this`closing, this`active, this`items, this`waiting
      ensures Inv(Abs()) && Abs() == Do(old(Abs()), DoClose)
      ensures Closed(old(Abs()), Abs())
    {
      hide Closed, InvQueue, InvActive, InvStarted, InvLife, RegisterSide, CallbackSide, NoStrand, Marked, Dropped, HeldItems;
      CloseDoes(Abs());
      CloseKeeps(Abs());
      items, active := EndedWaiting(Abs(), Removed, Nothing);
      waiting := [];
      items := AskedToStop(items, HeldItems(slots, threads));
      closing := true;
      assert items == Spec.Close(old(Abs())).items;
    }

    // ----- a pool thread's side ------------------------------------------------------

    /** The next item for the thread, or None when its slot is to leave. */
    method Take(t: nat) returns (item: Option<nat>)
      requires Inv(Abs()) && Enabled(Abs(), DoTake(t))
      modifies this
      ensures Inv(Abs()) && Abs() == Do(old(Abs()), DoTake(t))
      ensures item == if old(closing || stopped.Some? || |slots| > target) then None else Some(old(waiting)[0])
      ensures HandedOut(old(Abs()), Abs(), t, item)
    {
      hide Inv, HandedOut, Do;
      TakeDoes(Abs(), t);
      DoTakeIs(Abs(), DoTake(t));
      TakeKeeps(Abs(), t);
      var slot := threads[t].slot;
      if closing || stopped.Some? {
        threads := threads[t := threads[t].(stage := Leaving(None))];
        return None;
      }
      if |slots| > target {
        slots := slots - {slot};
        threads := threads[t := threads[t].(stage := Leaving(None))];
        return None;
      }
      var i := waiting[0];
      waiting := waiting[1..];
      items := items[i := items[i].(state := Running, worker := Some(slot), told := StartDue)];
      threads := threads[t := threads[t].(stage := Taken(i))];
      started := started + [i];
      return Some(i);
    }

    /** The item's key is published, and the run announced unless a stop came first. */
    method Publish(t: nat, key: string) returns (stoppedEarly: bool)
      requires Inv(Abs()) && Enabled(Abs(), DoPublish(t, Some(key)))
      modifies this`items, this`threads
      ensures Inv(Abs()) && Abs() == Do(old(Abs()), DoPublish(t, Some(key)))
      ensures stoppedEarly == old(items[threads[t].stage.item].stopAsked)
      ensures var i := old(threads[t].stage.item); items[i].key == Some(key) && threads[t].stage == InRun(i, stoppedEarly)
    {
      hide Inv;
      PublishKeeps(Abs(), t, Some(key));
      var i := threads[t].stage.item;
      items := items[i := items[i].(key := Some(key))];
      stoppedEarly := items[i].stopAsked;
      threads := threads[t := threads[t].(stage := InRun(i, stoppedEarly))];
    }

    /** What the item came to. */
    method Record(t: nat, readBack: Option<bool>)
      requires Inv(Abs()) && Enabled(Abs(), DoRecord(t, readBack))
      modifies this`items, this`active, this`threads
      ensures Inv(Abs()) && Abs() == Do(old(Abs()), DoRecord(t, readBack))
      ensures Recorded(old(Abs()), Abs(), t, readBack)
    {
      hide Inv, Recorded;
      RecordDoes(Abs(), t, readBack);
      RecordKeeps(Abs(), t, readBack);
      var i, report := threads[t].stage.item, threads[t].stage.report;
      var state: ItemState;
      if report.Raised? || readBack.None? {
        state := Failed;
      } else if report.cancelled {
        state := Cancelled;
      } else if report.success && readBack.value {
        state := Finished;
      } else {
        state := Failed;
      }
      items := items[i := items[i].(state := state, told := EndDue)];
      active := active - {items[i].test.model};
      threads := threads[t := threads[t].(stage := Over(i))];
    }

    /** A thread is gone; `failed` are the items `on_end` is now due for. */
    method SlotLeft(t: nat) returns (failed: seq<nat>)
      requires Inv(Abs()) && Enabled(Abs(), DoSlotLeft(t))
      modifies this
      ensures Inv(Abs()) && Abs() == Do(old(Abs()), DoSlotLeft(t))
      ensures Left(old(Abs()), Abs(), t)
      ensures stopped != old(stopped) ==> failed == old(waiting)
      ensures failed != [] ==> stopped.Some? && slots == map[]
    {
      hide InvQueue, InvActive, InvStarted, InvLife, RegisterSide, CallbackSide, NoStrand, Marked, Dropped;
      SlotLeftKeeps(Abs(), t);
      hide Left;
      SlotLeftDoes(Abs(), t);
      var because := threads[t].stage.because;
      Depart(t);
      failed := [];
      if slots == map[] && because.Some? && !closing {
        QueueAsItWas(old(Abs()), Abs());
        failed := StopPool(t);
      }
    }

    method Depart(t: nat)
      requires t < |threads| && threads[t].stage.Leaving?
      modifies this`threads, this`slots, this`failures
      ensures Abs() == (
        var s, because := old(Abs()), old(threads[t].stage.because);
        Departed(s, t, if because.Some? then s.failures[s.threads[t].slot := because.value] else s.failures))
    {
      var slot, because := threads[t].slot, threads[t].stage.because;
      if slot in slots && slots[slot] == t {
        slots := slots - {slot};
      }
      if because.Some? {
        failures := failures[slot := because.value];
      }
      threads := threads[t := threads[t].(stage := Gone)];
    }

    method StopPool(t: nat) returns (failed: seq<nat>)
      requires InvQueue(Abs()) && InvActive(Abs()) && t < |threads|
      modifies this
      ensures Abs() == Stop(old(Abs()), t) && failed == old(waiting)
    {
      var ended, left := EndedWaiting(Abs(), Failed, EndDue);
      failed := waiting;
      stopped, failer := Some(failures), Some(t);
      items, active, waiting := ended, left, [];
      threads := threads[t := threads[t].(stage := Failing(failed))];
    }
  }
}
