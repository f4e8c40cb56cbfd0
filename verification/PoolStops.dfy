/** A stop asked of a running item, over whole runs: what the item then ends as. */
module PoolStops {
  import opened Common
  import opened PoolSpec
  import opened PoolInvariant
  import opened PoolTheorems

  /** Thread `t` has the item, and its run has not come back; or it has, and not as a success. */
  predicate InHand(s: State, i: nat, t: nat)
  {
    && t < |s.threads|
    && match s.threads[t].stage
       case Taken(j) => j == i
       case Begun(j) => j == i
       case InRun(j, _) => j == i
       case Judged(j, report) => j == i && report.Report? && report.cancelled
       case _ => false
  }

  /** Asked to stop and not past it, or cancelled. */
  predicate Stopping(s: State, i: nat, t: nat)
  {
    i < |s.items| && (s.items[i].state == Cancelled || (s.items[i].state == Running && s.items[i].stopAsked && InHand(s, i, t)))
  }

  /** Nothing raises for the item, and its simulation does not succeed before it is stopped. */
  predicate Unfinished(s: State, a: Action, t: nat)
  {
    a.OfThread() && a.thread == t ==>
      && (a.DoPublish? ==> a.key.Some?)
      && (a.DoJudge? && t < |s.threads| && s.threads[t].stage.InRun? && !s.threads[t].stage.early ==> a.report.Report? && !a.report.success)
      && (a.DoRecord? ==> a.readBack.Some?)
  }

  /** The item and its thread are as they were. */
  predicate Beside(s: State, s': State, i: nat, t: nat)
  {
    && i < |s.items| && i < |s'.items| && t < |s.threads| && t < |s'.threads|
    && s'.items[i].state == s.items[i].state && (s.items[i].stopAsked ==> s'.items[i].stopAsked)
    && s'.threads[t] == s.threads[t]
  }

  lemma OneHand(s: State, i: nat, t: nat, u: nat)
    requires InvSlots(s) && InvHolds(s) && t < |s.threads| && u < |s.threads| && t != u
    requires s.threads[t].stage.HasItem() && s.threads[t].stage.Held() == i && s.threads[u].stage.HasItem()
    ensures s.threads[u].stage.Held() != i
  {}

  lemma {:induction false} AppendedBeside(s: State, tests: seq<Test>, library: Option<nat>, i: nat, t: nat)
    requires i < |s.items| && t < |s.threads|
    ensures Beside(s, AppendAll(s, tests, library), i, t)
  {
    if tests != [] {
      AppendedBeside(s, tests[..|tests| - 1], library, i, t);
    }
  }

  lemma {:induction false} SpawnedBeside(s: State, want: int, i: nat, t: nat)
    requires i < |s.items| && t < |s.threads|
    ensures Beside(s, SpawnUpTo(s, want), i, t)
    decreases want - |s.slots|
  {
    if |s.slots| < want {
      var w := FreeSlot(s.slots, 0, want);
      if w !in s.slots {
        SpawnedBeside(SpawnOne(s, w), want, i, t);
      }
    }
  }

  lemma CallerBeside(s: State, a: Action, i: nat, t: nat)
    requires InvQueue(s) && !a.OfThread() && i < |s.items| && t < |s.threads| && s.items[i].state == Running
    ensures Beside(s, Do(s, a), i, t)
  {
    hide AppendAll, SpawnUpTo, HeldItems, Dropped;
    match a
    case DoSubmitAll(tests, library) =>
      AppendedBeside(s, tests, library, i, t);
      var r := AppendAll(s, tests, library);
      SpawnedBeside(r, Wanted(r), i, t);
    case DoSetWorkers(count) =>
      var r := s.(target := Max(1, count));
      SpawnedBeside(r, Wanted(r), i, t);
    case _ =>
  }

  lemma TakeBeside(s: State, u: nat, i: nat, t: nat)
    requires InvQueue(s) && Enabled(s, DoTake(u)) && u != t && t < |s.threads| && i < |s.items| && s.items[i].state == Running
    ensures Beside(s, Take(s, u), i, t)
  {}

  lemma SlotLeftBeside(s: State, u: nat, i: nat, t: nat)
    requires InvQueue(s) && Enabled(s, DoSlotLeft(u)) && u != t && t < |s.threads| && i < |s.items| && s.items[i].state == Running
    ensures Beside(s, SlotLeft(s, u), i, t)
  {
    hide Dropped;
  }

  lemma CallbackBeside(s: State, a: Action, i: nat, t: nat)
    requires Enabled(s, a) && (a.DoFireStart? || a.DoFireEnd? || a.DoFireFailed?) && a.thread != t
    requires t < |s.threads| && i < |s.items|
    ensures Beside(s, Do(s, a), i, t)
  {}

  lemma RunBeside(s: State, a: Action, i: nat, t: nat)
    requires Enabled(s, a) && (a.DoRunnerMade? || a.DoStartDone? || a.DoPublish? || a.DoJudge? || a.DoRecord?) && a.thread != t
    requires t < |s.threads| && i < |s.items|
    requires s.threads[a.thread].stage.HasItem() ==> s.threads[a.thread].stage.Held() != i
    ensures Beside(s, Do(s, a), i, t)
  {
    hide Verdict;
  }

  lemma OtherThreadBeside(s: State, a: Action, i: nat, t: nat)
    requires Inv(s) && Enabled(s, a) && a.OfThread() && a.thread != t && i < |s.items| && s.items[i].state == Running && InHand(s, i, t)
    ensures Beside(s, Do(s, a), i, t)
  {
    if s.threads[a.thread].stage.HasItem() {
      OneHand(s, i, t, a.thread);
    }
    hide InvQueue, InvHolds, InvSlots, InvTold, InvStarted, InvLog, InvLife, InvActive, InvFailing, Do, Beside;
    if a.DoTake? {
      TakeBeside(s, a.thread, i, t);
      assert Do(s, a) == Take(s, a.thread) by { DoTakeIs(s, a); }
    } else if a.DoSlotLeft? {
      SlotLeftBeside(s, a.thread, i, t);
      assert Do(s, a) == SlotLeft(s, a.thread) by { DoSlotLeftIs(s, a); }
    } else if a.DoFireStart? || a.DoFireEnd? || a.DoFireFailed? {
      CallbackBeside(s, a, i, t);
    } else {
      RunBeside(s, a, i, t);
    }
  }

  lemma DoTakeIs(s: State, a: Action)
    requires a.DoTake? && Enabled(s, a)
    ensures Do(s, a) == Take(s, a.thread)
  {}

  lemma DoSlotLeftIs(s: State, a: Action)
    requires a.DoSlotLeft? && Enabled(s, a)
    ensures Do(s, a) == SlotLeft(s, a.thread)
  {}

  lemma OwnThread(s: State, a: Action, i: nat, t: nat)
    requires InvHolds(s) && Enabled(s, a) && a.OfThread() && a.thread == t
    requires i < |s.items| && s.items[i].state == Running && s.items[i].stopAsked && InHand(s, i, t) && Unfinished(s, a, t)
    ensures Stopping(Do(s, a), i, t)
  {}

  lemma StepStopping(s: State, a: Action, i: nat, t: nat)
    requires Inv(s) && Enabled(s, a) && Stopping(s, i, t) && Unfinished(s, a, t)
    ensures Stopping(Do(s, a), i, t)
  {
    if s.items[i].state == Cancelled {
      StepEvolves(s, a);
    } else if !a.OfThread() {
      CallerBeside(s, a, i, t);
    } else if a.thread == t {
      OwnThread(s, a, i, t);
    } else {
      OtherThreadBeside(s, a, i, t);
    }
    hide Inv, Do, Enabled;
  }

  /**
   * A stop asked while the item's run is on, in any run: the item is then
   * stopping until it is CANCELLED, whatever else happens, unless its simulation
   * succeeds all the same or something raises.
   */
  lemma {:induction false} StopEndsCancelled(states: seq<State>, actions: seq<Action>, workers: int, j: nat, k: nat, i: nat, t: nat)
    requires IsRun(states, actions, workers) && j <= k < |states| && Stopping(states[j], i, t)
    requires forall m :: j <= m < k ==> Unfinished(states[m], actions[m], t)
    ensures Stopping(states[k], i, t)
    ensures states[k].items[i].state.Final() ==> states[k].items[i].state == Cancelled
    decreases k
  {
    if j < k {
      StopEndsCancelled(states, actions, workers, j, k - 1, i, t);
      ReachableInv(states, actions, workers, k - 1);
      hide Inv, Stopping, Unfinished;
      StepStopping(states[k - 1], actions[k - 1], i, t);
    }
  }
}
