/** What holds over whole runs of the pool, under every interleaving. */
module PoolTheorems {
  import opened Common
  import opened PoolSpec
  import opened PoolInvariant

  /** `states` is a run of the pool: from an empty one, each state by the next action. */
  ghost predicate IsRun(states: seq<State>, actions: seq<Action>, workers: int)
  {
    && |states| == |actions| + 1
    && states[0] == Init(workers)
    && forall k :: 0 <= k < |actions| ==> Enabled(states[k], actions[k]) && states[k + 1] == Do(states[k], actions[k])
  }

  /** Every reachable state satisfies the invariant. */
  lemma {:induction false} ReachableInv(states: seq<State>, actions: seq<Action>, workers: int, k: nat)
    requires IsRun(states, actions, workers) && k < |states|
    ensures Inv(states[k])
  {
    hide Inv;
    if k == 0 {
      InitKeeps(workers);
    } else {
      ReachableInv(states, actions, workers, k - 1);
      StepKeeps(states[k - 1], actions[k - 1]);
    }
  }

  // ----- what changes only one way ------------------------------------------------------

  /** What a step may do to one item. */
  predicate ItemEvolves(x: Item, y: Item)
  {
    && y.test.model == x.test.model
    && (x.state.Final() ==> y.state == x.state)
    && (x.state.Running? ==> !y.state.Waiting? && !y.state.Removed?)
    && (!x.state.Waiting? ==> y.test == x.test && y.library == x.library && y.worker == x.worker)
    && AtLeast(y.library, x.library)
    && (x.stopAsked ==> y.stopAsked)
  }

  predicate Evolves(s: State, s': State)
  {
    && |s.items| <= |s'.items|
    && (forall i :: 0 <= i < |s.items| ==> ItemEvolves(s.items[i], s'.items[i]))
    && s.started <= s'.started
    && s.log <= s'.log
    && (s.closing ==> s'.closing)
    && (s.stopped.Some? ==> s'.stopped == s.stopped)
  }

  lemma {:induction false} AppendAllEvolves(s: State, tests: seq<Test>, library: Option<nat>)
    ensures Evolves(s, AppendAll(s, tests, library))
  {
    if tests != [] {
      AppendAllEvolves(s, tests[..|tests| - 1], library);
    }
  }

  lemma {:induction false} SpawnUpToChangesOnlyThreads(s: State, want: int)
    ensures SpawnUpTo(s, want).(threads := s.threads, slots := s.slots) == s
    decreases want - |s.slots|
  {
    if |s.slots| < want && FreeSlot(s.slots, 0, want) !in s.slots {
      SpawnUpToChangesOnlyThreads(SpawnOne(s, FreeSlot(s.slots, 0, want)), want);
    }
  }

  lemma SubmitEvolves(s: State, tests: seq<Test>, library: Option<nat>)
    ensures Evolves(s, SubmitAll(s, tests, library))
  {
    var t := AppendAll(s, tests, library);
    AppendAllEvolves(s, tests, library);
    SpawnUpToChangesOnlyThreads(t, Wanted(t));
  }

  lemma SetWorkersEvolves(s: State, count: int)
    ensures Evolves(s, SetWorkers(s, count))
  {
    var t := s.(target := Max(1, count));
    SpawnUpToChangesOnlyThreads(t, Wanted(t));
  }

  lemma WriteEvolves(s: State, a: Action)
    requires a.DoUpdate? || a.DoRemove? || a.DoCancel?
    ensures Evolves(s, Do(s, a))
  {
    match a
    case DoUpdate(i, test, library) => UpdateEvolves(s, i, test, library);
    case DoRemove(i) => RemoveEvolves(s, i);
    case DoCancel(i) => CancelEvolves(s, i);
  }

  lemma UpdateEvolves(s: State, i: nat, test: Test, library: Option<nat>)
    ensures Evolves(s, Update(s, i, test, library))
  {}

  lemma RemoveEvolves(s: State, i: nat)
    ensures Evolves(s, Remove(s, i))
  {}

  lemma CancelEvolves(s: State, i: nat)
    ensures Evolves(s, AskStop(s, i))
  {}

  lemma CloseEvolves(s: State)
    requires InvQueue(s)
    ensures Evolves(s, Close(s))
  {}

  lemma RecordEvolves(s: State, t: nat, readBack: Option<bool>)
    requires InvHolds(s) && Enabled(s, DoRecord(t, readBack))
    ensures Evolves(s, Record(s, t, readBack))
  {}

  lemma CallbackEvolves(s: State, a: Action)
    requires (a.DoFireStart? || a.DoFireEnd?) && Enabled(s, a)
    ensures Evolves(s, Do(s, a))
  {}

  lemma FireFailedEvolves(s: State, t: nat)
    requires Enabled(s, DoFireFailed(t))
    ensures Evolves(s, FireFailed(s, t))
  {}

  lemma ComesUpEvolves(s: State, a: Action)
    requires (a.DoRunnerMade? || a.DoStartDone?) && Enabled(s, a)
    ensures Evolves(s, Do(s, a))
  {}

  lemma RunsEvolves(s: State, a: Action)
    requires (a.DoPublish? || a.DoJudge?) && Enabled(s, a)
    ensures Evolves(s, Do(s, a))
  {}

  lemma TakeFirstEvolves(s: State, t: nat)
    requires Enabled(s, DoTake(t)) && s.waiting != [] && s.items[s.waiting[0]].state == Waiting
    ensures Evolves(s, TakeFirst(s, t))
  {}

  lemma TakeEvolves(s: State, t: nat)
    requires InvQueue(s) && Enabled(s, DoTake(t))
    ensures Evolves(s, Take(s, t))
  {
    if !s.closing && s.stopped.None? && |s.slots| <= s.target { TakeFirstEvolves(s, t); }
  }

  lemma StopEvolves(s: State, t: nat)
    requires InvQueue(s) && s.stopped.None? && t < |s.threads|
    ensures Evolves(s, Stop(s, t))
  {}

  lemma DepartedEvolves(s: State, t: nat, failures: map<nat, string>)
    requires t < |s.threads|
    ensures Evolves(s, Departed(s, t, failures))
  {}

  lemma LeaverLeavesNoneStopped(s: State, t: nat)
    requires InvSlots(s) && InvLife(s) && Enabled(s, DoSlotLeft(t)) && s.threads[t].stage.because.Some?
    ensures s.stopped.None?
  {}

  lemma SlotLeftEvolves(s: State, t: nat)
    requires InvQueue(s) && InvSlots(s) && InvLife(s) && Enabled(s, DoSlotLeft(t))
    ensures Evolves(s, SlotLeft(s, t))
  {
    var because := s.threads[t].stage.because;
    var failures := if because.Some? then s.failures[s.threads[t].slot := because.value] else s.failures;
    var out := Departed(s, t, failures);
    assert SlotLeft(s, t) == if out.slots != map[] || because.None? || s.closing then out else Stop(out, t);
    assert out.threads == s.threads[t := s.threads[t].(stage := Gone)] && out.stopped == s.stopped;
    assert InvQueue(out);
    DepartedEvolves(s, t, failures);
    if because.Some? {
      LeaverLeavesNoneStopped(s, t);
      hide InvQueue, InvSlots, InvLife, Evolves, Departed, SlotLeft, Stop;
      StopEvolves(out, t);
      EvolvesTransitively(s, out, Stop(out, t));
    }
  }

  /** Final states never change, a start is for good, a library state never moves back. */
  lemma StepEvolves(s: State, a: Action)
    requires Inv(s) && Enabled(s, a)
    ensures Evolves(s, Do(s, a))
  {
    hide InvQueue, InvHolds, InvTold, InvLife, InvSlots, InvActive, InvStarted, InvFailing, InvLog, Evolves;
    if a.DoSubmitAll? {
      SubmitEvolves(s, a.tests, a.library);
    } else if a.DoSetWorkers? {
      SetWorkersEvolves(s, a.count);
    } else if a.DoClose? {
      CloseEvolves(s);
    } else if !a.OfThread() {
      WriteEvolves(s, a);
    } else if a.DoTake? {
      TakeEvolves(s, a.thread);
    } else if a.DoSlotLeft? {
      SlotLeftEvolves(s, a.thread);
    } else if a.DoRecord? {
      RecordEvolves(s, a.thread, a.readBack);
    } else if a.DoFireStart? || a.DoFireEnd? {
      CallbackEvolves(s, a);
    } else if a.DoFireFailed? {
      FireFailedEvolves(s, a.thread);
    } else if a.DoRunnerMade? || a.DoStartDone? {
      ComesUpEvolves(s, a);
    } else {
      RunsEvolves(s, a);
    }
  }

  lemma EvolvesTransitively(s: State, s': State, s'': State)
    requires Evolves(s, s') && Evolves(s', s'')
    ensures Evolves(s, s'')
  {}

  lemma {:induction false} RunEvolves(states: seq<State>, actions: seq<Action>, workers: int, j: nat, k: nat)
    requires IsRun(states, actions, workers) && j <= k < |states|
    ensures Evolves(states[j], states[k])
    decreases k
  {
    hide *;
    if j < k {
      RunEvolves(states, actions, workers, j, k - 1);
      ReachableInv(states, actions, workers, k - 1);
      RunStep(states, actions, workers, k - 1);
      StepEvolves(states[k - 1], actions[k - 1]);
      EvolvesTransitively(states[j], states[k - 1], states[k]);
    } else {
      EvolvesNot(states[j]);
    }
  }

  lemma EvolvesNot(s: State)
    ensures Evolves(s, s)
  {}

  lemma RunStep(states: seq<State>, actions: seq<Action>, workers: int, k: nat)
    requires IsRun(states, actions, workers) && k + 1 < |states|
    ensures k < |actions| && Enabled(states[k], actions[k]) && states[k + 1] == Do(states[k], actions[k])
  {}

  // ----- the promises -------------------------------------------------------------------

  /** A running item is in the hand of exactly one thread, the one registered under its slot. */
  lemma RunningItemHasItsSlot(s: State, i: nat, t: nat)
    requires Inv(s) && Is(s, i, Running)
    ensures s.items[i].worker.Some? && s.items[i].worker.value in s.slots
    ensures t < |s.threads| && s.threads[t].stage.HasItem() && s.threads[t].stage.Held() == i
            <==> t == s.slots[s.items[i].worker.value]
  {}

  /** Only `_take` starts anything, and only by handing the first waiting item over. */
  lemma OnlyTakeStarts(s: State, a: Action)
    requires Enabled(s, a) && Do(s, a).started != s.started
    ensures a.DoTake? && s.waiting != [] && |s.slots| <= s.target && !s.closing && s.stopped.None?
    ensures Do(s, a).started == s.started + [s.waiting[0]]
  {
    match a
    case DoSubmitAll(tests, library) =>
      AppendAllEvolves(s, tests, library);
      AppendAllStartsNothing(s, tests, library);
      SpawnUpToChangesOnlyThreads(AppendAll(s, tests, library), Wanted(AppendAll(s, tests, library)));
    case DoSetWorkers(count) =>
      var t := s.(target := Max(1, count));
      SpawnUpToChangesOnlyThreads(t, Wanted(t));
    case DoTake(t) =>
    case _ => OthersStartNothing(s, a);
  }

  lemma OthersStartNothing(s: State, a: Action)
    requires Enabled(s, a) && !a.DoSubmitAll? && !a.DoSetWorkers? && !a.DoTake?
    ensures Do(s, a).started == s.started
  {
    hide Marked, Dropped, HeldItems, Without;
    match a
    case DoClose => assert Close(s).started == s.started;
    case DoSlotLeft(t) => assert SlotLeft(s, t).started == s.started;
    case DoUpdate(i, test, library) => assert Update(s, i, test, library).started == s.started;
    case _ =>
  }

  lemma {:induction false} AppendAllStartsNothing(s: State, tests: seq<Test>, library: Option<nat>)
    ensures AppendAll(s, tests, library).started == s.started
  {
    if tests != [] {
      AppendAllStartsNothing(s, tests[..|tests| - 1], library);
    }
  }

  /** Items start in submission order, and only while the slots number at most the target. */
  lemma StartsInOrderWithinTarget(s: State, a: Action)
    requires Inv(s) && Enabled(s, a) && Do(s, a).started != s.started
    ensures a.DoTake? && |s.slots| <= s.target && s.waiting != []
    ensures Do(s, a).started == s.started + [s.waiting[0]]
    ensures forall i :: 0 <= i < |s.items| && s.items[i].state == Waiting ==> s.waiting[0] <= i
    ensures forall k :: 0 <= k < |s.started| ==> s.started[k] < s.waiting[0]
  {
    OnlyTakeStarts(s, a);
    forall i | 0 <= i < |s.items| && s.items[i].state == Waiting
      ensures s.waiting[0] <= i
    {
      var k :| 0 <= k < |s.waiting| && s.waiting[k] == i;
    }
  }

  /** A queue that waits is never dead: some registered thread can take its next step. */
  lemma WaitingQueueMoves(s: State) returns (t: nat, a: Action)
    requires Inv(s) && s.waiting != []
    ensures t < |s.threads| && Registered(s, t)
    ensures a.OfThread() && a.thread == t && Enabled(s, a)
  {
    var w :| w in s.slots;
    t := s.slots[w];
    a := match s.threads[t].stage
      case Making => DoRunnerMade(t, None)
      case Starting(_) => DoStartDone(t, None)
      case Looking => DoTake(t)
      case Taken(_) => DoFireStart(t)
      case Begun(_) => DoPublish(t, None)
      case InRun(_, _) => DoJudge(t, Raised)
      case Judged(_, _) => DoRecord(t, None)
      case Over(_) => DoFireEnd(t, None)
      case Leaving(_) => DoSlotLeft(t)
      case _ => DoFireFailed(t);
  }

  /** A queue that waits is waited for: the pool is open and has a worker. */
  lemma NothingStranded(s: State)
    requires Inv(s) && s.waiting != []
    ensures !s.closing && s.stopped.None? && s.slots != map[]
  {}

  /** The last slot to leave with a reason fails everything that waits, and no slot is left. */
  lemma LastToLeaveFailsTheQueue(s: State, t: nat)
    requires Inv(s) && Enabled(s, DoSlotLeft(t)) && Registered(s, t)
    requires |s.slots| == 1 && s.threads[t].stage.because.Some? && !s.closing
    ensures var s' := SlotLeft(s, t);
      && s'.stopped.Some? && s'.slots == map[] && s'.waiting == [] && |s'.items| == |s.items|
      && (forall i :: 0 <= i < |s.items| ==>
            s'.items[i].state == if s.items[i].state == Waiting then Failed else s.items[i].state)
  {
    hide InvHolds, InvTold, InvActive, InvStarted, InvFailing, InvLog, InvLife;
    assert |s.slots.Keys - {s.threads[t].slot}| == 0;
    assert s.slots - {s.threads[t].slot} == map[];
  }

  /** Once stopped or closed the pool starts nothing more, whatever is asked of it. */
  lemma StoppedForGood(states: seq<State>, actions: seq<Action>, workers: int, j: nat, k: nat)
    requires IsRun(states, actions, workers) && j <= k < |states|
    requires states[j].stopped.Some?
    ensures states[k].slots == map[] && states[k].waiting == []
    ensures states[k].started == states[j].started
  {
    hide InvQueue, InvHolds, InvTold, InvSlots, InvActive, InvStarted, InvFailing, InvLog;
    ReachableInv(states, actions, workers, k);
    StaysStopped(states, actions, workers, j, k);
    NoStartAfterStop(states, actions, workers, j, k);
  }

  lemma {:induction false} NoStartAfterStop(states: seq<State>, actions: seq<Action>, workers: int, j: nat, k: nat)
    requires IsRun(states, actions, workers) && j <= k < |states|
    requires states[j].stopped.Some?
    ensures states[k].started == states[j].started
    decreases k
  {
    hide Inv, Evolves, Do, Enabled, IsRun;
    if j < k {
      RunStep(states, actions, workers, k - 1);
      NoStartAfterStop(states, actions, workers, j, k - 1);
      StaysStopped(states, actions, workers, j, k - 1);
      if states[k].started != states[k - 1].started {
        OnlyTakeStarts(states[k - 1], actions[k - 1]);
        assert false;
      }
    }
  }

  lemma StaysStopped(states: seq<State>, actions: seq<Action>, workers: int, j: nat, k: nat)
    requires IsRun(states, actions, workers) && j <= k < |states|
    requires states[j].stopped.Some?
    ensures states[k].stopped == states[j].stopped
  {
    hide Inv;
    RunEvolves(states, actions, workers, j, k);
  }

  /** The callbacks of one item, in every reachable state. */
  lemma CallbacksOfAnItem(s: State, i: nat)
    requires Inv(s) && i < |s.items|
    // each at most once, the start before the end
    ensures forall a, b :: 0 <= a < b < |s.log| ==> s.log[a] != s.log[b]
    ensures forall a, b :: 0 <= a < |s.log| && 0 <= b < |s.log| && s.log[a] == OnStart(i) && s.log[b] == OnEnd(i) ==> a < b
    // an end is told only of an item that ended; never of one removed, and never a start of one that did not run
    ensures OnEnd(i) in s.log ==> s.items[i].state.Ended()
    ensures s.items[i].state == Removed ==> OnStart(i) !in s.log && OnEnd(i) !in s.log
    ensures OnEnd(i) in s.log && s.items[i].worker.Some? ==> OnStart(i) in s.log
    ensures s.items[i].state == Failed && s.items[i].worker.None? ==> OnStart(i) !in s.log
  {}

  /** A stop asked before the run came back: what does not succeed ends CANCELLED. */
  lemma StopAskedEndsCancelled(s: State, t: nat, report: Report, readBack: Option<bool>)
    requires Inv(s) && Enabled(s, DoJudge(t, report))
    requires s.items[s.threads[t].stage.item].stopAsked && report.Report? && readBack.Some?
    ensures var s' := Record(Judge(s, t, report), t, readBack);
      var ended := s'.items[s.threads[t].stage.item].state;
      && (!report.success || s.threads[t].stage.early ==> ended == Cancelled)
      && (ended == Finished ==> report.success && !s.threads[t].stage.early)
  {}

  /** One item per model is live at a time. */
  lemma OneLiveItemPerModel(s: State, i: nat, j: nat)
    requires Inv(s) && i < |s.items| && j < |s.items|
    requires !s.items[i].state.Final() && !s.items[j].state.Final()
    requires s.items[i].test.model == s.items[j].test.model
    ensures i == j
  {}

  /** Spawning never goes past the target. */
  lemma SpawnStaysWithinTarget(s: State, a: Action)
    requires Inv(s) && Enabled(s, a)
    ensures |Do(s, a).slots| <= Max(|s.slots|, Do(s, a).target)
  {
    hide Inv, AppendAll, SpawnUpTo, SetWorkers, SubmitAll, Remove, Update, AskStop, Close, Take, SlotLeft, Record;
    if a.DoSubmitAll? {
      SubmitStaysWithinTarget(s, a.tests, a.library);
    } else if a.DoSetWorkers? {
      SetWorkersStaysWithinTarget(s, a.count);
    } else {
      OthersSpawnNothing(s, a);
      FewerSlots(Do(s, a).slots, s.slots);
    }
  }

  lemma OthersSpawnNothing(s: State, a: Action)
    requires Enabled(s, a) && !a.DoSubmitAll? && !a.DoSetWorkers?
    ensures Do(s, a).slots.Keys <= s.slots.Keys
  {
    hide Marked, Dropped, HeldItems, Without, Take, RunnerMade, StartDone, FireStart, Publish, Judge, Record, FireEnd, SlotLeft, FireFailed;
    if a.OfThread() {
      ThreadsSpawnNothing(s, a);
    }
  }

  lemma ThreadsSpawnNothing(s: State, a: Action)
    requires Enabled(s, a) && a.OfThread()
    ensures Do(s, a).slots.Keys <= s.slots.Keys
  {
    hide Take, SlotLeft, Verdict;
    if a.DoTake? {
      TakeSpawnsNothing(s, a.thread);
    } else if a.DoSlotLeft? {
      SlotLeftSpawnsNothing(s, a.thread);
    }
  }

  lemma TakeSpawnsNothing(s: State, t: nat)
    requires Enabled(s, DoTake(t))
    ensures Take(s, t).slots.Keys <= s.slots.Keys
  {}

  lemma SlotLeftSpawnsNothing(s: State, t: nat)
    requires Enabled(s, DoSlotLeft(t))
    ensures SlotLeft(s, t).slots.Keys <= s.slots.Keys
  {
    hide Marked, Dropped;
  }

  lemma FewerSlots(a: map<nat, nat>, b: map<nat, nat>)
    requires a.Keys <= b.Keys
    ensures |a| <= |b|
  {
    assert b.Keys == a.Keys + (b.Keys - a.Keys);
    assert |a| == |a.Keys| && |b| == |b.Keys|;
  }

  lemma SubmitStaysWithinTarget(s: State, tests: seq<Test>, library: Option<nat>)
    requires Inv(s)
    ensures |SubmitAll(s, tests, library).slots| <= Max(|s.slots|, SubmitAll(s, tests, library).target)
  {
    hide InvQueue, InvHolds, InvTold, InvSlots, InvActive, InvStarted, InvFailing, InvLog;
    var t := AppendAll(s, tests, library);
    AppendAllKeeps(s, tests, library);
    SpawnKeeps(t);
    SpawnUpToChangesOnlyThreads(t, Wanted(t));
  }

  lemma SetWorkersStaysWithinTarget(s: State, count: int)
    requires Inv(s)
    ensures |SetWorkers(s, count).slots| <= Max(|s.slots|, SetWorkers(s, count).target)
  {
    hide InvQueue, InvHolds, InvTold, InvSlots, InvActive, InvStarted, InvFailing, InvLog;
    var t := s.(target := Max(1, count));
    SettingsKeep(s, t);
    SpawnKeeps(t);
    SpawnUpToChangesOnlyThreads(t, Wanted(t));
  }
}
