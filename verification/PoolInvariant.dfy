/**
 * What every reachable state of the pool satisfies, and the proof that each
 * action keeps it.
 */
module PoolInvariant {
  import opened Common
  import opened PoolSpec

  /** The queue: the WAITING items, each once, in submission order. */
  ghost predicate InvQueue(s: State)
  {
    && (forall k :: 0 <= k < |s.waiting| ==> s.waiting[k] < |s.items| && s.items[s.waiting[k]].state == Waiting)
    && (forall j, k :: 0 <= j < k < |s.waiting| ==> s.waiting[j] < s.waiting[k])
    && (forall i :: 0 <= i < |s.items| && s.items[i].state == Waiting ==> i in s.waiting)
  }

  /** The index: the waiting and the running items by model, and nothing else. */
  ghost predicate InvActive(s: State)
  {
    && (forall m :: m in s.active ==>
          s.active[m] < |s.items| && s.items[s.active[m]].test.model == m && !s.items[s.active[m]].state.Final())
    && (forall i :: 0 <= i < |s.items| && !s.items[i].state.Final() ==>
          s.items[i].test.model in s.active && s.active[s.items[i].test.model] == i)
  }

  predicate InLoop(stage: Stage) { !stage.Gone? && !stage.Failing? }

  /** Only a thread sent away for want of work leaves the register before it is gone. */
  predicate MustBeRegistered(stage: Stage)
  {
    InLoop(stage) && stage != Leaving(None)
  }

  ghost predicate InvSlots(s: State)
  {
    && (forall w :: w in s.slots ==>
          s.slots[w] < |s.threads| && s.threads[s.slots[w]].slot == w && InLoop(s.threads[s.slots[w]].stage))
    && (forall t :: 0 <= t < |s.threads| && MustBeRegistered(s.threads[t].stage) ==> Registered(s, t))
  }

  /** A thread's item is RUNNING under its slot number; a RUNNING item is in its slot's hand. */
  ghost predicate InvHolds(s: State)
  {
    && (forall t :: 0 <= t < |s.threads| && s.threads[t].stage.HasItem() ==>
          && s.threads[t].stage.Held() < |s.items|
          && s.items[s.threads[t].stage.Held()].state == Running
          && s.items[s.threads[t].stage.Held()].worker == Some(s.threads[t].slot))
    && (forall i :: 0 <= i < |s.items| && s.items[i].state == Running ==>
          && s.items[i].worker.Some? && s.items[i].worker.value in s.slots
          && s.slots[s.items[i].worker.value] < |s.threads|
          && s.threads[s.slots[s.items[i].worker.value]].stage.HasItem()
          && s.threads[s.slots[s.items[i].worker.value]].stage.Held() == i)
  }

  /** A callback is due from the thread that has the item in hand, or has just ended it. */
  ghost predicate InvTold(s: State)
  {
    ToldInHand(s) && ToldOver(s) && ToldItems(s)
  }

  ghost predicate ToldInHand(s: State)
  {
    forall t :: 0 <= t < |s.threads| && s.threads[t].stage.HasItem() ==>
      && s.threads[t].stage.Held() < |s.items|
      && s.items[s.threads[t].stage.Held()].told == if s.threads[t].stage.Taken? then StartDue else StartTold
  }

  ghost predicate ToldOver(s: State)
  {
    forall t :: 0 <= t < |s.threads| && s.threads[t].stage.Over? ==>
      && s.threads[t].stage.item < |s.items|
      && s.items[s.threads[t].stage.item].told == EndDue
      && s.items[s.threads[t].stage.item].state.Ended()
      && s.items[s.threads[t].stage.item].worker == Some(s.threads[t].slot)
  }

  ghost predicate ToldItems(s: State)
  {
    forall i :: 0 <= i < |s.items| ==>
      && (s.items[i].state.Waiting? || s.items[i].state.Removed? ==> s.items[i].told == Nothing && s.items[i].worker.None?)
      && (s.items[i].state.Ended() ==> s.items[i].told.EndDue? || s.items[i].told.EndTold?)
      && (s.items[i].state.Ended() && s.items[i].worker.None? ==> s.items[i].state == Failed)
      && (s.items[i].told.EndDue? && s.items[i].worker.Some? ==>
            && s.items[i].worker.value in s.slots
            && s.slots[s.items[i].worker.value] < |s.threads|
            && s.threads[s.slots[s.items[i].worker.value]].stage == Over(i))
  }

  /** The items the pool failed itself: `on_end` is due from the thread that failed them. */
  ghost predicate InvFailing(s: State)
  {
    && (forall t :: 0 <= t < |s.threads| && s.threads[t].stage.Failing? ==> s.failer == Some(t))
    && (s.failer.Some? ==> s.stopped.Some? && s.failer.value < |s.threads| && !InLoop(s.threads[s.failer.value].stage))
    && (s.failer.Some? && s.threads[s.failer.value].stage.Failing? ==>
          var due := s.threads[s.failer.value].stage.items;
          && (forall j, k :: 0 <= j < k < |due| ==> due[j] != due[k])
          && (forall k :: 0 <= k < |due| ==>
                due[k] < |s.items| && s.items[due[k]].state == Failed
                && s.items[due[k]].worker.None? && s.items[due[k]].told == EndDue))
    && (forall i :: 0 <= i < |s.items| && s.items[i].told.EndDue? && s.items[i].worker.None? ==>
          s.failer.Some? && s.threads[s.failer.value].stage.Failing? && i in s.threads[s.failer.value].stage.items)
  }

  ghost predicate InvLog(s: State)
  {
    && (forall a, b :: 0 <= a < b < |s.log| ==> s.log[a] != s.log[b])
    && (forall a :: 0 <= a < |s.log| ==> s.log[a].item < |s.items|)
    && (forall i :: 0 <= i < |s.items| ==>
          (OnStart(i) in s.log <==> s.items[i].worker.Some? && !s.items[i].told.StartDue?))
    && (forall i :: 0 <= i < |s.items| ==> (OnEnd(i) in s.log <==> s.items[i].told.EndTold?))
    && (forall a, b :: 0 <= a < |s.log| && 0 <= b < |s.log| && s.log[a].OnStart? && s.log[b] == OnEnd(s.log[a].item) ==> a < b)
  }

  /** Starts are in submission order, and ahead of everything that waits. */
  ghost predicate InvStarted(s: State)
  {
    && (forall k :: 0 <= k < |s.started| ==> s.started[k] < |s.items| && s.items[s.started[k]].worker.Some?)
    && (forall j, k :: 0 <= j < k < |s.started| ==> s.started[j] < s.started[k])
    && (forall i :: 0 <= i < |s.items| && s.items[i].worker.Some? ==> i in s.started)
    && (forall j, k :: 0 <= j < |s.started| && 0 <= k < |s.waiting| ==> s.started[j] < s.waiting[k])
  }

  ghost predicate InvLife(s: State)
  {
    && s.target >= 1
    && (s.stopped.Some? ==> s.slots == map[] && s.waiting == [])
    && (s.closing ==> s.waiting == [])
    && (forall t :: 0 <= t < |s.threads| && s.threads[t].stage == Leaving(None) && Registered(s, t) ==> s.closing)
    && (forall i :: 0 <= i < |s.items| ==> AtLeast(s.library, s.items[i].library))
  }

  /** What waits has a thread: nothing is stranded. */
  predicate NoStrand(s: State)
  {
    s.waiting != [] ==> s.slots != map[]
  }

  predicate AtLeast(a: Option<nat>, b: Option<nat>)
  {
    b.Some? ==> a.Some? && b.value <= a.value
  }

  ghost predicate QueueSide(s: State) { InvQueue(s) && InvActive(s) && InvStarted(s) && InvLife(s) }
  ghost predicate RegisterSide(s: State) { InvSlots(s) && InvHolds(s) }
  ghost predicate CallbackSide(s: State) { InvTold(s) && InvFailing(s) && InvLog(s) }

  ghost predicate Sides(s: State) { QueueSide(s) && RegisterSide(s) && CallbackSide(s) }
  ghost predicate Inv(s: State) { Sides(s) && NoStrand(s) }

  lemma InitKeeps(workers: int)
    ensures Inv(Init(workers))
  {}

  // ----- building blocks: one kind of change, one part of the invariant each --------

  /** A thread moves on with what it has in hand. */
  ghost predicate Moves(s: State, t: nat, stage: Stage)
  {
    && t < |s.threads| && InLoop(s.threads[t].stage) && InLoop(stage)
    && s.threads[t].stage.HasItem() == stage.HasItem()
    && (stage.HasItem() ==> stage.Held() == s.threads[t].stage.Held() && stage.Taken? == s.threads[t].stage.Taken?)
    && !stage.Over? && !s.threads[t].stage.Over? && !s.threads[t].stage.Leaving?
    && (stage == Leaving(None) ==> s.closing)
  }

  lemma MovedQueue(s: State, t: nat, stage: Stage)
    requires QueueSide(s) && Moves(s, t, stage)
    ensures QueueSide(At(s, t, stage))
  {}

  lemma MovedRegister(s: State, t: nat, stage: Stage)
    requires RegisterSide(s) && Moves(s, t, stage)
    ensures RegisterSide(At(s, t, stage))
  {}

  lemma MovedCallbacks(s: State, t: nat, stage: Stage)
    requires CallbackSide(s) && Moves(s, t, stage)
    ensures CallbackSide(At(s, t, stage))
  {}

  lemma MovedKeeps(s: State, t: nat, stage: Stage)
    requires Inv(s) && Moves(s, t, stage)
    ensures Inv(At(s, t, stage))
  {
    MovedQueue(s, t, stage);
    MovedRegister(s, t, stage);
    MovedCallbacks(s, t, stage);
  }

  /** Items are written in fields the invariant does not follow. */
  ghost predicate Retouches(s: State, items: seq<Item>)
  {
    && |items| == |s.items|
    && forall k :: 0 <= k < |items| ==>
         && items[k].test.model == s.items[k].test.model && items[k].state == s.items[k].state
         && items[k].worker == s.items[k].worker && items[k].told == s.items[k].told
         && AtLeast(s.library, items[k].library)
  }

  lemma RetouchedQueue(s: State, items: seq<Item>)
    requires QueueSide(s) && Retouches(s, items)
    ensures QueueSide(s.(items := items))
  {}

  lemma RetouchedRegister(s: State, items: seq<Item>)
    requires RegisterSide(s) && Retouches(s, items)
    ensures RegisterSide(s.(items := items))
  {}

  lemma RetouchedCallbacks(s: State, items: seq<Item>)
    requires CallbackSide(s) && Retouches(s, items)
    ensures CallbackSide(s.(items := items))
  {}

  lemma RetouchedKeeps(s: State, items: seq<Item>)
    requires Sides(s) && Retouches(s, items)
    ensures Sides(s.(items := items))
  {
    RetouchedQueue(s, items);
    RetouchedRegister(s, items);
    RetouchedCallbacks(s, items);
  }

  lemma RetouchedOneKeeps(s: State, i: nat, x: Item)
    requires Sides(s) && i < |s.items|
    requires x.test.model == s.items[i].test.model && x.state == s.items[i].state
    requires x.worker == s.items[i].worker && x.told == s.items[i].told
    requires AtLeast(s.library, x.library)
    ensures Sides(s.(items := s.items[i := x]))
  {
    RetouchedKeeps(s, s.items[i := x]);
  }

  /** What no part but `InvLife` looks at. */
  lemma SettingsKeep(s: State, s': State)
    requires Sides(s) && InvLife(s')
    requires s' == s.(target := s'.target, closing := s'.closing, library := s'.library, failures := s'.failures)
    ensures Sides(s')
  {}

  /** A callback fires: thread `t` moves, item `i` is told, the event is on record. */
  function Noted(s: State, t: nat, stage: Stage, i: nat, told: Told, event: Event): State
    requires t < |s.threads| && i < |s.items|
  {
    At(s, t, stage).(items := s.items[i := s.items[i].(told := told)], log := s.log + [event])
  }

  lemma NotedQueue(s: State, t: nat, stage: Stage, i: nat, told: Told, event: Event)
    requires QueueSide(s) && t < |s.threads| && i < |s.items|
    requires stage == Leaving(None) ==> s.closing
    ensures QueueSide(Noted(s, t, stage, i, told, event))
  {}

  lemma NotedRegister(s: State, t: nat, stage: Stage, i: nat, told: Told, event: Event)
    requires RegisterSide(s) && t < |s.threads| && i < |s.items|
    requires InLoop(s.threads[t].stage) == InLoop(stage)
    requires MustBeRegistered(stage) ==> MustBeRegistered(s.threads[t].stage)
    requires stage.HasItem() == s.threads[t].stage.HasItem()
    requires stage.HasItem() ==> stage.Held() == s.threads[t].stage.Held()
    ensures RegisterSide(Noted(s, t, stage, i, told, event))
  {}

  lemma FireStartTold(s: State, t: nat)
    requires InvTold(s) && InvSlots(s) && InvHolds(s)
    requires Enabled(s, DoFireStart(t))
    ensures InvTold(FireStart(s, t))
  {}

  lemma FireStartFailing(s: State, t: nat)
    requires InvFailing(s) && InvHolds(s)
    requires Enabled(s, DoFireStart(t))
    ensures InvFailing(FireStart(s, t))
  {}

  lemma FireStartLog(s: State, t: nat)
    requires InvLog(s) && InvTold(s) && InvHolds(s)
    requires Enabled(s, DoFireStart(t))
    ensures InvLog(FireStart(s, t))
  {}

  lemma FireEndTold(s: State, t: nat, retired: Option<string>)
    requires InvTold(s) && InvSlots(s) && InvHolds(s)
    requires Enabled(s, DoFireEnd(t, retired))
    ensures InvTold(FireEnd(s, t, retired))
  {}

  lemma FireEndFailing(s: State, t: nat, retired: Option<string>)
    requires InvFailing(s) && InvTold(s)
    requires Enabled(s, DoFireEnd(t, retired))
    ensures InvFailing(FireEnd(s, t, retired))
  {}

  lemma FireEndLog(s: State, t: nat, retired: Option<string>)
    requires InvLog(s) && InvTold(s)
    requires Enabled(s, DoFireEnd(t, retired))
    ensures InvLog(FireEnd(s, t, retired))
  {}

  lemma FireFailedTold(s: State, t: nat)
    requires InvTold(s) && InvFailing(s) && InvHolds(s)
    requires Enabled(s, DoFireFailed(t)) && s.threads[t].stage.items != []
    ensures InvTold(FireFailed(s, t))
  {}

  lemma FireFailedFailing(s: State, t: nat)
    requires InvFailing(s)
    requires Enabled(s, DoFireFailed(t)) && s.threads[t].stage.items != []
    ensures InvFailing(FireFailed(s, t))
  {}

  lemma FireFailedLog(s: State, t: nat)
    requires InvLog(s) && InvFailing(s) && InvTold(s)
    requires Enabled(s, DoFireFailed(t)) && s.threads[t].stage.items != []
    ensures InvLog(FireFailed(s, t))
  {}

  lemma GoneQueue(s: State, t: nat)
    requires QueueSide(s)
    requires t < |s.threads| && s.threads[t].stage == Failing([])
    ensures QueueSide(At(s, t, Gone))
  {}

  lemma GoneRegister(s: State, t: nat)
    requires RegisterSide(s)
    requires t < |s.threads| && s.threads[t].stage == Failing([])
    ensures RegisterSide(At(s, t, Gone))
  {}

  lemma GoneCallback(s: State, t: nat)
    requires CallbackSide(s)
    requires t < |s.threads| && s.threads[t].stage == Failing([])
    ensures CallbackSide(At(s, t, Gone))
  {}

  lemma RecordQueue(s: State, t: nat, readBack: Option<bool>)
    requires InvQueue(s) && InvHolds(s)
    requires Enabled(s, DoRecord(t, readBack))
    ensures InvQueue(Record(s, t, readBack))
  {}

  lemma RecordActive(s: State, t: nat, readBack: Option<bool>)
    requires InvActive(s) && InvHolds(s)
    requires Enabled(s, DoRecord(t, readBack))
    ensures InvActive(Record(s, t, readBack))
  {}

  lemma RecordStarted(s: State, t: nat, readBack: Option<bool>)
    requires InvStarted(s) && InvLife(s)
    requires Enabled(s, DoRecord(t, readBack))
    ensures InvStarted(Record(s, t, readBack)) && InvLife(Record(s, t, readBack))
  {}

  lemma RecordSlots(s: State, t: nat, readBack: Option<bool>)
    requires InvSlots(s) && InvHolds(s)
    requires Enabled(s, DoRecord(t, readBack))
    ensures InvSlots(Record(s, t, readBack)) && InvHolds(Record(s, t, readBack))
  {
    RecordRegister(s, t, readBack);
    RecordHolds(s, t, readBack);
  }

  lemma RecordRegister(s: State, t: nat, readBack: Option<bool>)
    requires InvSlots(s) && InvHolds(s)
    requires Enabled(s, DoRecord(t, readBack))
    ensures InvSlots(Record(s, t, readBack))
  {}

  lemma RecordHolds(s: State, t: nat, readBack: Option<bool>)
    requires InvSlots(s) && InvHolds(s)
    requires Enabled(s, DoRecord(t, readBack))
    ensures InvHolds(Record(s, t, readBack))
  {}

  lemma RecordTold(s: State, t: nat, readBack: Option<bool>)
    requires InvTold(s) && InvSlots(s) && InvHolds(s)
    requires Enabled(s, DoRecord(t, readBack))
    ensures InvTold(Record(s, t, readBack))
  {
    hide InvSlots, InvHolds, ToldInHand, ToldOver, ToldItems;
    RecordToldInHand(s, t, readBack);
    RecordToldOver(s, t, readBack);
    RecordToldItems(s, t, readBack);
  }

  lemma RecordToldInHand(s: State, t: nat, readBack: Option<bool>)
    requires ToldInHand(s) && InvHolds(s) && InvSlots(s)
    requires Enabled(s, DoRecord(t, readBack))
    ensures ToldInHand(Record(s, t, readBack))
  {}

  lemma RecordToldOver(s: State, t: nat, readBack: Option<bool>)
    requires ToldOver(s) && InvHolds(s) && InvSlots(s)
    requires Enabled(s, DoRecord(t, readBack))
    ensures ToldOver(Record(s, t, readBack))
  {}

  lemma RecordToldItems(s: State, t: nat, readBack: Option<bool>)
    requires ToldItems(s) && InvSlots(s) && InvHolds(s)
    requires Enabled(s, DoRecord(t, readBack))
    ensures ToldItems(Record(s, t, readBack))
  {}

  lemma RecordFailing(s: State, t: nat, readBack: Option<bool>)
    requires InvFailing(s) && InvHolds(s)
    requires Enabled(s, DoRecord(t, readBack))
    ensures InvFailing(Record(s, t, readBack))
  {}

  lemma RecordLog(s: State, t: nat, readBack: Option<bool>)
    requires InvLog(s) && InvTold(s) && InvHolds(s)
    requires Enabled(s, DoRecord(t, readBack))
    ensures InvLog(Record(s, t, readBack))
  {}

  lemma TakeFirstQueue(s: State, t: nat)
    requires InvQueue(s)
    requires Enabled(s, DoTake(t)) && s.waiting != []
    ensures InvQueue(TakeFirst(s, t))
  {}

  lemma TakeFirstActive(s: State, t: nat)
    requires InvActive(s) && InvQueue(s)
    requires Enabled(s, DoTake(t)) && s.waiting != []
    ensures InvActive(TakeFirst(s, t))
  {}

  lemma TakeFirstStarted(s: State, t: nat)
    requires InvStarted(s) && InvQueue(s)
    requires Enabled(s, DoTake(t)) && s.waiting != []
    ensures InvStarted(TakeFirst(s, t))
  {}

  lemma TakeFirstLife(s: State, t: nat)
    requires InvLife(s)
    requires Enabled(s, DoTake(t)) && s.waiting != []
    ensures InvLife(TakeFirst(s, t))
  {}

  lemma TakeFirstSlots(s: State, t: nat)
    requires InvSlots(s)
    requires Enabled(s, DoTake(t)) && s.waiting != []
    ensures InvSlots(TakeFirst(s, t))
  {}

  lemma TakeFirstHolds(s: State, t: nat)
    requires InvSlots(s) && InvHolds(s) && InvQueue(s)
    requires Enabled(s, DoTake(t)) && s.waiting != []
    ensures InvHolds(TakeFirst(s, t))
  {}

  lemma TakeFirstTold(s: State, t: nat)
    requires InvTold(s) && InvSlots(s) && InvQueue(s)
    requires Enabled(s, DoTake(t)) && s.waiting != []
    ensures InvTold(TakeFirst(s, t))
  {}

  lemma TakeFirstFailing(s: State, t: nat)
    requires InvFailing(s) && InvQueue(s)
    requires Enabled(s, DoTake(t)) && s.waiting != []
    ensures InvFailing(TakeFirst(s, t))
  {}

  lemma TakeFirstLog(s: State, t: nat)
    requires InvLog(s) && InvQueue(s) && InvTold(s)
    requires Enabled(s, DoTake(t)) && s.waiting != []
    ensures InvLog(TakeFirst(s, t))
  {}

  lemma DismissQueue(s: State, t: nat)
    requires QueueSide(s)
    requires Enabled(s, DoTake(t))
    ensures QueueSide(Dismiss(s, t))
  {}

  lemma DismissSlots(s: State, t: nat)
    requires InvSlots(s) && InvHolds(s)
    requires Enabled(s, DoTake(t))
    ensures InvSlots(Dismiss(s, t)) && InvHolds(Dismiss(s, t))
  {}

  lemma DismissTold(s: State, t: nat)
    requires InvTold(s) && InvSlots(s) && InvHolds(s)
    requires Enabled(s, DoTake(t))
    ensures InvTold(Dismiss(s, t))
  {}

  lemma DismissFailing(s: State, t: nat)
    requires InvFailing(s) && InvLog(s)
    requires Enabled(s, DoTake(t))
    ensures InvFailing(Dismiss(s, t)) && InvLog(Dismiss(s, t))
  {}

  lemma DepartedQueue(s: State, t: nat, failures: map<nat, string>)
    requires QueueSide(s)
    requires t < |s.threads| && s.threads[t].stage.Leaving?
    ensures QueueSide(Departed(s, t, failures))
  {}

  lemma DepartedRegister(s: State, t: nat, failures: map<nat, string>)
    requires RegisterSide(s)
    requires t < |s.threads| && s.threads[t].stage.Leaving?
    ensures RegisterSide(Departed(s, t, failures))
  {}

  lemma DepartedTold(s: State, t: nat, failures: map<nat, string>)
    requires InvTold(s) && InvSlots(s) && InvHolds(s)
    requires t < |s.threads| && s.threads[t].stage.Leaving?
    ensures InvTold(Departed(s, t, failures))
  {}

  lemma DepartedFailing(s: State, t: nat, failures: map<nat, string>)
    requires InvFailing(s) && InvLog(s)
    requires t < |s.threads| && s.threads[t].stage.Leaving?
    ensures InvFailing(Departed(s, t, failures)) && InvLog(Departed(s, t, failures))
  {}

  lemma StopQueue(s: State, t: nat)
    requires InvQueue(s) && InvActive(s) && InvStarted(s)
    requires t < |s.threads| && s.threads[t].stage.Gone? && s.slots == map[] && s.stopped.None?
    ensures InvQueue(Stop(s, t)) && InvActive(Stop(s, t)) && InvStarted(Stop(s, t))
  {}

  lemma StopLife(s: State, t: nat)
    requires InvLife(s) && InvSlots(s)
    requires t < |s.threads| && s.threads[t].stage.Gone? && s.slots == map[] && s.stopped.None?
    ensures InvLife(Stop(s, t))
  {}

  lemma StopSlots(s: State, t: nat)
    requires InvSlots(s) && InvHolds(s)
    requires t < |s.threads| && s.threads[t].stage.Gone? && s.slots == map[] && s.stopped.None?
    ensures InvSlots(Stop(s, t)) && InvHolds(Stop(s, t))
  {}

  lemma StopTold(s: State, t: nat)
    requires InvTold(s) && InvHolds(s) && InvQueue(s)
    requires t < |s.threads| && s.threads[t].stage.Gone? && s.slots == map[] && s.stopped.None?
    ensures InvTold(Stop(s, t))
  {}

  lemma StopFailing(s: State, t: nat)
    requires InvFailing(s) && InvQueue(s) && InvTold(s)
    requires t < |s.threads| && s.threads[t].stage.Gone? && s.slots == map[] && s.stopped.None?
    ensures InvFailing(Stop(s, t))
  {}

  lemma StopLog(s: State, t: nat)
    requires InvLog(s) && InvQueue(s) && InvTold(s)
    requires t < |s.threads| && s.threads[t].stage.Gone? && s.slots == map[] && s.stopped.None?
    ensures InvLog(Stop(s, t))
  {}

  lemma RemoveQueue(s: State, i: nat)
    requires InvQueue(s)
    ensures InvQueue(Remove(s, i))
  {
    hide Without;
    if Is(s, i, Waiting) {
      WithoutHolds(s.waiting, i);
      RemovedFromQueue(s, Remove(s, i), i);
    }
  }

  lemma RemovedFromQueue(s: State, s': State, i: nat)
    requires InvQueue(s) && Is(s, i, Waiting)
    requires s'.items == s.items[i := s.items[i].(state := Removed)]
    requires forall j, k :: 0 <= j < k < |s'.waiting| ==> s'.waiting[j] < s'.waiting[k]
    requires forall x :: x in s'.waiting <==> x in s.waiting && x != i
    ensures InvQueue(s')
  {
    forall k | 0 <= k < |s'.waiting|
      ensures s'.waiting[k] < |s'.items| && s'.items[s'.waiting[k]].state == Waiting
    {
      assert s'.waiting[k] in s'.waiting;
    }
  }

  /** A list in order without one of its numbers: in order, and the others. */
  lemma WithoutHolds(q: seq<nat>, i: nat)
    requires forall j, k :: 0 <= j < k < |q| ==> q[j] < q[k]
    ensures forall j, k :: 0 <= j < k < |Without(q, i)| ==> Without(q, i)[j] < Without(q, i)[k]
    ensures forall x :: x in Without(q, i) <==> x in q && x != i
  {
    var k, r := IndexOf(q, i), Without(q, i);
    if k < |q| {
      forall x | x in q && x != i
        ensures x in r
      {
        var j :| 0 <= j < |q| && q[j] == x;
        assert r[if j < k then j else j - 1] == x;
      }
    }
  }

  lemma RemoveActive(s: State, i: nat)
    requires InvActive(s)
    ensures InvActive(Remove(s, i))
  {}

  lemma RemoveStarted(s: State, i: nat)
    requires InvStarted(s) && InvTold(s) && InvQueue(s)
    ensures InvStarted(Remove(s, i))
  {}

  lemma RemoveLife(s: State, i: nat)
    requires InvLife(s) && InvQueue(s)
    ensures InvLife(Remove(s, i))
  {}

  lemma RemoveRegister(s: State, i: nat)
    requires RegisterSide(s)
    ensures RegisterSide(Remove(s, i))
  {}

  lemma RemoveTold(s: State, i: nat)
    requires InvTold(s)
    ensures InvTold(Remove(s, i))
  {}

  lemma RemoveFailing(s: State, i: nat)
    requires InvFailing(s) && InvLog(s)
    ensures InvFailing(Remove(s, i)) && InvLog(Remove(s, i))
  {}

  lemma AppendOneQueue(s: State, test: Test, library: Option<nat>)
    requires InvQueue(s)
    ensures InvQueue(AppendOne(s, test, library))
  {}

  lemma AppendOneActive(s: State, test: Test, library: Option<nat>)
    requires InvActive(s)
    ensures InvActive(AppendOne(s, test, library))
  {}

  lemma AppendOneStarted(s: State, test: Test, library: Option<nat>)
    requires InvStarted(s)
    ensures InvStarted(AppendOne(s, test, library))
  {}

  lemma AppendOneLife(s: State, test: Test, library: Option<nat>)
    requires InvLife(s)
    ensures InvLife(AppendOne(s, test, library))
  {}

  lemma AppendOneRegister(s: State, test: Test, library: Option<nat>)
    requires RegisterSide(s)
    ensures RegisterSide(AppendOne(s, test, library))
  {}

  lemma AppendOneCallback(s: State, test: Test, library: Option<nat>)
    requires CallbackSide(s)
    ensures CallbackSide(AppendOne(s, test, library))
  {}

  lemma RemoveWaitingQueue(s: State)
    requires QueueSide(s)
    ensures QueueSide(EndWaiting(s, Removed, Nothing))
  {}

  lemma RemoveWaitingRegister(s: State)
    requires RegisterSide(s) && InvQueue(s)
    ensures RegisterSide(EndWaiting(s, Removed, Nothing))
  {}

  lemma RemoveWaitingTold(s: State)
    requires InvTold(s) && InvQueue(s)
    ensures InvTold(EndWaiting(s, Removed, Nothing))
  {}

  lemma RemoveWaitingFailing(s: State)
    requires InvFailing(s) && InvLog(s) && InvQueue(s) && InvTold(s)
    ensures InvFailing(EndWaiting(s, Removed, Nothing)) && InvLog(EndWaiting(s, Removed, Nothing))
  {}

  lemma SpawnOneQueue(s: State, w: nat)
    requires QueueSide(s)
    requires w !in s.slots && s.stopped.None?
    ensures QueueSide(SpawnOne(s, w))
  {}

  lemma SpawnOneRegister(s: State, w: nat)
    requires RegisterSide(s)
    requires w !in s.slots && s.stopped.None?
    ensures RegisterSide(SpawnOne(s, w))
  {}

  lemma SpawnOneCallback(s: State, w: nat)
    requires CallbackSide(s)
    requires w !in s.slots && s.stopped.None?
    ensures CallbackSide(SpawnOne(s, w))
  {}

  // ----- the actions ---------------------------------------------------------------

  lemma AskStopKeeps(s: State, i: nat)
    requires Inv(s)
    ensures Inv(AskStop(s, i))
  {
    if Is(s, i, Running) { RetouchedOneKeeps(s, i, s.items[i].(stopAsked := true)); }
  }

  lemma RunnerMadeKeeps(s: State, t: nat, failure: Option<string>)
    requires Inv(s) && Enabled(s, DoRunnerMade(t, failure))
    ensures Inv(RunnerMade(s, t, failure))
  {
    MovedKeeps(s, t, RunnerMade(s, t, failure).threads[t].stage);
  }

  lemma StartDoneKeeps(s: State, t: nat, failure: Option<string>)
    requires Inv(s) && Enabled(s, DoStartDone(t, failure))
    ensures Inv(StartDone(s, t, failure))
  {
    hide InvQueue, InvActive, InvStarted, InvHolds, InvTold, InvFailing, InvLog;
    var moved := At(s, t, if failure.Some? then Leaving(failure) else Looking);
    MovedKeeps(s, t, moved.threads[t].stage);
    if failure.None? { SettingsKeep(moved, StartDone(s, t, failure)); }
  }

  lemma JudgeKeeps(s: State, t: nat, report: Report)
    requires Inv(s) && Enabled(s, DoJudge(t, report))
    ensures Inv(Judge(s, t, report))
  {
    MovedKeeps(s, t, Judge(s, t, report).threads[t].stage);
  }

  lemma FireStartKeeps(s: State, t: nat)
    requires Inv(s) && Enabled(s, DoFireStart(t))
    ensures Inv(FireStart(s, t))
  {
    var i := s.threads[t].stage.item;
    NotedQueue(s, t, Begun(i), i, StartTold, OnStart(i));
    NotedRegister(s, t, Begun(i), i, StartTold, OnStart(i));
    FireStartTold(s, t);
    FireStartFailing(s, t);
    FireStartLog(s, t);
  }

  lemma PublishKeeps(s: State, t: nat, key: Option<string>)
    requires Inv(s) && Enabled(s, DoPublish(t, key))
    ensures Inv(Publish(s, t, key))
  {
    hide InvQueue, InvActive, InvStarted, InvSlots, InvHolds, InvTold, InvFailing, InvLog;
    var i := s.threads[t].stage.item;
    if key.None? {
      MovedKeeps(s, t, Judged(i, Raised));
    } else {
      var moved := At(s, t, InRun(i, s.items[i].stopAsked));
      MovedKeeps(s, t, InRun(i, s.items[i].stopAsked));
      RetouchedOneKeeps(moved, i, s.items[i].(key := key));
    }
  }

  lemma RecordKeeps(s: State, t: nat, readBack: Option<bool>)
    requires Inv(s) && Enabled(s, DoRecord(t, readBack))
    ensures Inv(Record(s, t, readBack))
  {
    RecordQueue(s, t, readBack);
    RecordActive(s, t, readBack);
    RecordStarted(s, t, readBack);
    RecordSlots(s, t, readBack);
    RecordTold(s, t, readBack);
    RecordFailing(s, t, readBack);
    RecordLog(s, t, readBack);
  }

  lemma FireEndKeeps(s: State, t: nat, retired: Option<string>)
    requires Inv(s) && Enabled(s, DoFireEnd(t, retired))
    ensures Inv(FireEnd(s, t, retired))
  {
    hide InvQueue, InvActive, InvStarted, InvLife, InvSlots, InvHolds, InvFailing, InvLog;
    var i := s.threads[t].stage.item;
    var stage := if retired.Some? then Leaving(retired) else Looking;
    NotedQueue(s, t, stage, i, EndTold, OnEnd(i));
    NotedRegister(s, t, stage, i, EndTold, OnEnd(i));
    FireEndTold(s, t, retired);
    FireEndFailing(s, t, retired);
    FireEndLog(s, t, retired);
  }

  lemma FireFailedKeeps(s: State, t: nat)
    requires Inv(s) && Enabled(s, DoFireFailed(t))
    ensures Inv(FireFailed(s, t))
  {
    var due := s.threads[t].stage.items;
    if due == [] {
      GoneQueue(s, t);
      GoneRegister(s, t);
      GoneCallback(s, t);
    } else {
      NotedQueue(s, t, Failing(due[1..]), due[0], EndTold, OnEnd(due[0]));
      NotedRegister(s, t, Failing(due[1..]), due[0], EndTold, OnEnd(due[0]));
      FireFailedTold(s, t);
      FireFailedFailing(s, t);
      FireFailedLog(s, t);
    }
  }

  lemma DismissKeeps(s: State, t: nat)
    requires Inv(s) && Enabled(s, DoTake(t)) && !s.closing && |s.slots| > s.target
    ensures Inv(Dismiss(s, t))
  {
    DismissQueue(s, t);
    DismissSlots(s, t);
    DismissTold(s, t);
    DismissFailing(s, t);
    assert |s.slots - {s.threads[t].slot}| >= |s.slots| - 1;  // another slot stays
  }

  lemma TakeKeeps(s: State, t: nat)
    requires Inv(s) && Enabled(s, DoTake(t))
    ensures Inv(Take(s, t))
  {
    assert Registered(s, t);
    if s.closing {
      MovedKeeps(s, t, Leaving(None));
    } else if |s.slots| > s.target {
      DismissKeeps(s, t);
    } else {
      TakeFirstQueue(s, t);
      TakeFirstActive(s, t);
      TakeFirstStarted(s, t);
      TakeFirstLife(s, t);
      TakeFirstSlots(s, t);
      TakeFirstHolds(s, t);
      TakeFirstTold(s, t);
      TakeFirstFailing(s, t);
      TakeFirstLog(s, t);
    }
  }

  lemma SlotLeftKeeps(s: State, t: nat)
    requires Inv(s) && Enabled(s, DoSlotLeft(t))
    ensures Inv(SlotLeft(s, t))
  {
    hide InvQueue, InvActive, InvStarted, InvHolds, InvTold, InvFailing, InvLog;
    var because := s.threads[t].stage.because;
    var failures := if because.Some? then s.failures[s.threads[t].slot := because.value] else s.failures;
    var out := Departed(s, t, failures);
    DepartedQueue(s, t, failures);
    DepartedRegister(s, t, failures);
    DepartedTold(s, t, failures);
    DepartedFailing(s, t, failures);
    if out.slots == map[] && because.Some? && !s.closing {
      assert Registered(s, t);
      StopQueue(out, t);
      StopLife(out, t);
      StopSlots(out, t);
      StopTold(out, t);
      StopFailing(out, t);
      StopLog(out, t);
    }
  }

  // Spawning.

  /** Fewer slots than wanted leaves a number free: the pigeonhole. */
  lemma FreeSlotIsFree(slots: map<nat, nat>, want: nat)
    requires |slots| < want
    ensures FreeSlot(slots, 0, want) < want && FreeSlot(slots, 0, want) !in slots
  {
    FreeSlotSkipsTaken(slots, 0, want);
    if FreeSlot(slots, 0, want) in slots || FreeSlot(slots, 0, want) >= want {
      NumbersBelow(slots.Keys, want);
    }
  }

  lemma {:induction false} FreeSlotSkipsTaken(slots: map<nat, nat>, w: nat, want: nat)
    requires w <= want && forall k :: 0 <= k < w ==> k in slots
    ensures w <= FreeSlot(slots, w, want) <= want
    ensures forall k :: 0 <= k < FreeSlot(slots, w, want) ==> k in slots
    ensures FreeSlot(slots, w, want) < want ==> FreeSlot(slots, w, want) !in slots
    decreases want - w
  {
    if w < want && w in slots {
      FreeSlotSkipsTaken(slots, w + 1, want);
    }
  }

  lemma {:induction false} NumbersBelow(s: set<nat>, n: nat)
    requires forall k :: 0 <= k < n ==> k in s
    ensures |s| >= n
  {
    if n > 0 {
      assert |s - {n - 1}| == |s| - 1;
      NumbersBelow(s - {n - 1}, n - 1);
    }
  }

  lemma SpawnOneKeeps(s: State, w: nat)
    requires Sides(s) && w !in s.slots && s.stopped.None?
    ensures Sides(SpawnOne(s, w)) && |SpawnOne(s, w).slots| == |s.slots| + 1
    ensures SpawnOne(s, w).(threads := s.threads, slots := s.slots) == s
  {
    hide InvQueue, InvActive, InvStarted, InvLife, InvSlots, InvHolds, InvTold, InvFailing, InvLog;
    SpawnOneQueue(s, w);
    SpawnOneRegister(s, w);
    SpawnOneCallback(s, w);
  }

  lemma {:induction false} SpawnedKeeps(s: State, want: int)
    requires Sides(s) && (|s.slots| < want ==> s.stopped.None?)
    ensures Sides(SpawnUpTo(s, want))
    ensures |SpawnUpTo(s, want).slots| == Max(|s.slots|, want)
    ensures SpawnUpTo(s, want).(threads := s.threads, slots := s.slots) == s
    decreases want - |s.slots|
  {
    hide Sides, FreeSlot, SpawnOne;
    if |s.slots| < want {
      FreeSlotIsFree(s.slots, want);
      SpawnOneKeeps(s, FreeSlot(s.slots, 0, want));
      SpawnedKeeps(SpawnOne(s, FreeSlot(s.slots, 0, want)), want);
    }
  }

  lemma SpawnKeeps(s: State)
    requires Sides(s) && s.target >= 1
    ensures Inv(Spawn(s))
    ensures |Spawn(s).slots| <= Max(|s.slots|, s.target)
    ensures s.closing || s.stopped.Some? ==> Spawn(s) == s
  {
    BusyIsRegistered(s);
    if s.stopped.Some? { assert Busy(s) == {}; }
    SpawnedKeeps(s, Wanted(s));
  }

  lemma BusyIsRegistered(s: State)
    ensures |Busy(s)| <= |s.slots|
  {
    assert Busy(s) <= s.slots.Keys;
    SubsetIsSmaller(Busy(s), s.slots.Keys);
  }

  lemma {:induction false} SubsetIsSmaller(a: set<nat>, b: set<nat>)
    requires a <= b
    ensures |a| <= |b|
  {
    if a != {} {
      var x :| x in a;
      assert |a - {x}| == |a| - 1 && |b - {x}| == |b| - 1;
      SubsetIsSmaller(a - {x}, b - {x});
    }
  }

  lemma SetWorkersKeeps(s: State, count: int)
    requires Inv(s)
    ensures Inv(SetWorkers(s, count))
  {
    hide InvQueue, InvActive, InvStarted, InvSlots, InvHolds, InvTold, InvFailing, InvLog;
    var t := s.(target := Max(1, count));
    SettingsKeep(s, t);
    SpawnKeeps(t);
  }

  lemma AppendOneKeeps(s: State, test: Test, library: Option<nat>)
    requires Sides(s)
    ensures Sides(AppendOne(s, test, library))
  {
    AppendOneQueue(s, test, library);
    AppendOneActive(s, test, library);
    AppendOneStarted(s, test, library);
    AppendOneLife(s, test, library);
    AppendOneRegister(s, test, library);
    AppendOneCallback(s, test, library);
  }

  lemma {:induction false} AppendAllKeeps(s: State, tests: seq<Test>, library: Option<nat>)
    requires Sides(s)
    ensures Sides(AppendAll(s, tests, library))
    ensures |AppendAll(s, tests, library).items| >= |s.items|
    ensures |AppendAll(s, tests, library).items| == |s.items| ==> AppendAll(s, tests, library) == s
    ensures AppendAll(s, tests, library).(items := s.items, library := s.library, active := s.active, waiting := s.waiting) == s
  {
    if tests != [] {
      AppendAllKeeps(s, tests[..|tests| - 1], library);
      AppendOneKeeps(AppendAll(s, tests[..|tests| - 1], library), tests[|tests| - 1], library);
    }
  }

  lemma SubmitAllKeeps(s: State, tests: seq<Test>, library: Option<nat>)
    requires Inv(s)
    ensures Inv(SubmitAll(s, tests, library))
  {
    AppendAllKeeps(s, tests, library);
    var t := AppendAll(s, tests, library);
    if |t.items| > |s.items| { SpawnKeeps(t); }
  }

  lemma UpdateKeeps(s: State, i: nat, test: Test, library: Option<nat>)
    requires Inv(s)
    ensures Inv(Update(s, i, test, library))
  {
    hide InvQueue, InvActive, InvStarted, InvSlots, InvHolds, InvTold, InvFailing, InvLog;
    if Is(s, i, Waiting) && test.model == s.items[i].test.model {
      var t := s.(library := Update(s, i, test, library).library);
      SettingsKeep(s, t);
      RetouchedOneKeeps(t, i, Update(s, i, test, library).items[i]);
    }
  }

  lemma RemoveKeeps(s: State, i: nat)
    requires Inv(s)
    ensures Inv(Remove(s, i))
  {
    RemoveQueue(s, i);
    RemoveActive(s, i);
    RemoveStarted(s, i);
    RemoveLife(s, i);
    RemoveRegister(s, i);
    RemoveTold(s, i);
    RemoveFailing(s, i);
  }

  lemma CloseKeeps(s: State)
    requires Inv(s)
    ensures Inv(Close(s))
  {
    hide InvQueue, InvActive, InvStarted, InvSlots, InvHolds, InvTold, InvFailing, InvLog;
    var t := EndWaiting(s, Removed, Nothing);
    RemoveWaitingQueue(s);
    RemoveWaitingRegister(s);
    RemoveWaitingTold(s);
    RemoveWaitingFailing(s);
    RetouchedKeeps(t, AskStops(t).items);
    SettingsKeep(AskStops(t), Close(s));
  }

  /** Every action keeps the invariant. */
  lemma StepKeeps(s: State, a: Action)
    requires Inv(s) && Enabled(s, a)
    ensures Inv(Do(s, a))
  {
    hide Inv, SubmitAll, SetWorkers, Update, Remove, AskStop, Close;
    hide RunnerMade, StartDone, Take, FireStart, Publish, Judge, Record, FireEnd, SlotLeft, FireFailed;
    match a
    case DoSubmitAll(tests, library) => SubmitAllKeeps(s, tests, library);
    case DoSetWorkers(count) => SetWorkersKeeps(s, count);
    case DoUpdate(i, test, library) => UpdateKeeps(s, i, test, library);
    case DoRemove(i) => RemoveKeeps(s, i);
    case DoCancel(i) => AskStopKeeps(s, i);
    case DoClose => CloseKeeps(s);
    case DoRunnerMade(t, failure) => RunnerMadeKeeps(s, t, failure);
    case DoStartDone(t, failure) => StartDoneKeeps(s, t, failure);
    case DoTake(t) => TakeKeeps(s, t);
    case DoFireStart(t) => FireStartKeeps(s, t);
    case DoPublish(t, key) => PublishKeeps(s, t, key);
    case DoJudge(t, report) => JudgeKeeps(s, t, report);
    case DoRecord(t, readBack) => RecordKeeps(s, t, readBack);
    case DoFireEnd(t, retired) => FireEndKeeps(s, t, retired);
    case DoSlotLeft(t) => SlotLeftKeeps(s, t);
    case DoFireFailed(t) => FireFailedKeeps(s, t);
  }
}
