/**
 * The simulation pool as a transition system over values.
 *
 * One action is one critical section of the pool (a `with self._cond` block)
 * or one step a pool thread takes outside the lock that the others can see:
 * a callback fired, a run that came back.  What a run, a start or a read-back
 * came to is a parameter of the action, so every interleaving and every
 * outcome is a run of this system.
 */
module PoolSpec {
  import opened Common

  datatype ItemState = Waiting | Running | Finished | Failed | Cancelled | Removed {
    predicate Final() { !Waiting? && !Running? }
    /** Final, by having run or by the pool's own doing: what `on_end` reports. */
    predicate Ended() { Finished? || Failed? || Cancelled? }
  }

  /** How far an item's callbacks have got. */
  datatype Told = Nothing | StartDue | StartTold | EndDue | EndTold

  /** A test as it was queued: its model and its settings. */
  datatype Test = Test(model: string, settings: int)

  datatype Item = Item(
    test: Test,
    library: Option<nat>,      // the serial of its library state
    state: ItemState,
    worker: Option<nat>,
    key: Option<string>,
    stopAsked: bool,
    told: Told)

  /** What the backend's run reported, or that it (or the wipe before it) raised. */
  datatype Report = Raised | Report(success: bool, cancelled: bool)

  datatype Stage =
    | Making                              // asking the backend for a runner
    | Starting(read: Option<nat>)         // the start is in flight; the state it will have read
    | Looking                             // in `_take`
    | Taken(item: nat)                    // marked RUNNING; `on_start` not fired yet
    | Begun(item: nat)                    // `on_start` fired; its key not published
    | InRun(item: nat, early: bool)       // key published; early: stopped before it got there
    | Judged(item: nat, report: Report)   // the run is over, the verdict not yet recorded
    | Over(item: nat)                     // the verdict is recorded; `on_end` not fired yet
    | Leaving(because: Option<string>)
    | Failing(items: seq<nat>)            // last one out: `on_end` still due for these
    | Gone
  {
    predicate HasItem() { Taken? || Begun? || InRun? || Judged? }
    function Held(): nat requires HasItem() { item }
  }

  datatype Thread = Thread(slot: nat, stage: Stage)

  datatype Event = OnStart(item: nat) | OnEnd(item: nat)

  /** An item is its submission number; a thread the number of its spawn. */
  datatype State = State(
    items: seq<Item>,
    waiting: seq<nat>,
    active: map<string, nat>,
    threads: seq<Thread>,
    slots: map<nat, nat>,
    target: nat,
    closing: bool,
    stopped: Option<map<nat, string>>,    // the reasons the pool stopped with
    failures: map<nat, string>,
    library: Option<nat>,
    started: seq<nat>,                    // the items taken, in the order they were
    failer: Option<nat>,                  // the thread that failed the waiting items
    log: seq<Event>)                      // the callbacks fired

  function Max(a: int, b: int): int { if a < b then b else a }
  function Min(a: int, b: int): int { if a < b then a else b }

  function Init(workers: int): State
  {
    State([], [], map[], [], map[], Max(1, workers), false, None, map[], None, [], None, [])
  }

  function Later(a: Option<nat>, b: Option<nat>): Option<nat>
  {
    if b.Some? && (a.None? || b.value > a.value) then b else a
  }

  // ----- the caller's side --------------------------------------------------

  predicate Refused(s: State, test: Test)
  {
    s.closing || s.stopped.Some? || test.model in s.active
  }

  function AppendOne(s: State, test: Test, library: Option<nat>): State
  {
    if Refused(s, test) then s
    else
      s.(items := s.items + [Item(test, library, Waiting, None, None, false, Nothing)],
         library := Later(s.library, library),
         active := s.active[test.model := |s.items|],
         waiting := s.waiting + [|s.items|])
  }

  function AppendAll(s: State, tests: seq<Test>, library: Option<nat>): State
  {
    if tests == [] then s
    else AppendOne(AppendAll(s, tests[..|tests| - 1], library), tests[|tests| - 1], library)
  }

  /** What each test is answered with: its item, or a refusal. */
  function Answers(s: State, tests: seq<Test>, library: Option<nat>): seq<Option<nat>>
  {
    if tests == [] then []
    else
      var before := AppendAll(s, tests[..|tests| - 1], library);
      Answers(s, tests[..|tests| - 1], library)
      + [if Refused(before, tests[|tests| - 1]) then None else Some(|before.items|)]
  }

  /** The slots whose thread has an item in hand. */
  function BusySlots(slots: map<nat, nat>, threads: seq<Thread>): set<nat>
  {
    set w | w in slots && slots[w] < |threads| && threads[slots[w]].stage.HasItem()
  }

  function Busy(s: State): set<nat>
  {
    BusySlots(s.slots, s.threads)
  }

  function Wanted(s: State): int
  {
    Min(s.target, |s.waiting| + |Busy(s)|)
  }

  /** The first slot number from `w` up that is free. */
  function FreeSlot(slots: map<nat, nat>, w: nat, want: nat): nat
    decreases want - w
  {
    if w < want && w in slots then FreeSlot(slots, w + 1, want) else w
  }

  function SpawnOne(s: State, w: nat): State
  {
    s.(slots := s.slots[w := |s.threads|], threads := s.threads + [Thread(w, Making)])
  }

  function SpawnUpTo(s: State, want: int): State
    decreases want - |s.slots|
  {
    if |s.slots| >= want then s
    else
      var w := FreeSlot(s.slots, 0, want);
      if w in s.slots then s else SpawnUpTo(SpawnOne(s, w), want)
  }

  function Spawn(s: State): State
  {
    SpawnUpTo(s, Wanted(s))
  }

  function SubmitAll(s: State, tests: seq<Test>, library: Option<nat>): State
  {
    var t := AppendAll(s, tests, library);
    if |t.items| > |s.items| then Spawn(t) else t
  }

  predicate Is(s: State, i: nat, state: ItemState)
  {
    i < |s.items| && s.items[i].state == state
  }

  function SetWorkers(s: State, count: int): State
  {
    Spawn(s.(target := Max(1, count)))
  }

  /** A waiting item is handed its test as it stands now; its state moves only forward. */
  function Update(s: State, i: nat, test: Test, library: Option<nat>): State
  {
    if Is(s, i, Waiting) && test.model == s.items[i].test.model then
      var kept := Later(s.items[i].library, library);
      s.(items := s.items[i := s.items[i].(test := test, library := kept)],
         library := if kept != s.items[i].library then Later(s.library, library) else s.library)
    else s
  }

  function IndexOf(q: seq<nat>, i: nat): (k: nat)
    ensures k <= |q|
    ensures if i in q then k < |q| && q[k] == i else k == |q|
  {
    if q == [] || q[0] == i then 0 else 1 + IndexOf(q[1..], i)
  }

  function Without(q: seq<nat>, i: nat): seq<nat>
  {
    var k := IndexOf(q, i);
    if k < |q| then q[..k] + q[k + 1..] else q
  }

  function Remove(s: State, i: nat): State
  {
    if Is(s, i, Waiting) then
      s.(waiting := Without(s.waiting, i),
         active := s.active - {s.items[i].test.model},
         items := s.items[i := s.items[i].(state := Removed)])
    else s
  }

  function AskStop(s: State, i: nat): State
  {
    if Is(s, i, Running) then s.(items := s.items[i := s.items[i].(stopAsked := true)]) else s
  }

  function Marked(items: seq<Item>, ids: seq<nat>, state: ItemState, told: Told): seq<Item>
  {
    seq(|items|, k requires 0 <= k < |items| =>
      if k in ids then items[k].(state := state, told := told) else items[k])
  }

  function Dropped(active: map<string, nat>, ids: seq<nat>): map<string, nat>
  {
    map m | m in active && active[m] !in ids :: active[m]
  }

  /** What waits ends as `state`, and leaves the queue and the index. */
  function EndWaiting(s: State, state: ItemState, told: Told): State
  {
    s.(waiting := [], active := Dropped(s.active, s.waiting), items := Marked(s.items, s.waiting, state, told))
  }

  /** The items in the hands of the registered threads. */
  function HeldItems(slots: map<nat, nat>, threads: seq<Thread>): set<nat>
  {
    set w | w in BusySlots(slots, threads) :: threads[slots[w]].stage.Held()
  }

  function Close(s: State): State
  {
    AskStops(EndWaiting(s, Removed, Nothing)).(closing := true)
  }

  /** A stop is asked of every item in a registered thread's hand. */
  function AskStops(s: State): State
  {
    s.(items := seq(|s.items|, k requires 0 <= k < |s.items| =>
         if k in HeldItems(s.slots, s.threads) then s.items[k].(stopAsked := true) else s.items[k]))
  }

  // ----- a pool thread's side ------------------------------------------------

  function At(s: State, t: nat, stage: Stage): State
    requires t < |s.threads|
  {
    s.(threads := s.threads[t := s.threads[t].(stage := stage)])
  }

  predicate Registered(s: State, t: nat)
    requires t < |s.threads|
  {
    s.threads[t].slot in s.slots && s.slots[s.threads[t].slot] == t
  }

  function RunnerMade(s: State, t: nat, failure: Option<string>): State
    requires t < |s.threads|
  {
    if failure.Some? then At(s, t, Leaving(failure))
    else if s.closing then At(s, t, Leaving(None))
    else At(s, t, Starting(s.library))
  }

  function StartDone(s: State, t: nat, failure: Option<string>): State
    requires t < |s.threads|
  {
    if failure.Some? then At(s, t, Leaving(failure))
    else At(s, t, Looking).(failures := s.failures - {s.threads[t].slot})
  }

  /** `_take` returns: the slot is to leave, or there is an item for it. */
  predicate CanTake(s: State)
  {
    s.closing || s.stopped.Some? || |s.slots| > s.target || s.waiting != []
  }

  function Take(s: State, t: nat): State
    requires t < |s.threads| && CanTake(s)
    requires s.waiting != [] ==> s.waiting[0] < |s.items|
  {
    if s.closing || s.stopped.Some? then At(s, t, Leaving(None))
    else if |s.slots| > s.target then Dismiss(s, t)
    else TakeFirst(s, t)
  }

  /** One worker too many: its slot is free at once. */
  function Dismiss(s: State, t: nat): State
    requires t < |s.threads|
  {
    At(s, t, Leaving(None)).(slots := s.slots - {s.threads[t].slot})
  }

  function TakeFirst(s: State, t: nat): State
    requires t < |s.threads| && s.waiting != [] && s.waiting[0] < |s.items|
  {
    var i := s.waiting[0];
    At(s, t, Taken(i)).(
      waiting := s.waiting[1..],
      items := s.items[i := s.items[i].(state := Running, worker := Some(s.threads[t].slot), told := StartDue)],
      started := s.started + [i])
  }

  function FireStart(s: State, t: nat): State
    requires t < |s.threads| && s.threads[t].stage.Taken? && s.threads[t].stage.item < |s.items|
  {
    var i := s.threads[t].stage.item;
    At(s, t, Begun(i)).(
      items := s.items[i := s.items[i].(told := StartTold)],
      log := s.log + [OnStart(i)])
  }

  /** The key is published and the run announced, or the wipe before it raised. */
  function Publish(s: State, t: nat, key: Option<string>): State
    requires t < |s.threads| && s.threads[t].stage.Begun? && s.threads[t].stage.item < |s.items|
  {
    var i := s.threads[t].stage.item;
    if key.None? then At(s, t, Judged(i, Raised))
    else At(s, t, InRun(i, s.items[i].stopAsked)).(items := s.items[i := s.items[i].(key := key)])
  }

  /** The run came back: a stopped run that did not succeed is cancelled. */
  function Judge(s: State, t: nat, report: Report): State
    requires t < |s.threads| && s.threads[t].stage.InRun? && s.threads[t].stage.item < |s.items|
  {
    var i := s.threads[t].stage.item;
    var ran := if s.threads[t].stage.early then Report(false, true) else report;
    At(s, t, Judged(i,
      if ran.Report? && s.items[i].stopAsked && !ran.success then Report(false, true) else ran))
  }

  /** `readBack`: None when recording it raised, else whether a good result was read. */
  function Verdict(report: Report, readBack: Option<bool>): ItemState
  {
    if report.Raised? || readBack.None? then Failed
    else if report.cancelled then Cancelled
    else if report.success && readBack.value then Finished
    else Failed
  }

  function Record(s: State, t: nat, readBack: Option<bool>): State
    requires t < |s.threads| && s.threads[t].stage.Judged? && s.threads[t].stage.item < |s.items|
  {
    var i := s.threads[t].stage.item;
    At(s, t, Over(i)).(
      items := s.items[i := s.items[i].(
        state := Verdict(s.threads[t].stage.report, readBack), told := EndDue)],
      active := s.active - {s.items[i].test.model})
  }

  /** `on_end`, and then a look at whether the runner was given up. */
  function FireEnd(s: State, t: nat, retired: Option<string>): State
    requires t < |s.threads| && s.threads[t].stage.Over? && s.threads[t].stage.item < |s.items|
  {
    var i := s.threads[t].stage.item;
    At(s, t, if retired.Some? then Leaving(retired) else Looking).(
      items := s.items[i := s.items[i].(told := EndTold)],
      log := s.log + [OnEnd(i)])
  }

  /** A thread is gone; the last one, with a reason, stops the pool. */
  function SlotLeft(s: State, t: nat): State
    requires t < |s.threads| && s.threads[t].stage.Leaving?
  {
    var because := s.threads[t].stage.because;
    var out := Departed(s, t,
      if because.Some? then s.failures[s.threads[t].slot := because.value] else s.failures);
    if out.slots != map[] || because.None? || s.closing then out else Stop(out, t)
  }

  function Departed(s: State, t: nat, failures: map<nat, string>): State
    requires t < |s.threads|
  {
    At(s, t, Gone).(
      slots := if Registered(s, t) then s.slots - {s.threads[t].slot} else s.slots,
      failures := failures)
  }

  /** The last worker left for a reason: what waits fails with the reasons. */
  function Stop(s: State, t: nat): State
    requires t < |s.threads|
  {
    EndWaiting(At(s, t, Failing(s.waiting)), Failed, EndDue)
      .(stopped := Some(s.failures), failer := Some(t))
  }

  function FireFailed(s: State, t: nat): State
    requires t < |s.threads| && s.threads[t].stage.Failing?
    requires s.threads[t].stage.items != [] ==> s.threads[t].stage.items[0] < |s.items|
  {
    var due := s.threads[t].stage.items;
    if due == [] then At(s, t, Gone)
    else
      At(s, t, Failing(due[1..])).(
        items := s.items[due[0] := s.items[due[0]].(told := EndTold)],
        log := s.log + [OnEnd(due[0])])
  }

  // ----- the system ------------------------------------------------------------

  datatype Action =
    | DoSubmitAll(tests: seq<Test>, library: Option<nat>)
    | DoSetWorkers(count: int)
    | DoUpdate(item: nat, test: Test, library: Option<nat>)
    | DoRemove(item: nat)
    | DoCancel(item: nat)
    | DoClose
    | DoRunnerMade(thread: nat, failure: Option<string>)
    | DoStartDone(thread: nat, failure: Option<string>)
    | DoTake(thread: nat)
    | DoFireStart(thread: nat)
    | DoPublish(thread: nat, key: Option<string>)
    | DoJudge(thread: nat, report: Report)
    | DoRecord(thread: nat, readBack: Option<bool>)
    | DoFireEnd(thread: nat, retired: Option<string>)
    | DoSlotLeft(thread: nat)
    | DoFireFailed(thread: nat)
  {
    predicate OfThread() { !DoSubmitAll? && !DoSetWorkers? && !DoUpdate? && !DoRemove? && !DoCancel? && !DoClose? }
  }

  /** Whether the thread of `a` stands where `a` begins. */
  predicate Enabled(s: State, a: Action)
  {
    !a.OfThread() ||
    (a.thread < |s.threads| &&
     var stage := s.threads[a.thread].stage;
     match a
     case DoRunnerMade(_, _) => stage.Making?
     case DoStartDone(_, _) => stage.Starting?
     case DoTake(_) => stage.Looking? && CanTake(s) && (s.waiting != [] ==> s.waiting[0] < |s.items|)
     case DoFireStart(_) => stage.Taken? && stage.item < |s.items|
     case DoPublish(_, _) => stage.Begun? && stage.item < |s.items|
     case DoJudge(_, _) => stage.InRun? && stage.item < |s.items|
     case DoRecord(_, _) => stage.Judged? && stage.item < |s.items|
     case DoFireEnd(_, _) => stage.Over? && stage.item < |s.items|
     case DoSlotLeft(_) => stage.Leaving?
     case DoFireFailed(_) => stage.Failing? && (stage.items != [] ==> stage.items[0] < |s.items|)
     case _ => true)
  }

  function Do(s: State, a: Action): State
    requires Enabled(s, a)
  {
    match a
    case DoSubmitAll(tests, library) => SubmitAll(s, tests, library)
    case DoSetWorkers(count) => SetWorkers(s, count)
    case DoUpdate(i, test, library) => Update(s, i, test, library)
    case DoRemove(i) => Remove(s, i)
    case DoCancel(i) => AskStop(s, i)
    case DoClose => Close(s)
    case DoRunnerMade(t, failure) => RunnerMade(s, t, failure)
    case DoStartDone(t, failure) => StartDone(s, t, failure)
    case DoTake(t) => Take(s, t)
    case DoFireStart(t) => FireStart(s, t)
    case DoPublish(t, key) => Publish(s, t, key)
    case DoJudge(t, report) => Judge(s, t, report)
    case DoRecord(t, readBack) => Record(s, t, readBack)
    case DoFireEnd(t, retired) => FireEnd(s, t, retired)
    case DoSlotLeft(t) => SlotLeft(s, t)
    case DoFireFailed(t) => FireFailed(s, t)
  }
}
