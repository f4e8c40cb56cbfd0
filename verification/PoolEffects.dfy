/** What each call and each step does, in terms of the items, the queue and the slots alone. */
module PoolEffects {
  import opened Common
  import opened PoolSpec
  import opened PoolInvariant
  import opened PoolTheorems
  import opened PoolStops

  // ----- what is submitted ---------------------------------------------------------------------------

  ghost predicate Live(s: State, model: string)
  {
    exists i :: 0 <= i < |s.items| && s.items[i].test.model == model && !s.items[i].state.Final()
  }

  predicate Names(tests: seq<Test>, model: string)
  {
    exists j :: 0 <= j < |tests| && tests[j].model == model
  }

  /** A test is refused by a pool that is closed or stopped, and when its model is live or named earlier in the batch. */
  ghost predicate Answered(s: State, tests: seq<Test>, answers: seq<Option<nat>>)
  {
    && |answers| == |tests|
    && forall k :: 0 <= k < |tests| ==>
         (answers[k].None? <==> s.closing || s.stopped.Some? || Live(s, tests[k].model) || Names(tests[..k], tests[k].model))
  }

  /** Each test that is not refused is one new item, in that order, and nothing else is new. */
  ghost predicate Appended(s: State, tests: seq<Test>, library: Option<nat>, answers: seq<Option<nat>>, items: seq<Item>)
    requires |answers| == |tests|
  {
    && s.items <= items
    && (forall k :: 0 <= k < |tests| && answers[k].Some? ==>
          && |s.items| <= answers[k].value < |items|
          && items[answers[k].value] == Item(tests[k], library, Waiting, None, None, false, Nothing))
    && (forall j, k :: 0 <= j < k < |tests| && answers[j].Some? && answers[k].Some? ==> answers[j].value < answers[k].value)
    && forall i :: |s.items| <= i < |items| ==> Some(i) in answers
  }

  /** The new items wait, in their order, behind those that waited. */
  predicate Queued(s: State, items: seq<Item>, waiting: seq<nat>)
  {
    && |items| >= |s.items| && |waiting| == |s.waiting| + (|items| - |s.items|) && s.waiting <= waiting
    && forall k {:trigger waiting[k]} :: |s.waiting| <= k < |waiting| ==> waiting[k] == |s.items| + (k - |s.waiting|)
  }

  /** What is in the index while a batch is appended. */
  ghost predicate Indexed(s: State, tests: seq<Test>, t: State)
  {
    && t.closing == s.closing && t.stopped == s.stopped
    && forall m :: m in t.active <==> m in s.active || (!s.closing && s.stopped.None? && Names(tests, m))
  }

  lemma LiveIsIndexed(s: State, model: string)
    requires InvActive(s)
    ensures Live(s, model) <==> model in s.active
  {}

  lemma NamesOneMore(before: seq<Test>, last: Test, model: string)
    ensures Names(before + [last], model) <==> Names(before, model) || model == last.model
  {
    var tests := before + [last];
    if Names(before, model) {
      var j :| 0 <= j < |before| && before[j].model == model;
      assert tests[j].model == model;
    }
    assert tests[|before|] == last;
  }

  lemma {:induction false} AppendAllIndexes(s: State, tests: seq<Test>, library: Option<nat>)
    ensures Indexed(s, tests, AppendAll(s, tests, library))
  {
    if tests != [] {
      var before, last := tests[..|tests| - 1], tests[|tests| - 1];
      AppendAllIndexes(s, before, library);
      assert before + [last] == tests;
      hide Names;
      forall m
        ensures Names(tests, m) <==> Names(before, m) || m == last.model
      {
        NamesOneMore(before, last, m);
      }
    } else {
      assert forall m :: !Names(tests, m);
    }
  }

  /** What is submitted, answered, appended and queued. */
  ghost predicate Submits(s: State, tests: seq<Test>, library: Option<nat>)
  {
    var t, answers := AppendAll(s, tests, library), Answers(s, tests, library);
    Answered(s, tests, answers) && Appended(s, tests, library, answers, t.items) && Queued(s, t.items, t.waiting)
  }

  lemma {:induction false} AppendAllSubmits(s: State, tests: seq<Test>, library: Option<nat>)
    requires InvActive(s)
    ensures Submits(s, tests, library)
  {
    if tests != [] {
      var before, last := tests[..|tests| - 1], tests[|tests| - 1];
      AppendAllSubmits(s, before, library);
      AppendAllIndexes(s, before, library);
      LiveIsIndexed(s, last.model);
      OneMore(s, before, last, library);
      assert before + [last] == tests;
    } else {
      assert AppendAll(s, [], library) == s && Answers(s, [], library) == [];
    }
  }

  lemma OneMore(s: State, before: seq<Test>, last: Test, library: Option<nat>)
    requires Submits(s, before, library) && Indexed(s, before, AppendAll(s, before, library))
    requires Live(s, last.model) <==> last.model in s.active
    ensures Submits(s, before + [last], library)
  {
    hide Live, Names, AppendAll, AppendOne, Answers, Answered, Appended, Indexed, Queued, Refused;
    var b, answers := AppendAll(s, before, library), Answers(s, before, library);
    var answer := if Refused(b, last) then None else Some(|b.items|);
    LastAppended(s, before, last, library);
    RefusedLast(s, before, last, b);
    OneAppended(b, last, library);
    AnsweredOneMore(s, before, last, answers, answer);
    assert |answers| == |before| by { AsMany(s, before, answers); }
    AppendedOneMore(s, before, last, library, answers, b.items, answer);
    QueuedOneMore(s, b.items, b.waiting, Item(last, library, Waiting, None, None, false, Nothing));
  }

  lemma AsMany(s: State, tests: seq<Test>, answers: seq<Option<nat>>)
    requires Answered(s, tests, answers)
    ensures |answers| == |tests|
  {}

  lemma RefusedLast(s: State, before: seq<Test>, last: Test, b: State)
    requires Indexed(s, before, b) && (Live(s, last.model) <==> last.model in s.active)
    ensures Refused(b, last) <==> s.closing || s.stopped.Some? || Live(s, last.model) || Names(before, last.model)
  {}

  lemma OneAppended(b: State, last: Test, library: Option<nat>)
    ensures var t := AppendOne(b, last, library);
      if Refused(b, last) then t.items == b.items && t.waiting == b.waiting
      else t.items == b.items + [Item(last, library, Waiting, None, None, false, Nothing)] && t.waiting == b.waiting + [|b.items|]
  {}

  lemma QueuedOneMore(s: State, items: seq<Item>, waiting: seq<nat>, x: Item)
    requires Queued(s, items, waiting)
    ensures Queued(s, items + [x], waiting + [|items|])
  {}

  lemma LastAppended(s: State, before: seq<Test>, last: Test, library: Option<nat>)
    ensures var b := AppendAll(s, before, library);
      && AppendAll(s, before + [last], library) == AppendOne(b, last, library)
      && Answers(s, before + [last], library) == Answers(s, before, library) + [if Refused(b, last) then None else Some(|b.items|)]
  {
    var tests := before + [last];
    assert tests[..|tests| - 1] == before && tests[|tests| - 1] == last;
  }

  lemma AnsweredOneMore(s: State, before: seq<Test>, last: Test, answers: seq<Option<nat>>, answer: Option<nat>)
    requires Answered(s, before, answers)
    requires answer.None? <==> s.closing || s.stopped.Some? || Live(s, last.model) || Names(before, last.model)
    ensures Answered(s, before + [last], answers + [answer])
  {
    hide Live, Names;
    var tests := before + [last];
    forall k | 0 <= k < |tests|
      ensures tests[..k] == before[..k] && (k < |before| ==> tests[k] == before[k])
    {}
    assert before[..|before|] == before;
  }

  lemma AppendedOneMore(s: State, before: seq<Test>, last: Test, library: Option<nat>, answers: seq<Option<nat>>, items: seq<Item>, answer: Option<nat>)
    requires |answers| == |before| && Appended(s, before, library, answers, items) && (answer.Some? ==> answer.value == |items|)
    ensures Appended(s, before + [last], library, answers + [answer],
                     if answer.None? then items else items + [Item(last, library, Waiting, None, None, false, Nothing)])
  {
    var items' := if answer.None? then items else items + [Item(last, library, Waiting, None, None, false, Nothing)];
    forall i | |s.items| <= i < |items'|
      ensures Some(i) in answers + [answer]
    {
      if i < |items| {
        assert Some(i) in answers;
      } else {
        assert (answers + [answer])[|answers|] == Some(i);
      }
    }
  }

  // ----- the slots -------------------------------------------------------------------------------------

  /** The registered threads with an item in hand. */
  function HandsFull(s: State): set<nat>
  {
    set w | w in s.slots && s.slots[w] < |s.threads| && s.threads[s.slots[w]].stage.HasItem()
  }

  /** New threads alone, each making its runner under a slot number of its own. */
  ghost predicate Grown(s: State, t: State)
  {
    && s.threads <= t.threads && |t.threads| - |s.threads| == |t.slots| - |s.slots|
    && (forall w :: w in s.slots ==> w in t.slots && t.slots[w] == s.slots[w])
    && (forall k :: |s.threads| <= k < |t.threads| ==>
          && t.threads[k].stage == Making && t.threads[k].slot !in s.slots
          && t.threads[k].slot in t.slots && t.slots[t.threads[k].slot] == k)
  }

  /** No number below a new one is free. */
  ghost predicate LowestFirst(s: State, t: State)
  {
    forall w, v :: w in t.slots && w !in s.slots && 0 <= v < w ==> v in t.slots
  }

  lemma SpawnOneGrows(s: State, w: nat)
    requires w !in s.slots
    ensures Grown(s, SpawnOne(s, w))
  {}

  lemma GrownTwice(s: State, r: State, t: State)
    requires Grown(s, r) && Grown(r, t)
    ensures Grown(s, t)
  {}

  lemma {:induction false} SpawnUpToGrows(s: State, want: int)
    ensures var t := SpawnUpTo(s, want); Grown(s, t) && LowestFirst(s, t) && |t.slots| == Max(|s.slots|, want)
    decreases want - |s.slots|
  {
    if |s.slots| < want {
      var w := FreeSlot(s.slots, 0, want);
      FreeSlotIsFree(s.slots, want);
      FreeSlotSkipsTaken(s.slots, 0, want);
      var r := SpawnOne(s, w);
      assert |r.slots| == |s.slots| + 1;
      SpawnOneGrows(s, w);
      SpawnUpToGrows(r, want);
      var t := SpawnUpTo(s, want);
      assert forall v :: 0 <= v <= w ==> v in r.slots;
      assert LowestFirst(s, t) by {
        forall u, v | u in t.slots && u !in s.slots && 0 <= v < u
          ensures v in t.slots
        {
          if u == w {
            assert v in r.slots;
          }
        }
      }
      hide Grown, LowestFirst, SpawnUpTo;
      GrownTwice(s, r, t);
    }
  }

  /** As many slots as there is to run, up to the target, are there: no more than were missing, the lowest free numbers. */
  lemma SpawnFills(s: State)
    ensures var t := Spawn(s);
      && Grown(s, t) && LowestFirst(s, t)
      && |t.slots| == Max(|s.slots|, Min(s.target, |s.waiting| + |HandsFull(s)|))
  {
    SpawnUpToGrows(s, Wanted(s));
  }

  // ----- the caller's calls ----------------------------------------------------------------------------

  /** A batch: what is answered and appended, and as many slots as there is to run once something is. */
  lemma SubmitAllDoes(s: State, tests: seq<Test>, library: Option<nat>)
    requires Inv(s)
    ensures |Answers(s, tests, library)| == |tests|
    ensures var t, answers := SubmitAll(s, tests, library), Answers(s, tests, library);
      && Answered(s, tests, answers) && Appended(s, tests, library, answers, t.items) && Queued(s, t.items, t.waiting)
      && t.target == s.target && Grown(s, t)
      && (|t.items| > |s.items| ==> |t.slots| == Max(|s.slots|, Min(s.target, |t.waiting| + |HandsFull(s)|)))
      && (|t.items| > |s.items| && library.Some? ==> t.library.Some? && t.library.value >= library.value)
  {
    hide InvQueue, InvHolds, InvSlots, InvStarted, InvTold, InvFailing, InvLog, InvLife, NoStrand, InvActive;
    hide Answered, Appended, Queued, AppendAll, Answers, SpawnUpTo, LowestFirst;
    AppendAllSubmits(s, tests, library);
    AsMany(s, tests, Answers(s, tests, library));
    var t := AppendAll(s, tests, library);
    AppendsOnly(s, tests, library);
    SpawnUpToChangesOnlyThreads(t, Wanted(t));
    SpawnFills(t);
    assert HandsFull(t) == HandsFull(s);
  }

  lemma {:induction false} AppendsOnly(s: State, tests: seq<Test>, library: Option<nat>)
    ensures var t := AppendAll(s, tests, library);
      && t.threads == s.threads && t.slots == s.slots && t.target == s.target && |t.items| >= |s.items|
      && (|t.items| > |s.items| && library.Some? ==> t.library.Some? && t.library.value >= library.value)
  {
    if tests != [] {
      AppendsOnly(s, tests[..|tests| - 1], library);
    }
  }

  /** A new target, and as many slots as there is to run under it. */
  lemma SetWorkersDoes(s: State, count: int)
    ensures var t := SetWorkers(s, count);
      && t.target == (if count >= 1 then count else 1) && Grown(s, t)
      && |t.slots| == Max(|s.slots|, Min(t.target, |s.waiting| + |HandsFull(s)|))
  {
    var r := s.(target := Max(1, count));
    SpawnUpToChangesOnlyThreads(r, Wanted(r));
    SpawnFills(r);
    assert HandsFull(r) == HandsFull(s);
  }

  /** A close: nothing waits, what waited is removed, and of whatever runs a stop is asked. */
  ghost predicate Closed(s: State, t: State)
  {
    && t.closing && t.waiting == [] && |t.items| == |s.items| && t.threads == s.threads && t.slots == s.slots
    && forall i :: 0 <= i < |s.items| ==>
         && t.items[i].state == (if s.items[i].state == Waiting then Removed else s.items[i].state)
         && (s.items[i].state == Running ==> t.items[i].stopAsked)
         && (s.items[i].state.Final() ==> t.items[i] == s.items[i])
  }

  lemma CloseDoes(s: State)
    requires Inv(s)
    ensures Closed(s, Close(s))
  {
    hide InvActive, InvStarted, InvTold, InvFailing, InvLog, InvLife, NoStrand, Dropped;
    forall i | 0 <= i < |s.items| && s.items[i].state == Running
      ensures i in HeldItems(s.slots, s.threads)
    {
      var w := s.items[i].worker.value;
      assert w in BusySlots(s.slots, s.threads) && s.threads[s.slots[w]].stage.Held() == i;
    }
    forall w | w in BusySlots(s.slots, s.threads)
      ensures s.items[s.threads[s.slots[w]].stage.Held()].state == Running
    {}
  }

  /** A waiting item gets the test as it stands, and a library state only if it is later; nothing else is touched. */
  ghost predicate Handed(s: State, t: State, i: nat, test: Test, library: Option<nat>)
  {
    if i < |s.items| && s.items[i].state == Waiting && s.items[i].test.model == test.model then
      && |t.items| == |s.items| && (forall k :: 0 <= k < |s.items| && k != i ==> t.items[k] == s.items[k])
      && t.items[i] == s.items[i].(test := test, library := t.items[i].library)
      && AtLeast(t.items[i].library, library) && AtLeast(t.items[i].library, s.items[i].library)
      && t.items[i].library in {library, s.items[i].library}
      && t.waiting == s.waiting && t.active == s.active && AtLeast(t.library, t.items[i].library)
    else t == s
  }

  lemma UpdateDoes(s: State, i: nat, test: Test, library: Option<nat>)
    requires Inv(s)
    ensures Handed(s, Update(s, i, test, library), i, test, library)
  {}

  /** A waiting item is removed: the others wait on in their order, and its model is free. */
  ghost predicate TakenOut(s: State, t: State, i: nat)
  {
    if i < |s.items| && s.items[i].state == Waiting then
      && |t.items| == |s.items| && (forall k :: 0 <= k < |s.items| && k != i ==> t.items[k] == s.items[k])
      && t.items[i] == s.items[i].(state := Removed)
      && |t.waiting| + 1 == |s.waiting| && (forall k :: k in t.waiting <==> k in s.waiting && k != i)
      && s.items[i].test.model !in t.active
    else t == s
  }

  lemma RemoveDoes(s: State, i: nat)
    requires Inv(s)
    ensures TakenOut(s, Remove(s, i), i)
  {
    hide InvHolds, InvActive, InvStarted, InvSlots, InvTold, InvFailing, InvLog, InvLife, NoStrand, Without;
    if Is(s, i, Waiting) {
      OneLess(s.waiting, i);
    }
  }

  lemma OneLess(q: seq<nat>, i: nat)
    requires i in q && forall j, k :: 0 <= j < k < |q| ==> q[j] < q[k]
    ensures |Without(q, i)| + 1 == |q| && forall k :: k in Without(q, i) <==> k in q && k != i
  {
    var k, rest := IndexOf(q, i), Without(q, i);
    assert rest == q[..k] + q[k + 1..] && q[k] == i;
    forall j | j in q && j != i
      ensures j in rest
    {
      var a :| 0 <= a < |q| && q[a] == j;
      assert rest[if a < k then a else a - 1] == j;
    }
  }

  // ----- a stop, in the call's own terms ------------------------------------------------------------------

  /** A stop is on record for the item, and nothing else is touched. */
  ghost predicate Stopped(s: State, t: State, i: nat)
  {
    && |t.items| == |s.items| && i < |s.items| && (forall k :: 0 <= k < |s.items| && k != i ==> t.items[k] == s.items[k])
    && t.items[i] == s.items[i].(stopAsked := true) && t == s.(items := t.items)
  }

  /** A stop asked while the run has not come back: from then on the item is stopping. */
  lemma AskedIsStopping(s: State, i: nat, t: nat)
    requires Is(s, i, Running)
    ensures Stopped(s, AskStop(s, i), i)
    ensures InHand(s, i, t) ==> Stopping(AskStop(s, i), i, t)
  {}

  /** `cancel` in a run of the pool: the item ends CANCELLED, unless its simulation succeeds all the same or something raises. */
  lemma CancelEndsCancelled(states: seq<State>, actions: seq<Action>, workers: int, j: nat, k: nat, i: nat, t: nat)
    requires IsRun(states, actions, workers) && j < k < |states| && actions[j] == DoCancel(i)
    requires Is(states[j], i, Running) && InHand(states[j], i, t)
    requires forall m :: j < m < k ==> Unfinished(states[m], actions[m], t)
    ensures i < |states[k].items| && (states[k].items[i].state.Final() ==> states[k].items[i].state == Cancelled)
  {
    AskedIsStopping(states[j], i, t);
    StopEndsCancelled(states, actions, workers, j + 1, k, i, t);
  }

  /** So it is with a close, for whatever runs. */
  lemma CloseEndsCancelled(states: seq<State>, actions: seq<Action>, workers: int, j: nat, k: nat, i: nat, t: nat)
    requires IsRun(states, actions, workers) && j < k < |states| && actions[j] == DoClose
    requires Is(states[j], i, Running) && InHand(states[j], i, t)
    requires forall m :: j < m < k ==> Unfinished(states[m], actions[m], t)
    ensures i < |states[k].items| && (states[k].items[i].state.Final() ==> states[k].items[i].state == Cancelled)
  {
    ReachableInv(states, actions, workers, j);
    CloseDoes(states[j]);
    StopEndsCancelled(states, actions, workers, j + 1, k, i, t);
  }

  // ----- what a run comes to --------------------------------------------------------------------------------

  /** What an item ends as, from what its run reported, what was read back, and whether a stop was asked by then. */
  function Outcome(early: bool, asked: bool, report: Report, readBack: Option<bool>): ItemState
  {
    if early then (if readBack.Some? then Cancelled else Failed)
    else if report.Raised? || readBack.None? then Failed
    else if report.success && !report.cancelled then (if readBack.value then Finished else Failed)
    else if report.cancelled || asked then Cancelled
    else Failed
  }

  lemma RunEndsAs(s: State, t: nat, report: Report, readBack: Option<bool>)
    requires Inv(s) && Enabled(s, DoJudge(t, report))
    ensures var i := s.threads[t].stage.item;
      var ended := Record(Judge(s, t, report), t, readBack);
      && ended.items[i].state == Outcome(s.threads[t].stage.early, s.items[i].stopAsked, report, readBack)
      && ended.threads[t].stage == Over(i) && s.items[i].test.model !in ended.active
  {}

  /** What is recorded of a run that is over, in the words of its report and of what was read back. */
  ghost predicate Recorded(s: State, t: State, thread: nat, readBack: Option<bool>)
  {
    && thread < |s.threads| == |t.threads| && s.threads[thread].stage.Judged?
    && var i, report := s.threads[thread].stage.item, s.threads[thread].stage.report;
    && i < |s.items| == |t.items| && t.items[i].state.Ended()
    && (t.items[i].state == Finished <==> report.Report? && report.success && !report.cancelled && readBack == Some(true))
    && (t.items[i].state == Cancelled <==> report.Report? && report.cancelled && readBack.Some?)
    && t.threads[thread].stage == Over(i) && s.items[i].test.model !in t.active
    && forall k :: 0 <= k < |s.items| && k != i ==> t.items[k] == s.items[k]
  }

  lemma RecordDoes(s: State, t: nat, readBack: Option<bool>)
    requires Enabled(s, DoRecord(t, readBack))
    ensures Recorded(s, Record(s, t, readBack), t, readBack)
  {}

  /** The first that waits is running in the thread's hand, under its slot; or the thread is to leave, and leaves the queue alone. */
  ghost predicate HandedOut(s: State, t: State, thread: nat, item: Option<nat>)
  {
    && thread < |s.threads| == |t.threads| && |t.items| == |s.items|
    && (item.None? <==> s.closing || s.stopped.Some? || |s.slots| > s.target)
    && (item.None? ==> t.threads[thread].stage == Leaving(None) && t.items == s.items && t.waiting == s.waiting)
    && (item.None? && !s.closing && s.stopped.None? ==> t.slots.Keys == s.slots.Keys - {s.threads[thread].slot})
    && (item.Some? ==>
          && s.waiting != [] && item.value == s.waiting[0] < |s.items| && t.waiting == s.waiting[1..] && t.slots == s.slots
          && t.items[item.value].state == Running && t.items[item.value].worker == Some(s.threads[thread].slot)
          && t.threads[thread].stage == Taken(item.value))
  }

  lemma TakeDoes(s: State, t: nat)
    requires Enabled(s, DoTake(t))
    ensures HandedOut(s, Take(s, t), t, if s.closing || s.stopped.Some? || |s.slots| > s.target then None else Some(s.waiting[0]))
  {}

  /** A stop asked once the run has come back changes nothing: a run that failed stays FAILED, whatever was answered. */
  lemma LateStopChangesNothing(s: State, i: nat, t: nat, readBack: Option<bool>)
    requires Inv(s) && Is(s, i, Running) && t < |s.threads| && s.threads[t].stage.Judged? && s.threads[t].stage.item == i
    ensures Enabled(AskStop(s, i), DoRecord(t, readBack))
    ensures Record(AskStop(s, i), t, readBack).items[i].state == Record(s, t, readBack).items[i].state
  {}

  /** A start reads the files at the pool's latest state: none that any item there is carries is later. */
  lemma StartReadsTheLatest(s: State, t: nat, failure: Option<string>)
    requires Inv(s) && Enabled(s, DoRunnerMade(t, failure))
    ensures var stage := Do(s, DoRunnerMade(t, failure)).threads[t].stage;
      && (stage.Leaving? <==> failure.Some? || s.closing)
      && (stage.Leaving? ==> stage.because == failure)
      && (!stage.Leaving? ==> stage.Starting? && forall i :: 0 <= i < |s.items| ==> AtLeast(stage.read, s.items[i].library))
  {}

  /** A thread is gone, and says why if it left for good; where it stopped the pool, all that waited fails with the reasons. */
  ghost predicate Left(s: State, t: State, thread: nat)
  {
    && thread < |s.threads| == |t.threads| && s.threads[thread].stage.Leaving? && |t.items| == |s.items|
    && var because := s.threads[thread].stage.because;
    && t.failures == (if because.Some? then s.failures[s.threads[thread].slot := because.value] else s.failures)
    && t.slots.Keys == s.slots.Keys - (if Registered(s, thread) then {s.threads[thread].slot} else {})
    && (if t.slots == map[] && because.Some? && !s.closing then
          && t.stopped == Some(t.failures) && t.threads[thread].stage == Failing(s.waiting) && t.waiting == []
          && forall i :: 0 <= i < |s.items| ==> t.items[i].state == if s.items[i].state == Waiting then Failed else s.items[i].state
        else t.stopped == s.stopped && t.threads[thread].stage == Gone && t.items == s.items && t.waiting == s.waiting)
  }

  lemma SlotLeftDoes(s: State, t: nat)
    requires Inv(s) && Enabled(s, DoSlotLeft(t))
    ensures Left(s, SlotLeft(s, t), t)
  {
    hide Dropped, InvHolds, InvActive, InvSlots, InvStarted, InvTold, InvFailing, InvLog, InvLife, NoStrand;
    var because := s.threads[t].stage.because;
    var out := Departed(s, t, if because.Some? then s.failures[s.threads[t].slot := because.value] else s.failures);
    assert out.slots == if Registered(s, t) then s.slots - {s.threads[t].slot} else s.slots;
    if out.slots == map[] && because.Some? && !s.closing {
      assert SlotLeft(s, t) == Stop(out, t);
    } else {
      assert SlotLeft(s, t) == out;
    }
  }

  /** After its run a thread looks for the next item, unless its runner was given up; a start that failed says why. */
  lemma NextAfterARun(s: State, a: Action)
    requires Enabled(s, a) && (a.DoFireEnd? || a.DoStartDone?)
    ensures var why := if a.DoFireEnd? then a.retired else a.failure;
      var s' := Do(s, a);
      && s'.threads[a.thread].stage == (if why.Some? then Leaving(why) else Looking)
      && (a.DoStartDone? ==> s'.failures.Keys == s.failures.Keys - (if why.Some? then {} else {s.threads[a.thread].slot}))
  {}
}
