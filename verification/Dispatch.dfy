/**
 * The fixed-list dispatch: one shared queue, a sentinel for each worker, threads
 * that may retire early, and a last one out that drains what is left.
 */
module Dispatch {
  import opened Common

  /** Looping: at the queue's `get`.  Exiting: out of the loop, not counted out yet. */
  datatype Stage = Looping | Holding(test: nat) | Exiting | Draining | Done {
    /** May come back to the queue for more. */
    predicate Active() { Looping? || Holding? }
    predicate Live() { Active() || Exiting? }
    function Weight(): nat
    {
      match this
      case Looping => 3
      case Holding(_) => 4
      case Exiting => 2
      case Draining => 1
      case Done => 0
    }
  }

  /** A test's result: of its run on a worker, or the failure of one nobody was left to run. */
  datatype Verdict = Ran(test: nat) | Drained(test: nat)

  /** The queue's items: a test, or None for a sentinel.  `givenUp` are the threads whose worker a run was the last of. */
  datatype State = State(queue: seq<Option<nat>>, threads: seq<Stage>, live: nat, recorded: seq<Verdict>, givenUp: set<nat>)

  function Named(recorded: seq<Verdict>): (r: seq<nat>)
    ensures |r| == |recorded| && forall k :: 0 <= k < |r| ==> r[k] == recorded[k].test
  {
    seq(|recorded|, k requires 0 <= k < |recorded| => recorded[k].test)
  }

  function Sentinels(n: nat): seq<Option<nat>>
  {
    seq(n, _ => None)
  }

  function Queued(tests: seq<nat>): seq<Option<nat>>
  {
    seq(|tests|, k requires 0 <= k < |tests| => Some(tests[k]))
  }

  function Init(tests: seq<nat>, workers: nat): State
  {
    State(Queued(tests) + Sentinels(workers), seq(workers, _ => Looping), workers, [], {})
  }

  // ----- the steps of one thread --------------------------------------------------

  predicate CanStep(s: State, t: nat)
  {
    t < |s.threads| && !s.threads[t].Done? && (s.threads[t].Looping? ==> s.queue != [])
  }

  /** `retired`: whether the run just recorded was the worker's last. */
  function Step(s: State, t: nat, retired: bool): State
    requires CanStep(s, t)
  {
    match s.threads[t]
    case Looping =>
      s.(queue := s.queue[1..],
         threads := s.threads[t := if s.queue[0].None? then Exiting else Holding(s.queue[0].value)])
    case Holding(test) =>
      s.(recorded := s.recorded + [Ran(test)],
         givenUp := if retired then s.givenUp + {t} else s.givenUp,
         threads := s.threads[t := if retired then Exiting else Looping])
    case Exiting =>
      var live := if s.live == 0 then 0 else s.live - 1;
      s.(live := live, threads := s.threads[t := if live == 0 then Draining else Done])
    case Draining =>
      if s.queue == [] then s.(threads := s.threads[t := Done])
      else s.(queue := s.queue[1..],
              recorded := if s.queue[0].Some? then s.recorded + [Drained(s.queue[0].value)] else s.recorded)
    case Done => s
  }

  // ----- what it conserves -----------------------------------------------------------

  /** How often test `x` is among the queued. */
  function Tests(queue: seq<Option<nat>>, x: nat): nat
  {
    if queue == [] then 0 else (if queue[0] == Some(x) then 1 else 0) + Tests(queue[1..], x)
  }

  function Own(stage: Stage, x: nat): nat
  {
    if stage == Holding(x) then 1 else 0
  }

  /** How many threads have it in hand. */
  function Held(threads: seq<Stage>, x: nat): nat
  {
    if threads == [] then 0 else Own(threads[0], x) + Held(threads[1..], x)
  }

  /** Queued, in a thread's hand, or recorded. */
  function All(s: State, x: nat): nat
  {
    Tests(s.queue, x) + Held(s.threads, x) + multiset(Named(s.recorded))[x]
  }

  function Active(threads: seq<Stage>): set<nat>
  {
    set t | 0 <= t < |threads| && threads[t].Active()
  }

  function Live(threads: seq<Stage>): set<nat>
  {
    set t | 0 <= t < |threads| && threads[t].Live()
  }

  function SentinelCount(queue: seq<Option<nat>>): nat
  {
    if queue == [] then 0 else (if queue[0].None? then 1 else 0) + SentinelCount(queue[1..])
  }

  predicate Ordered(queue: seq<Option<nat>>)
  {
    forall j, k :: 0 <= j < k < |queue| && queue[j].None? ==> queue[k].None?
  }

  ghost predicate Inv(s: State, tests: multiset<nat>)
  {
    && (forall x :: All(s, x) == tests[x])
    // no test stands behind a sentinel: one is taken only when no test is queued
    && Ordered(s.queue)
    && Counted(s)
    && NobodyLeavesEarly(s)
  }

  ghost predicate Counted(s: State)
  {
    // a sentinel for each thread that may come for one, until the last is out
    && SentinelCount(s.queue) >= |Active(s.threads)|
    && s.live == |Live(s.threads)|
    && (forall t :: 0 <= t < |s.threads| && s.threads[t].Draining? ==> s.live == 0)
    && (s.live == 0 ==> s.queue == [] || exists t :: 0 <= t < |s.threads| && s.threads[t].Draining?)
  }

  /** While a test is queued only the threads whose worker was given up are out of the loop; none is drained before all are. */
  ghost predicate NobodyLeavesEarly(s: State)
  {
    && ((exists k :: 0 <= k < |s.queue| && s.queue[k].Some?) ==>
          forall t :: 0 <= t < |s.threads| && !s.threads[t].Active() ==> t in s.givenUp)
    && ((exists k :: 0 <= k < |s.recorded| && s.recorded[k].Drained?) ==> forall t :: 0 <= t < |s.threads| ==> t in s.givenUp)
  }

  lemma {:induction false} HeldAfter(threads: seq<Stage>, t: nat, stage: Stage, x: nat)
    requires t < |threads|
    ensures Held(threads[t := stage], x) + Own(threads[t], x) == Held(threads, x) + Own(stage, x)
  {
    if t == 0 {
      assert threads[0 := stage][1..] == threads[1..];
    } else {
      HeldAfter(threads[1..], t - 1, stage, x);
      assert threads[t := stage][1..] == threads[1..][t - 1 := stage];
    }
  }

  lemma {:induction false} NoTestBehindASentinel(queue: seq<Option<nat>>, x: nat)
    requires forall k :: 0 <= k < |queue| ==> queue[k].None?
    ensures Tests(queue, x) == 0 && SentinelCount(queue) == |queue|
  {
    if queue != [] { NoTestBehindASentinel(queue[1..], x); }
  }

  lemma {:induction false} QueuedTests(tests: seq<nat>, workers: nat, x: nat)
    ensures Tests(Queued(tests) + Sentinels(workers), x) == multiset(tests)[x]
    ensures SentinelCount(Queued(tests) + Sentinels(workers)) == workers
  {
    var q := Queued(tests) + Sentinels(workers);
    if tests == [] {
      assert q == Sentinels(workers);
      NoTestBehindASentinel(q, x);
    } else {
      assert q[1..] == Queued(tests[1..]) + Sentinels(workers);
      assert tests == [tests[0]] + tests[1..];
      QueuedTests(tests[1..], workers, x);
    }
  }

  lemma {:induction false} NobodyHolds(threads: seq<Stage>, x: nat)
    requires forall t :: 0 <= t < |threads| ==> !threads[t].Holding?
    ensures Held(threads, x) == 0
  {
    if threads != [] { NobodyHolds(threads[1..], x); }
  }

  function Upto(n: nat): (s: set<nat>)
    ensures |s| == n && forall t :: t in s <==> 0 <= t < n
  {
    if n == 0 then {} else Upto(n - 1) + {n - 1}
  }

  lemma InitKeeps(tests: seq<nat>, workers: nat)
    requires workers > 0
    ensures Inv(Init(tests, workers), multiset(tests))
  {
    var s := Init(tests, workers);
    hide Tests, Held, SentinelCount;
    forall x
      ensures All(s, x) == multiset(tests)[x]
    {
      QueuedTests(tests, workers, x);
      NobodyHolds(s.threads, x);
    }
    QueuedTests(tests, workers, 0);
    AllLoop(workers);
    QueueOrder(tests, workers);
  }

  lemma AllLoop(workers: nat)
    ensures var threads := Init([], workers).threads; |Active(threads)| == |Live(threads)| == workers
  {
    var threads := Init([], workers).threads;
    assert Active(threads) == Live(threads) == Upto(workers);
  }

  lemma QueueOrder(tests: seq<nat>, workers: nat)
    ensures Ordered(Init(tests, workers).queue)
  {}

  lemma MovesSets(threads: seq<Stage>, t: nat, stage: Stage)
    requires t < |threads|
    ensures Active(threads[t := stage]) == if stage.Active() then Active(threads) + {t} else Active(threads) - {t}
    ensures Live(threads[t := stage]) == if stage.Live() then Live(threads) + {t} else Live(threads) - {t}
  {}

  lemma NamedOneMore(recorded: seq<Verdict>, v: Verdict)
    ensures multiset(Named(recorded + [v])) == multiset(Named(recorded)) + multiset{v.test}
  {
    assert Named(recorded + [v]) == Named(recorded) + [v.test];
  }

  /** What each step records, and whom it gives up. */
  lemma StepRecords(s: State, t: nat, retired: bool)
    requires CanStep(s, t)
    ensures var s' := Step(s, t, retired);
      && (s.threads[t].Holding? ==> s'.recorded == s.recorded + [Ran(s.threads[t].test)])
      && (s'.recorded != s.recorded && !s.threads[t].Holding? ==>
            s.threads[t].Draining? && s.queue != [] && s.queue[0].Some? && s'.recorded == s.recorded + [Drained(s.queue[0].value)])
      && forall u :: u in s'.givenUp <==> u in s.givenUp || (u == t && s.threads[t].Holding? && retired)
  {}

  lemma StepLeavesNobodyEarly(s: State, t: nat, retired: bool)
    requires CanStep(s, t) && NobodyLeavesEarly(s) && Ordered(s.queue)
    requires s.threads[t].Draining? ==> forall u :: 0 <= u < |s.threads| ==> !s.threads[u].Live()
    ensures NobodyLeavesEarly(Step(s, t, retired))
  {
    var s' := Step(s, t, retired);
    if k :| 0 <= k < |s'.queue| && s'.queue[k].Some? {
      assert s'.queue == s.queue || s'.queue[k] == s.queue[k + 1];
      if s'.queue != s.queue {
        assert s.queue[0].Some?;
      }
    }
    if k :| 0 <= k < |s'.recorded| && s'.recorded[k].Drained? {
      if k < |s.recorded| {
        assert s.recorded[k] == s'.recorded[k];
      } else {
        assert s.threads[t].Draining? && s.queue[0].Some?;
      }
    }
  }

  lemma NoneLive(s: State, t: nat)
    requires t < |s.threads| && s.live == |Live(s.threads)| && s.live == 0
    ensures !s.threads[t].Live()
  {
    assert t !in Live(s.threads);
  }

  lemma StepConserves(s: State, t: nat, retired: bool, x: nat)
    requires CanStep(s, t)
    ensures All(Step(s, t, retired), x) == All(s, x)
  {
    var s' := Step(s, t, retired);
    HeldAfter(s.threads, t, s'.threads[t], x);
    if s'.recorded != s.recorded {
      NamedOneMore(s.recorded, s'.recorded[|s.recorded|]);
    }
    assert s'.threads == s.threads[t := s'.threads[t]];
  }

  lemma StepKeeps(s: State, t: nat, retired: bool, tests: multiset<nat>)
    requires Inv(s, tests) && CanStep(s, t)
    ensures Inv(Step(s, t, retired), tests)
  {
    StepCounts(s, t, retired);
    if s.threads[t].Draining? {
      forall u | 0 <= u < |s.threads|
        ensures !s.threads[u].Live()
      {
        NoneLive(s, u);
      }
    }
    hide All, Counted, Ordered, NobodyLeavesEarly;
    forall x
      ensures All(Step(s, t, retired), x) == tests[x]
    {
      StepConserves(s, t, retired, x);
    }
    StepLeavesNobodyEarly(s, t, retired);
    StepOrdered(s, t, retired);
  }

  lemma StepCounts(s: State, t: nat, retired: bool)
    requires Counted(s) && CanStep(s, t)
    ensures Counted(Step(s, t, retired))
  {
    hide Active, Live, SentinelCount;
    var s' := Step(s, t, retired);
    StepSentinels(s, t, retired);
    assert s'.threads == s.threads[t := s'.threads[t]];
    MovesSets(s.threads, t, s'.threads[t]);
    IsAmong(s.threads, t);
    ActiveAreLive(s.threads);
    ActiveAreLive(s'.threads);
    SetSizes(Active(s.threads), t);
    SetSizes(Live(s.threads), t);
    assert s'.live == |Live(s'.threads)|;
    assert SentinelCount(s'.queue) >= |Active(s'.threads)|;
    if s'.live == 0 && s'.queue != [] {
      if s.live == 0 {
        var u :| 0 <= u < |s.threads| && s.threads[u].Draining?;
        assert s'.threads[u].Draining?;
      } else {
        assert s'.threads[t].Draining?;
      }
    }
  }

  lemma SetSizes(s: set<nat>, t: nat)
    ensures |s + {t}| == if t in s then |s| else |s| + 1
    ensures |s - {t}| == if t in s then |s| - 1 else |s|
  {
    if t in s {
      assert s + {t} == s;
    } else {
      assert s - {t} == s;
    }
  }

  lemma StepOrdered(s: State, t: nat, retired: bool)
    requires CanStep(s, t) && Ordered(s.queue)
    ensures Ordered(Step(s, t, retired).queue)
  {}

  /** A sentinel goes exactly when the thread that takes it leaves the loop, or when the rest is drained. */
  lemma StepSentinels(s: State, t: nat, retired: bool)
    requires CanStep(s, t)
    ensures var s' := Step(s, t, retired);
      SentinelCount(s'.queue) == SentinelCount(s.queue) - if s'.queue != s.queue && s.queue[0].None? then 1 else 0
  {}

  lemma IsAmong(threads: seq<Stage>, t: nat)
    requires t < |threads|
    ensures t in Active(threads) <==> threads[t].Active()
    ensures t in Live(threads) <==> threads[t].Live()
  {}

  lemma ActiveAreLive(threads: seq<Stage>)
    ensures |Live(threads)| == 0 ==> |Active(threads)| == 0
  {
    if Active(threads) != {} {
      var a :| a in Active(threads);
      assert a in Live(threads);
    }
  }

  /** Never a deadlock: while a thread is not done, one can take a step. */
  lemma SomeThreadMoves(s: State, tests: multiset<nat>, t: nat)
    requires Inv(s, tests) && t < |s.threads| && !s.threads[t].Done?
    ensures CanStep(s, t)
  {
    if s.threads[t].Looping? {
      assert t in Active(s.threads);
    }
  }

  /** Every test is recorded once when all threads are done; and was run, unless every worker was given up. */
  lemma AllDoneAllRecorded(s: State, tests: multiset<nat>)
    requires Inv(s, tests) && forall t :: 0 <= t < |s.threads| ==> s.threads[t].Done?
    ensures multiset(Named(s.recorded)) == tests
    ensures (exists t :: 0 <= t < |s.threads| && t !in s.givenUp) ==> forall k :: 0 <= k < |s.recorded| ==> s.recorded[k].Ran?
  {
    assert Live(s.threads) == {};
    forall x
      ensures multiset(Named(s.recorded))[x] == tests[x]
    {
      NobodyHolds(s.threads, x);
      assert All(s, x) == tests[x];
    }
  }

  /** A sentinel is taken only when no test is queued. */
  lemma SentinelMeansNoTest(s: State, tests: multiset<nat>, x: nat)
    requires Inv(s, tests) && s.queue != [] && s.queue[0].None?
    ensures Tests(s.queue, x) == 0
  {
    NoTestBehindASentinel(s.queue, x);
  }

  // ----- it comes to an end ------------------------------------------------------------

  function Weights(threads: seq<Stage>): nat
  {
    if threads == [] then 0 else threads[0].Weight() + Weights(threads[1..])
  }

  function Measure(s: State): nat
  {
    4 * |s.queue| + Weights(s.threads)
  }

  lemma {:induction false} WeightsAfter(threads: seq<Stage>, t: nat, stage: Stage)
    requires t < |threads|
    ensures Weights(threads[t := stage]) + threads[t].Weight() == Weights(threads) + stage.Weight()
  {
    if t == 0 {
      assert threads[0 := stage][1..] == threads[1..];
    } else {
      WeightsAfter(threads[1..], t - 1, stage);
      assert threads[t := stage][1..] == threads[1..][t - 1 := stage];
    }
  }

  lemma StepDescends(s: State, t: nat, retired: bool)
    requires CanStep(s, t)
    ensures Measure(Step(s, t, retired)) < Measure(s)
  {
    var s' := Step(s, t, retired);
    WeightsAfter(s.threads, t, s'.threads[t]);
    assert s'.threads == s.threads[t := s'.threads[t]];
  }

  /**
   * Whichever thread moves, and whichever worker is given up when, every
   * schedule comes to an end with every test recorded exactly once; and run,
   * while one worker is never given up.
   */
  method DispatchWithRestart(tests: seq<nat>, workers: nat) returns (results: seq<Verdict>, ghost givenUp: set<nat>)
    requires workers > 0
    ensures multiset(Named(results)) == multiset(tests)
    ensures (exists t :: 0 <= t < workers && t !in givenUp) ==> forall k :: 0 <= k < |results| ==> results[k].Ran?
  {
    var s := Init(tests, workers);
    InitKeeps(tests, workers);
    while exists t :: 0 <= t < |s.threads| && !s.threads[t].Done?
      invariant Inv(s, multiset(tests)) && |s.threads| == workers
      decreases Measure(s)
    {
      var t: nat :| t < |s.threads| && !s.threads[t].Done?;
      var retired: bool := *;
      SomeThreadMoves(s, multiset(tests), t);
      StepKeeps(s, t, retired, multiset(tests));
      StepDescends(s, t, retired);
      s := Step(s, t, retired);
    }
    AllDoneAllRecorded(s, multiset(tests));
    return s.recorded, s.givenUp;
  }
}
