/** What becomes of a pool when nobody asks it anything more: it comes to rest, and then everything is told. */
module PoolRest {
  import opened Common
  import opened PoolSpec
  import opened PoolInvariant
  import opened PoolTheorems

  // ----- how much there is left to do ----------------------------------------------------------------

  /** The steps a thread has before it is at `_take` again, or gone. */
  function StageWork(stage: Stage): nat
  {
    match stage
    case Making => 5
    case Starting(_) => 4
    case Looking => 3
    case Taken(_) => 8
    case Begun(_) => 7
    case InRun(_, _) => 6
    case Judged(_, _) => 5
    case Over(_) => 4
    case Leaving(_) => 2
    case Failing(items) => |items| + 1
    case Gone => 0
  }

  function ThreadsWork(threads: seq<Thread>): nat
  {
    if threads == [] then 0 else StageWork(threads[0].stage) + ThreadsWork(threads[1..])
  }

  /** A waiting item is a run to come. */
  function Work(s: State): nat
  {
    6 * |s.waiting| + ThreadsWork(s.threads)
  }

  lemma {:induction false} WorkAfter(threads: seq<Thread>, t: nat, thread: Thread)
    requires t < |threads|
    ensures ThreadsWork(threads[t := thread]) + StageWork(threads[t].stage) == ThreadsWork(threads) + StageWork(thread.stage)
  {
    if t > 0 {
      WorkAfter(threads[1..], t - 1, thread);
      assert threads[t := thread][1..] == threads[1..][t - 1 := thread];
    } else {
      assert threads[t := thread][1..] == threads[1..];
    }
  }

  /** A step of one thread: it goes from its stage to another, and may take from the queue. */
  ghost predicate Goes(s: State, s': State, t: nat)
  {
    && t < |s.threads| == |s'.threads|
    && s'.threads == s.threads[t := s'.threads[t]]
    && 6 * |s'.waiting| + StageWork(s'.threads[t].stage) < 6 * |s.waiting| + StageWork(s.threads[t].stage)
  }

  lemma GoesDown(s: State, s': State, t: nat)
    requires Goes(s, s', t)
    ensures Work(s') < Work(s)
  {
    WorkAfter(s.threads, t, s'.threads[t]);
  }

  lemma TakeGoes(s: State, t: nat)
    requires Enabled(s, DoTake(t))
    ensures Goes(s, Take(s, t), t)
  {}

  lemma SlotLeftGoes(s: State, t: nat)
    requires Enabled(s, DoSlotLeft(t))
    ensures Goes(s, SlotLeft(s, t), t)
  {
    hide Marked, Dropped;
  }

  lemma CallbackGoes(s: State, a: Action)
    requires Enabled(s, a) && (a.DoFireStart? || a.DoFireEnd? || a.DoFireFailed?)
    ensures Goes(s, Do(s, a), a.thread)
  {}

  lemma RunGoes(s: State, a: Action)
    requires Enabled(s, a) && (a.DoRunnerMade? || a.DoStartDone? || a.DoPublish? || a.DoJudge? || a.DoRecord?)
    ensures Goes(s, Do(s, a), a.thread)
  {
    hide Verdict;
  }

  /** Every step of a pool thread leaves less to do. */
  lemma ThreadStepDescends(s: State, a: Action)
    requires Enabled(s, a) && a.OfThread()
    ensures Work(Do(s, a)) < Work(s)
  {
    if a.DoTake? {
      TakeGoes(s, a.thread);
    } else if a.DoSlotLeft? {
      SlotLeftGoes(s, a.thread);
    } else if a.DoFireStart? || a.DoFireEnd? || a.DoFireFailed? {
      CallbackGoes(s, a);
    } else {
      RunGoes(s, a);
    }
    hide Goes, Work;
    GoesDown(s, Do(s, a), a.thread);
  }

  /** A stretch of a run in which only pool threads act. */
  ghost predicate ThreadsOnly(states: seq<State>, actions: seq<Action>)
  {
    && |states| == |actions| + 1
    && forall k :: 0 <= k < |actions| ==> actions[k].OfThread() && Enabled(states[k], actions[k]) && states[k + 1] == Do(states[k], actions[k])
  }

  /** Left alone, the pool's threads take no more steps than there is work. */
  lemma {:induction false} StretchIsShort(states: seq<State>, actions: seq<Action>)
    requires ThreadsOnly(states, actions)
    ensures |actions| + Work(states[|actions|]) <= Work(states[0])
  {
    if actions != [] {
      var n := |actions| - 1;
      assert ThreadsOnly(states[..n + 1], actions[..n]);
      StretchIsShort(states[..n + 1], actions[..n]);
      ThreadStepDescends(states[n], actions[n]);
    }
  }

  // ----- at rest ---------------------------------------------------------------------------------------------

  /** No thread has a step to take. */
  ghost predicate Resting(s: State)
  {
    forall a: Action :: a.OfThread() ==> !Enabled(s, a)
  }

  /** A thread that is neither gone nor waiting in `_take` has one. */
  lemma ThreadMoves(s: State, t: nat) returns (a: Action)
    requires Inv(s) && t < |s.threads| && !s.threads[t].stage.Gone? && !s.threads[t].stage.Looking?
    ensures a.OfThread() && a.thread == t && Enabled(s, a)
  {
    hide InvStarted, InvLog, InvLife, InvActive, InvQueue;
    a := match s.threads[t].stage
      case Making => DoRunnerMade(t, None)
      case Starting(_) => DoStartDone(t, None)
      case Taken(_) => DoFireStart(t)
      case Begun(_) => DoPublish(t, None)
      case InRun(_, _) => DoJudge(t, Raised)
      case Judged(_, _) => DoRecord(t, None)
      case Over(_) => DoFireEnd(t, None)
      case Leaving(_) => DoSlotLeft(t)
      case _ => DoFireFailed(t);
  }

  /** Exactly when nothing waits, and every thread is gone or waits for an item an open pool has not got. */
  lemma RestingIff(s: State)
    requires Inv(s)
    ensures Resting(s) <==>
            && s.waiting == []
            && forall t :: 0 <= t < |s.threads| ==> s.threads[t].stage.Gone? || (s.threads[t].stage.Looking? && !CanTake(s))
  {
    if Resting(s) {
      if s.waiting != [] {
        var t, a := WaitingQueueMoves(s);
      }
      forall t | 0 <= t < |s.threads|
        ensures s.threads[t].stage.Gone? || (s.threads[t].stage.Looking? && !CanTake(s))
      {
        if !s.threads[t].stage.Gone? {
          if s.threads[t].stage.Looking? {
            assert !Enabled(s, DoTake(t));
          } else {
            var a := ThreadMoves(s, t);
          }
        }
      }
    }
  }

  /** At rest each item that ended has had its `on_end`, and each that started its `on_start`. */
  lemma AtRestAllIsTold(s: State, i: nat)
    requires Inv(s) && i < |s.items| && Resting(s)
    ensures s.items[i].state.Final()
    ensures OnEnd(i) in s.log <==> s.items[i].state.Ended()
    ensures OnStart(i) in s.log <==> s.items[i].worker.Some?
  {
    RestingIff(s);
    hide Resting;
  }
}
