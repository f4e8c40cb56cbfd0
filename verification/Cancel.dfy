/**
 * A cancel and the run it was meant for.
 *
 * One slot's runner and its worker, the pool thread that runs items on them one
 * after the other, and any number of threads that ask for a stop.  A step is one
 * stretch under the runner's lock (the worker's own lock is only taken inside
 * one, or alone).  A test's key comes back with every rerun; an item - the token
 * of one run - never does.
 */
module Cancel {
  import opened Common

  datatype Level = Soft | Hard

  /** The worker's half: the test armed, the stop asked of it, and the event that wakes its watchdog. */
  datatype WorkerState = WorkerState(running: Option<string>, asked: Option<Level>, wake: bool)

  const UNARMED := WorkerState(None, None, false)

  function Arm(w: WorkerState, key: string): WorkerState
  {
    if w.running != Some(key) then WorkerState(Some(key), None, true) else w
  }

  function Request(w: WorkerState, key: string, hard: bool): (WorkerState, bool)
  {
    if w.running != Some(key) || !w.wake then (w, false)
    else (w.(asked := if w.asked == Some(Hard) || hard then Some(Hard) else Some(Soft)), true)
  }

  /** The runner's half: the test it is on, whose run that is, whether a stop was asked. */
  datatype RunnerState = RunnerState(key: Option<string>, token: Option<nat>, cancelAsked: bool)

  /** Where the pool thread is with the run of `token`. */
  datatype Phase =
    | Idle
    | Announced(key: string, token: nat)    // `expect` returned
    | Entered(key: string, token: nat)      // inside `run`, the worker armed, brought back, ...
    | Watched(key: string, token: nat)      // the watchdog is up: a stop is acted on
    | Ending(key: string, token: nat)       // disarmed; `run` has not cleared its key yet

  datatype Asker = Asking(token: nat, asked: bool) | Answered(token: nat, answer: bool)

  /** A call of `_stop_test`: on behalf of `wanted`, while the run of `running` was on. */
  datatype StopCall = StopCall(wanted: nat, running: Option<nat>)

  datatype State = State(
    worker: WorkerState,
    runner: RunnerState,
    phase: Phase,
    closing: bool,
    stopKey: Option<string>,      // what `stop` was handed when the pool closed
    used: set<nat>,               // the tokens announced so far
    delivered: set<nat>,          // the runs a stop was delivered to
    askers: seq<Asker>,
    stops: seq<StopCall>,
    early: set<nat>)              // the runs that ended before they began, stopped

  function Init(): State
  {
    State(UNARMED, RunnerState(None, None, false), Idle, false, None, {}, {}, [], [], {})
  }

  function Current(s: State): Option<nat>
  {
    if s.phase.Idle? then None else Some(s.phase.token)
  }

  // ----- the pool thread ------------------------------------------------------------

  function Expect(s: State, key: string, token: nat): State
  {
    s.(runner := RunnerState(Some(key), Some(token), false),
       worker := Arm(s.worker, key),
       phase := Announced(key, token),
       used := s.used + {token})
  }

  function Enter(s: State): State
    requires s.phase.Announced?
  {
    var key := s.phase.key;
    s.(runner := if s.runner.key != Some(key) then RunnerState(Some(key), None, false) else s.runner,
       worker := Arm(s.worker, key),
       phase := Entered(key, s.phase.token))
  }

  /** The watchdog goes up, or finds that a stop came first: then nothing is run. */
  function Watch(s: State): State
    requires s.phase.Entered?
  {
    var key, token := s.phase.key, s.phase.token;
    var armed := Arm(s.worker, key);
    if armed.asked.Some? then s.(worker := UNARMED, phase := Ending(key, token), early := s.early + {token})
    else s.(worker := armed, phase := Watched(key, token))
  }

  /** The worker's restart was given up for the cancel: the slot takes a new, unarmed one. */
  function Replace(s: State): State
    requires s.phase.Entered?
  {
    s.(worker := UNARMED, phase := Ending(s.phase.key, s.phase.token))
  }

  function Disarm(s: State): State
    requires s.phase.Watched? || s.phase.Entered?
  {
    s.(worker := UNARMED, phase := Ending(s.phase.key, s.phase.token))
  }

  function Leave(s: State): State
    requires s.phase.Ending?
  {
    s.(runner := s.runner.(key := None, token := None), phase := Idle)
  }

  // ----- the others -------------------------------------------------------------------

  function Ask(s: State, token: nat): State
  {
    s.(askers := s.askers + [Asking(token, false)])
  }

  /** One look of `cancel`, under the lock: not this run, delivered, or asked again later. */
  function Poll(s: State, c: nat): State
    requires c < |s.askers| && s.askers[c].Asking?
  {
    var token := s.askers[c].token;
    if s.runner.token != Some(token) || s.runner.key.None? then
      s.(askers := s.askers[c := Answered(token, s.askers[c].asked)])
    else
      var (worker, done) := Request(s.worker, s.runner.key.value, false);
      s.(runner := s.runner.(cancelAsked := true),
         worker := worker,
         stops := s.stops + [StopCall(token, Current(s))],
         delivered := if done then s.delivered + {token} else s.delivered,
         askers := s.askers[c := if done then Answered(token, true) else Asking(token, true)])
  }

  /** The time a cancel may take is over. */
  function GiveUp(s: State, c: nat): State
    requires c < |s.askers| && s.askers[c].Asking?
  {
    s.(askers := s.askers[c := Answered(s.askers[c].token, true)])
  }

  /** The pool closes: it reads, under its lock, the key of the item in the slot's hand, if it has one. */
  function Close(s: State, key: Option<string>): State
  {
    if s.closing then s else s.(closing := true, stopKey := key)
  }

  /** And then, later, stops that key, by the kill. */
  function StopKey(s: State): State
    requires s.closing && s.stopKey.Some?
  {
    var (worker, done) := Request(s.worker, s.stopKey.value, true);
    s.(worker := worker,
       delivered := if done && !s.phase.Idle? then s.delivered + {s.phase.token} else s.delivered)
  }

  datatype Action =
    | DoExpect(key: string, token: nat) | DoEnter | DoWatch | DoReplace | DoDisarm | DoLeave
    | DoAsk(token: nat) | DoPoll(asker: nat) | DoGiveUp(asker: nat) | DoClose(inHand: Option<string>) | DoStopKey

  /**
   * An item starts once, so its token is new; a closed pool announces no run
   * (the item's stop flag is read under the lock that would announce it).
   */
  predicate Enabled(s: State, a: Action)
  {
    match a
    case DoExpect(_, token) => s.phase.Idle? && token !in s.used && !s.closing
    case DoEnter => s.phase.Announced?
    case DoWatch => s.phase.Entered?
    case DoReplace => s.phase.Entered?
    case DoDisarm => s.phase.Watched? || s.phase.Entered?
    case DoLeave => s.phase.Ending?
    case DoAsk(_) => true
    case DoPoll(c) => c < |s.askers| && s.askers[c].Asking?
    case DoGiveUp(c) => c < |s.askers| && s.askers[c].Asking?
    case DoClose(key) => !s.phase.Idle? ==> key == Some(s.phase.key)
    case DoStopKey => s.closing && s.stopKey.Some?
  }

  function Do(s: State, a: Action): State
    requires Enabled(s, a)
  {
    match a
    case DoExpect(key, token) => Expect(s, key, token)
    case DoEnter => Enter(s)
    case DoWatch => Watch(s)
    case DoReplace => Replace(s)
    case DoDisarm => Disarm(s)
    case DoLeave => Leave(s)
    case DoAsk(token) => Ask(s, token)
    case DoPoll(c) => Poll(s, c)
    case DoGiveUp(c) => GiveUp(s, c)
    case DoClose(key) => Close(s, key)
    case DoStopKey => StopKey(s)
  }

  // ----- what every reachable state satisfies ---------------------------------------------

  /** The run of the current token is on: announced, and the worker armed for it. */
  predicate InProgress(s: State) { s.phase.Announced? || s.phase.Entered? || s.phase.Watched? }

  ghost predicate Inv(s: State)
  {
    && (s.phase.Idle? ==> s.runner.key.None? && s.runner.token.None?)
    && (!s.phase.Idle? ==> s.runner.key == Some(s.phase.key) && s.runner.token == Some(s.phase.token) && s.phase.token in s.used)
    && (InProgress(s) ==> s.worker.running == Some(s.phase.key) && s.worker.wake)
    && (!InProgress(s) ==> s.worker == UNARMED)
    // a stop is on the worker's record exactly when one was delivered to the run it is on
    && (InProgress(s) ==> (s.worker.asked.Some? <==> s.phase.token in s.delivered))
    && s.delivered <= s.used && s.early <= s.delivered
    && (s.closing && !s.phase.Idle? ==> s.stopKey == Some(s.phase.key))
    // `_stop_test` was called for a run only while that run was on
    && (forall k :: 0 <= k < |s.stops| ==> s.stops[k].running == Some(s.stops[k].wanted))
    && (forall c :: 0 <= c < |s.askers| && s.askers[c].Asking? && s.askers[c].asked ==> s.askers[c].token in s.used)
  }

  lemma InitKeeps()
    ensures Inv(Init())
  {}

  lemma StepKeeps(s: State, a: Action)
    requires Inv(s) && Enabled(s, a)
    ensures Inv(Do(s, a))
  {}

  ghost predicate IsRun(states: seq<State>, actions: seq<Action>)
  {
    && |states| == |actions| + 1 && states[0] == Init()
    && forall k :: 0 <= k < |actions| ==> Enabled(states[k], actions[k]) && states[k + 1] == Do(states[k], actions[k])
  }

  lemma {:induction false} ReachableInv(states: seq<State>, actions: seq<Action>, k: nat)
    requires IsRun(states, actions) && k < |states|
    ensures Inv(states[k])
  {
    if k == 0 {
      InitKeeps();
    } else {
      ReachableInv(states, actions, k - 1);
      StepKeeps(states[k - 1], actions[k - 1]);
    }
  }

  /** In every interleaving, a stop is only ever asked of the run it was meant for. */
  lemma StopsOnlyItsOwnRun(states: seq<State>, actions: seq<Action>, k: nat)
    requires IsRun(states, actions) && k < |actions| && actions[k].DoPoll?
    requires states[k + 1].stops != states[k].stops
    ensures var wanted := states[k].askers[actions[k].asker].token;
      Current(states[k]) == Some(wanted) && states[k + 1].stops == states[k].stops + [StopCall(wanted, Some(wanted))]
  {
    ReachableInv(states, actions, k);
  }

  /** A run that was just announced begins with no stop of an earlier one, even of the same test. */
  lemma FreshRunHasNoStop(states: seq<State>, actions: seq<Action>, k: nat)
    requires IsRun(states, actions) && k < |actions| && actions[k].DoExpect?
    ensures states[k + 1].worker == WorkerState(Some(actions[k].key), None, true)
    ensures !states[k + 1].runner.cancelAsked && actions[k].token !in states[k + 1].delivered
  {
    ReachableInv(states, actions, k);
    ReachableInv(states, actions, k + 1);
  }

  /**
   * A look at a published run delivers the stop, or finds that the run is over:
   * disarmed already, or no longer this runner's.
   */
  lemma PollDeliversOrRunIsOver(s: State, c: nat)
    requires Inv(s) && Enabled(s, DoPoll(c)) && s.askers[c].token in s.used
    ensures var token := s.askers[c].token; var s' := Poll(s, c);
      && (Current(s) == Some(token) && InProgress(s) ==>
            token in s'.delivered && s'.worker.asked.Some? && s'.askers[c] == Answered(token, true))
      && (Current(s) == Some(token) && !InProgress(s) ==> s.phase.Ending? && s'.askers[c] == Asking(token, true))
      && (Current(s) != Some(token) ==> s'.askers[c] == Answered(token, s.askers[c].asked) && s'.worker == s.worker)
  {}

  /** A token is announced once: a run that is over stays over. */
  lemma {:induction false} RunIsOverForGood(states: seq<State>, actions: seq<Action>, token: nat, j: nat, k: nat)
    requires IsRun(states, actions) && j <= k < |states|
    requires token in states[j].used && Current(states[j]) != Some(token)
    ensures token in states[k].used && Current(states[k]) != Some(token)
    decreases k
  {
    if j < k {
      RunIsOverForGood(states, actions, token, j, k - 1);
    }
  }

  /** A delivered stop is on record until the watchdog looks: the run is then not started. */
  lemma DeliveredBeforeTheWatch(s: State)
    requires Inv(s) && Enabled(s, DoWatch)
    ensures s.phase.token in s.delivered <==> Watch(s).phase.Ending? && s.phase.token in Watch(s).early
    ensures s.phase.token !in s.delivered <==> Watch(s).phase.Watched?
  {}

  /** Closing stops the item it read the key of, or none: no later run of the same test. */
  lemma StopReachesOnlyTheItemInHand(states: seq<State>, actions: seq<Action>, j: nat, k: nat, token: nat)
    requires IsRun(states, actions) && j < k < |actions|
    requires actions[j].DoClose? && !states[j].closing && actions[k].DoStopKey?
    requires token in states[k + 1].delivered && token !in states[k].delivered
    ensures Current(states[j]) == Some(token)
  {
    ReachableInv(states, actions, k);
    ClosedAnnouncesNothing(states, actions, j + 1, k);
  }

  lemma {:induction false} ClosedAnnouncesNothing(states: seq<State>, actions: seq<Action>, j: nat, k: nat)
    requires IsRun(states, actions) && j <= k < |states| && states[j].closing
    ensures states[k].closing && (Current(states[k]).None? || Current(states[k]) == Current(states[j]))
    decreases k
  {
    if j < k {
      ClosedAnnouncesNothing(states, actions, j, k - 1);
    }
  }

  // ----- what a stop is -----------------------------------------------------------------------

  /** A request is taken exactly by a worker armed for that test; it is then on record, and hard once one was hard. */
  lemma RequestIsTaken(w: WorkerState, key: string, hard: bool)
    ensures var (w', done) := Request(w, key, hard);
      && (done <==> w.running == Some(key) && w.wake)
      && w'.running == w.running && w'.wake == w.wake
      && (!done ==> w'.asked == w.asked)
      && (done ==> w'.asked.Some? && (w'.asked.value.Hard? <==> hard || w.asked == Some(Hard)))
  {}

  /** The worker is to be killed for the run it is on: what was asked of it is not the soft stop. */
  predicate Killing(s: State) { InProgress(s) && s.worker.asked == Some(Hard) }

  /** One step on: a soft stop is what a `cancel` asks, a hard one what a close does, and a hard one stays. */
  lemma StepLevels(s: State, a: Action)
    requires Inv(s) && Enabled(s, a) && InProgress(s) && InProgress(Do(s, a)) && Current(Do(s, a)) == Current(s)
    ensures Killing(s) ==> Killing(Do(s, a))
    ensures !Killing(s) && Killing(Do(s, a)) ==> a.DoStopKey?
    ensures s.worker.asked.None? && Do(s, a).worker.asked == Some(Soft) ==> a.DoPoll? && s.askers[a.asker].token == s.phase.token
    ensures s.worker.asked.Some? ==> Do(s, a).worker.asked.Some?
  {}

  /** The stop of a closing pool is delivered to the run that is on, as a kill. */
  lemma ClosingKillsTheRunInHand(states: seq<State>, actions: seq<Action>, k: nat)
    requires IsRun(states, actions) && k < |actions| && actions[k].DoStopKey? && InProgress(states[k])
    ensures states[k].phase.token in states[k + 1].delivered && Killing(states[k + 1]) && Current(states[k + 1]) == Current(states[k])
  {
    ReachableInv(states, actions, k);
  }

  /** The run has had its stop, and while it goes on it is to be killed. */
  predicate Doomed(s: State, token: nat)
  {
    token in s.used && (Current(s) == Some(token) ==> token in s.delivered && (InProgress(s) ==> s.worker.asked == Some(Hard)))
  }

  lemma StepDoomed(s: State, a: Action, token: nat)
    requires Inv(s) && Enabled(s, a) && Doomed(s, token)
    ensures Doomed(Do(s, a), token)
  {}

  /** A kill once asked lasts as long as its run does: no later stop softens it, and it is no other run's. */
  lemma {:induction false} KillingLasts(states: seq<State>, actions: seq<Action>, j: nat, k: nat)
    requires IsRun(states, actions) && j <= k < |states| && Killing(states[j])
    ensures Doomed(states[k], states[j].phase.token)
    ensures Current(states[k]) == Current(states[j]) && InProgress(states[k]) ==> Killing(states[k])
    decreases k
  {
    hide Inv, Do, Enabled;
    if j < k {
      KillingLasts(states, actions, j, k - 1);
      ReachableInv(states, actions, k - 1);
      StepDoomed(states[k - 1], actions[k - 1], states[j].phase.token);
    } else {
      ReachableInv(states, actions, j);
      KillingIsDoomed(states[j]);
    }
  }

  lemma KillingIsDoomed(s: State)
    requires Inv(s) && Killing(s)
    ensures Doomed(s, s.phase.token)
  {}

  // ----- the two objects ------------------------------------------------------------------

  class Worker {
    var running: Option<string>
    var asked: Option<Level>
    var wake: bool

    function Abs(): WorkerState
      reads this
    {
      WorkerState(running, asked, wake)
    }

    constructor ()
      ensures Abs() == UNARMED
    {
      running, asked, wake := None, None, false;
    }

    method ArmFor(key: string)
      modifies this
      ensures Abs() == Arm(old(Abs()), key)
    {
      if running != Some(key) {
        running, asked, wake := Some(key), None, true;
      }
    }

    method DisarmIt()
      modifies this
      ensures Abs() == UNARMED
    {
      running, asked, wake := None, None, false;
    }

    method RequestCancel(key: string, hard: bool) returns (done: bool)
      modifies this
      ensures (Abs(), done) == Request(old(Abs()), key, hard)
    {
      if running != Some(key) || !wake {
        return false;
      }
      if asked != Some(Hard) {
        asked := if hard then Some(Hard) else Some(Soft);
      }
      return true;
    }
  }

  class ItemRunner {
    var key: Option<string>
    var token: Option<nat>
    var cancelAsked: bool
    const worker: Worker

    function Abs(): RunnerState
      reads this
    {
      RunnerState(key, token, cancelAsked)
    }

    constructor (worker: Worker)
      ensures this.worker == worker && Abs() == RunnerState(None, None, false)
    {
      this.worker := worker;
      key, token, cancelAsked := None, None, false;
    }

    method Announce(testKey: string, run: nat)
      modifies this, worker
      ensures Abs() == RunnerState(Some(testKey), Some(run), false) && worker.Abs() == Arm(old(worker.Abs()), testKey)
    {
      key, token, cancelAsked := Some(testKey), Some(run), false;
      worker.ArmFor(testKey);
    }

    /** `run`'s first lines: a run nobody announced has no token. */
    method EnterRun(testKey: string)
      modifies this, worker
      ensures Abs() == if old(key) != Some(testKey) then RunnerState(Some(testKey), None, false) else old(Abs())
      ensures worker.Abs() == Arm(old(worker.Abs()), testKey)
    {
      if key != Some(testKey) {
        key, token, cancelAsked := Some(testKey), None, false;
      }
      worker.ArmFor(testKey);
    }

    method LeaveRun()
      modifies this
      ensures Abs() == old(Abs()).(key := None, token := None)
    {
      key, token := None, None;
    }

    /** One look of `cancel`: whose turn it is, and whether the stop was delivered. */
    method PollOnce(run: nat) returns (mine: bool, done: bool)
      modifies this, worker
      ensures mine == (old(token) == Some(run) && old(key).Some?)
      ensures !mine ==> !done && Abs() == old(Abs()) && worker.Abs() == old(worker.Abs())
      ensures mine ==> Abs() == old(Abs()).(cancelAsked := true) && (worker.Abs(), done) == Request(old(worker.Abs()), old(key).value, false)
    {
      if token != Some(run) || key.None? {
        return false, false;
      }
      cancelAsked := true;
      done := worker.RequestCancel(key.value, false);
      return true, done;
    }
  }
}
