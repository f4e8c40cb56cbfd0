/**
 * One worker of the pool over its whole life: brought up, restarted within its
 * budget, made to read the library again, given up.
 *
 * The processes, the time limits and the other threads are choices (`*`, `:|`, and
 * how the watchdog's wait ends, `WayOut`).
 * The source files change whenever they like (`TimePasses`); `content` is what
 * the live tool has read of them.  Two things are kept through every run: every
 * file was read under a stamp that the state in `library` - or the simulated
 * item's, or a later one - has of it, and the restarts charged to the worker are
 * within its budget and never for a test that was slow.
 */
module Runner {
  import opened Common
  import opened Library

  // ----- the restart account ----------------------------------------------------------------

  /** What happened to the worker: `Restart` is one call of `_restart`, its retry included. */
  datatype Note =
    | Restart(charged: bool, tries: nat, up: bool)
    | Ended(killed: bool, clean: bool)
    | NewWorker

  /** The restarts charged since the last clean success of this worker. */
  function Charges(log: seq<Note>): nat
  {
    if log == [] then 0
    else
      var earlier := Charges(log[..|log| - 1]);
      match log[|log| - 1]
      case Restart(charged, _, _) => if charged then earlier + 1 else earlier
      case Ended(_, clean) => if clean then 0 else earlier
      case NewWorker => 0
  }

  /** Whether the last test that ended was ended by killing the worker. */
  predicate LastWasKilled(log: seq<Note>)
  {
    log != [] &&
    match log[|log| - 1]
    case Ended(killed, _) => killed
    case _ => LastWasKilled(log[..|log| - 1])
  }

  predicate IsUp(log: seq<Note>)
  {
    log != [] && log[|log| - 1].Restart? && log[|log| - 1].up
  }

  /** A restart is tried at most twice and is charged exactly when the last test was not killed. */
  predicate Fair(log: seq<Note>)
  {
    log == [] ||
    var earlier, last := log[..|log| - 1], log[|log| - 1];
    && Fair(earlier)
    && (last.Restart? ==> 1 <= last.tries <= 2 && (last.charged <==> !LastWasKilled(earlier)))
    && (IsUp(earlier) ==> last.Ended?)
  }

  /** Any number of tests in a row that were killed for their time costs the worker nothing. */
  lemma {:induction false} KilledTestsChargeNothing(log: seq<Note>, k: nat)
    requires Fair(log) && k <= |log| && LastWasKilled(log[..k])
    requires forall i :: k <= i < |log| && log[i].Ended? ==> log[i].killed
    ensures Charges(log) <= Charges(log[..k]) && LastWasKilled(log)
  {
    if k == |log| {
      assert log[..k] == log;
    } else {
      var earlier := log[..|log| - 1];
      assert earlier[..k] == log[..k];
      KilledTestsChargeNothing(earlier, k);
      assert log[|log| - 1].Ended? ==> log[|log| - 1].killed;
    }
  }

  /** One note more changes the account by at most one, and only a charged restart raises it. */
  lemma NoteMoves(log: seq<Note>, n: Note)
    ensures Charges(log + [n]) ==
            match n {
              case Restart(charged, _, _) => Charges(log) + (if charged then 1 else 0)
              case Ended(_, clean) => if clean then 0 else Charges(log)
              case NewWorker => 0
            }
    ensures LastWasKilled(log + [n]) == if n.Ended? then n.killed else LastWasKilled(log)
    ensures Fair(log + [n]) <==>
            && Fair(log)
            && (n.Restart? ==> 1 <= n.tries <= 2 && (n.charged <==> !LastWasKilled(log)))
            && (IsUp(log) ==> n.Ended?)
  {
    assert (log + [n])[..|log + [n]| - 1] == log;
  }

  // ----- the worker --------------------------------------------------------------------------

  class Worker {
    const reloadsInPlace: bool
    var alive: bool
    var startAbandoned: bool
    var restarts: nat
    var cancelAsked: bool
    ghost var content: Stamps
    ghost var tried: nat           // how often it was started

    constructor (inPlace: bool)
      ensures reloadsInPlace == inPlace
      ensures !alive && !startAbandoned && restarts == 0 && !cancelAsked && tried == 0
    {
      reloadsInPlace := inPlace;
      alive, startAbandoned, restarts, cancelAsked := false, false, 0, false;
      content, tried := map[], 0;
    }

    /** The tool may have died since anybody looked; a dead one stays dead. */
    method IsAlive() returns (up: bool)
      modifies this`alive
      ensures up == alive && (alive ==> old(alive))
    {
      var died: bool := *;
      if died {
        alive := false;
      }
      up := alive;
    }

    method Close()
      modifies this`alive
      ensures !alive
    {
      alive := false;
    }

    /** From another thread, while the worker is armed. */
    method CancelMayArrive()
      modifies this`cancelAsked
      ensures old(cancelAsked) ==> cancelAsked
    {
      var asked: bool := *;
      cancelAsked := cancelAsked || asked;
    }
  }

  datatype TestEnd = Raised | TestEnd(success: bool, timedOut: bool, killed: bool, cancelled: bool)

  /** How the watchdog's wait ends; `rescued`: a good result of this run is on disk all the same. */
  datatype WayOut =
    | Answered(success: bool)      // the test's thread is done
    | StoppedMeanwhile             // a stop was asked, and the thread is not done in time
    | ToolGone(rescued: bool)      // the tool's process is gone
    | OutOfTime(rescued: bool)
    | RaisedIn(rescued: bool)      // the test's thread raised
    | WatchRaised

  /** Whether the watchdog closes the worker on this way out. */
  predicate Closes(way: WayOut)
  {
    way.StoppedMeanwhile? || way.ToolGone? || way.OutOfTime? || way.RaisedIn?
  }

  /** The way out there was: nothing succeeds that did not run, nothing is stopped that nobody stopped. */
  function Open(way: WayOut, ran: bool, asked: bool): WayOut
  {
    if (Succeeds(way) && !ran) || (way.StoppedMeanwhile? && !asked) then Answered(false) else way
  }

  predicate Succeeds(way: WayOut)
  {
    match way
    case Answered(success) => success
    case ToolGone(rescued) => rescued
    case OutOfTime(rescued) => rescued
    case RaisedIn(rescued) => rescued
    case _ => false
  }

  /** What is reported of it: a stop asked explains whatever failed, but not what the tool or the clock did. */
  function EndOf(way: WayOut, asked: bool, alive: bool): (end: TestEnd)
    ensures end.TestEnd? ==> end.success == Succeeds(way)
    ensures end.TestEnd? && end.killed ==> (end.cancelled && (way.Answered? ==> !alive)) || way.OutOfTime?
    ensures end.TestEnd? && end.timedOut <==> way == OutOfTime(false)
    ensures end.TestEnd? && end.cancelled <==>
            way.StoppedMeanwhile? || (asked && (way == Answered(false) || way == RaisedIn(false)))
  {
    match way
    case Answered(success) => if asked && !success then TestEnd(false, false, !alive, true) else TestEnd(success, false, false, false)
    case StoppedMeanwhile => TestEnd(false, false, true, true)
    case ToolGone(rescued) => TestEnd(rescued, false, false, false)
    case OutOfTime(rescued) => TestEnd(rescued, !rescued, true, false)
    case RaisedIn(rescued) => if !rescued && asked then TestEnd(false, false, true, true) else TestEnd(rescued, false, false, false)
    case WatchRaised => Raised
  }

  datatype RunEnd = Dead | CancelledInRestart | Tested(end: TestEnd)

  /** What a reload under the watchdog was asked to do. */
  datatype Before = Before(target: LibraryState, changes: Option<Changes>)

  /** One simulation: the state its item names, and what the tool had read. */
  datatype Simulation = Simulation(item: Option<LibraryState>, content: Stamps)

  class WorkerRunner {
    var worker: Worker
    const inPlace: bool
    const maxRestarts: nat
    var library: Option<LibraryState>
    var prevKilled: bool
    var retired: bool

    /** The source files at each moment so far, and the moment of each sweep by serial. */
    ghost var disk: seq<Stamps>
    ghost var sweeps: seq<nat>
    ghost var log: seq<Note>
    ghost var simulated: seq<Simulation>

    ghost predicate World()
      reads this
    {
      |disk| > 0 && Swept(disk, sweeps)
    }

    ghost predicate Known(state: LibraryState)
      reads this
      requires World()
    {
      state.serial < |sweeps| && state.stamps == disk[sweeps[state.serial]]
    }

    /** What the tool holds of every file was read under the stamp the state has of it. */
    ghost predicate HeldFor(held: Stamps, state: LibraryState)
      reads this
      requires World()
    {
      Known(state) && Holds(disk, sweeps, held, state.serial)
    }

    /** What `library` says of the live tool is true. */
    ghost predicate Honest()
      reads this, worker
      requires World()
    {
      library.Some? ==> Known(library.value) && (worker.alive ==> HeldFor(worker.content, library.value))
    }

    ghost predicate Served(s: Simulation)
      reads this
      requires World()
    {
      s.item.Some? ==> Known(s.item.value) && Serves(disk, sweeps, s.content, s.item.value.serial)
    }

    ghost predicate AllServed()
      reads this
      requires World()
    {
      forall i :: 0 <= i < |simulated| ==> Served(simulated[i])
    }

    ghost predicate Sound()
      reads this, worker
    {
      && World() && Honest() && AllServed()
      && worker.reloadsInPlace == inPlace
    }

    /** The account of the worker agrees with what happened to it. */
    ghost predicate Accounted()
      reads this, worker
    {
      && worker.restarts == Charges(log) <= maxRestarts
      && Fair(log)
      && prevKilled == LastWasKilled(log)
    }

    /** Between two tests of a runner that was not given up. */
    ghost predicate Valid()
      reads this, worker
    {
      && Sound() && Accounted()
      && !IsUp(log)
      && (!retired ==> !worker.startAbandoned)
    }

    constructor (inPlace: bool, maxRestarts: nat, ghost now: Stamps)
      ensures Valid() && !retired && library.None? && fresh(worker) && !worker.alive
      ensures this.inPlace == inPlace && this.maxRestarts == maxRestarts
    {
      worker := new Worker(inPlace);
      this.inPlace, this.maxRestarts := inPlace, maxRestarts;
      library, prevKilled, retired := None, false, false;
      disk, sweeps, log, simulated := [now], [0], [], [];
    }

    /** Anybody writes the source files, and the Session sweeps them. */
    ghost method TimePasses()
      requires Sound()
      modifies this`disk, this`sweeps
      ensures Sound() && old(disk) <= disk && old(sweeps) <= sweeps
      ensures forall s: LibraryState :: old(Known(s)) ==> Known(s) && sweeps[s.serial] == old(sweeps[s.serial])
      ensures forall s: LibraryState, c: Stamps :: old(HeldFor(c, s)) ==> HeldFor(c, s)
    {
      ghost var d :| disk <= d;
      assert sweeps <= sweeps && Swept(d, sweeps);
      ghost var w: seq<nat> :| sweeps <= w && Swept(d, w);
      KnowledgeLasts(d, w);
      disk, sweeps := d, w;
    }

    /** A click sweeps the files: the state it gets is the one before, or one with the next serial. */
    ghost method Click(last: Option<LibraryState>) returns (now: LibraryState)
      requires Sound()
      requires if last.None? then |sweeps| == 1 else Known(last.value) && last.value.serial == |sweeps| - 1
      modifies this`sweeps
      ensures Sound() && old(sweeps) <= sweeps && |sweeps| <= |old(sweeps)| + 1
      ensures Known(now) && now.serial == |sweeps| - 1 && now.stamps == disk[|disk| - 1]
      ensures last.Some? ==> (now == last.value <==> last.value.stamps == disk[|disk| - 1]) && (now == last.value ==> sweeps == old(sweeps))
    {
      now := Following(last, disk[|disk| - 1]);
      if now.serial == |sweeps| {
        KnowledgeLasts(disk, sweeps + [|disk| - 1]);
        sweeps := sweeps + [|disk| - 1];
      }
    }

    /** What was known of a state, and what was held or simulated for it, still is when time has passed. */
    lemma KnowledgeLasts(d: seq<Stamps>, w: seq<nat>)
      requires World() && disk <= d && sweeps <= w && Swept(d, w)
      ensures forall s: LibraryState :: Known(s) ==> s.serial < |w| && w[s.serial] == sweeps[s.serial] < |d| && s.stamps == d[w[s.serial]]
      ensures forall s: LibraryState, c: Stamps :: HeldFor(c, s) ==> s.serial < |w| && Holds(d, w, c, s.serial)
      ensures forall s: LibraryState, c: Stamps :: Known(s) && Serves(disk, sweeps, c, s.serial) ==> Serves(d, w, c, s.serial)
    {
      forall s: LibraryState, c: Stamps | Known(s)
        ensures Holds(disk, sweeps, c, s.serial) ==> Holds(d, w, c, s.serial)
        ensures Serves(disk, sweeps, c, s.serial) ==> Serves(d, w, c, s.serial)
      {
        HoldsLasts(disk, sweeps, d, w, c, s.serial);
      }
    }

    /**
     * `start_within`: the tool that comes up reads each file as it is at some
     * moment of its start.  One whose start never returned is never started again.
     */
    method StartWithin() returns (up: bool)
      requires Sound() && !worker.alive
      modifies this`disk, this`sweeps, worker
      ensures Sound() && unchanged(worker`restarts) && (old(worker.cancelAsked) ==> worker.cancelAsked)
      ensures up == worker.alive && (up ==> !old(worker.startAbandoned))
      ensures worker.startAbandoned ==> !up
      ensures old(worker.startAbandoned) ==> worker.startAbandoned && worker.cancelAsked == old(worker.cancelAsked)
      ensures TimePassed()
      ensures up ==> FreshSince(disk, worker.content, |old(disk)| - 1)
      ensures worker.tried == old(worker.tried) + (if old(worker.startAbandoned) then 0 else 1)
    {
      if worker.startAbandoned {
        return false;
      }
      worker.tried := worker.tried + 1;
      ghost var began := |disk| - 1;
      TimePasses();
      worker.CancelMayArrive();
      up := *;
      if up {
        MomentIsFresh(disk, |disk| - 1, began);
        ghost var read: Stamps :| FreshSince(disk, read, began);
        worker.content, worker.alive := read, true;
        if library.Some? {
          AfreshHolds(read, began, old(sweeps), library.value);
        }
      } else {
        worker.startAbandoned := *;
      }
    }

    twostate predicate TimePassed()
      reads this
    {
      old(disk) <= disk && old(sweeps) <= sweeps
    }

    /** A tool that has read nothing older than this moment is fresh for every state swept so far. */
    lemma AfreshHolds(held: Stamps, began: nat, sweepsThen: seq<nat>, state: LibraryState)
      requires World() && FreshSince(disk, held, began) && sweepsThen <= sweeps
      requires Known(state) && state.serial < |sweepsThen| && sweepsThen[state.serial] <= began
      ensures HeldFor(held, state)
    {
      FreshHolds(disk, sweeps, held, began, state.serial);
    }

    /** The first start: the state is read before the files are. */
    method FirstStart(poolLibrary: Option<LibraryState>) returns (up: bool)
      requires Valid() && !retired && !worker.alive
      requires poolLibrary.Some? ==> Known(poolLibrary.value)
      modifies this, worker
      ensures Sound() && Accounted() && log == old(log) && simulated == old(simulated)
      ensures up ==> Valid() && !retired && worker.alive && library == poolLibrary
      ensures worker == old(worker) && worker.tried == old(worker.tried) + 1
    {
      up := StartWithin();
      if up {
        if poolLibrary.Some? {
          AfreshHolds(worker.content, |old(disk)| - 1, old(sweeps), poolLibrary.value);
        }
        library := poolLibrary;
      }
    }

    /** One retry after a failed start; none once the start was given up, or nobody waits for the test. */
    method TryTwice() returns (up: bool, tries: nat)
      requires Sound() && !worker.alive && !worker.startAbandoned
      modifies this`disk, this`sweeps, worker
      ensures Sound() && unchanged(worker`restarts) && TimePassed()
      ensures up == worker.alive && (up ==> FreshSince(disk, worker.content, |old(disk)| - 1) && !worker.startAbandoned)
      ensures 1 <= tries <= 2 && (!up && tries == 1 ==> worker.startAbandoned || worker.cancelAsked)
      ensures worker.tried == old(worker.tried) + tries
      ensures old(worker.cancelAsked) ==> worker.cancelAsked
    {
      up, tries := false, 0;
      while tries < 2 && !up && !worker.startAbandoned && (tries == 0 || !worker.cancelAsked)
        invariant tries <= 2 && Sound() && unchanged(worker`restarts) && TimePassed()
        invariant old(worker.cancelAsked) ==> worker.cancelAsked
        invariant up == worker.alive && (up ==> FreshSince(disk, worker.content, |old(disk)| - 1) && !worker.startAbandoned)
        invariant tries == 0 ==> !up && !worker.startAbandoned
        invariant worker.tried == old(worker.tried) + tries
      {
        tries := tries + 1;
        up := StartWithin();
      }
    }

    /** Bring the worker back: one charge at most, whatever the number of tries. */
    method BringBack(counted: bool) returns (up: bool, ghost tries: nat)
      requires Sound() && Accounted() && !IsUp(log) && !worker.alive && counted == !prevKilled
      modifies this`disk, this`sweeps, this`log, worker
      ensures Sound() && Accounted() && TimePassed()
      ensures up == worker.alive == IsUp(log) && (up ==> FreshSince(disk, worker.content, |old(disk)| - 1) && !worker.startAbandoned)
      ensures old(worker.startAbandoned) ==> !up && worker.startAbandoned
      ensures log == if tries == 0 then old(log) else old(log) + [Restart(counted, tries, up)]
      ensures tries == 0 <==> old(worker.startAbandoned || (counted && worker.restarts >= maxRestarts))
      ensures tries <= 2 && (tries == 1 && !up ==> worker.startAbandoned || worker.cancelAsked)
      ensures worker.tried == old(worker.tried) + tries
      ensures old(worker.cancelAsked) ==> worker.cancelAsked
    {
      hide Charges, LastWasKilled, Fair;
      tries := 0;
      if worker.startAbandoned {
        return false, 0;
      }
      if counted && worker.restarts >= maxRestarts {
        return false, 0;
      }
      if counted {
        worker.restarts := worker.restarts + 1;
      }
      var attempts;
      up, attempts := TryTwice();
      tries := attempts;
      Enter(Restart(counted, tries, up));
    }

    /** One note more in the account: it changes nothing else. */
    ghost method Enter(n: Note)
      requires Sound()
      modifies this`log
      ensures Sound() && log == old(log) + [n]
      ensures n.Restart? ==> Charges(log) == Charges(old(log)) + (if n.charged then 1 else 0)
      ensures n.Ended? ==> Charges(log) == if n.clean then 0 else Charges(old(log))
      ensures n.NewWorker? ==> Charges(log) == 0
      ensures LastWasKilled(log) == if n.Ended? then n.killed else LastWasKilled(old(log))
      ensures IsUp(log) == (n.Restart? && n.up)
      ensures Fair(log) <==>
              && Fair(old(log))
              && (n.Restart? ==> 1 <= n.tries <= 2 && (n.charged <==> !LastWasKilled(old(log))))
              && (IsUp(old(log)) ==> n.Ended?)
    {
      hide Charges, LastWasKilled, Fair;
      NoteMoves(log, n);
      log := log + [n];
    }

    predicate Newer(state: Option<LibraryState>)
      reads this
    {
      state.Some? && (library.None? || state.value.serial > library.value.serial)
    }

    /** Make the live tool read the files again: in place, under the test's watchdog, or by a restart now. */
    method Reload(target: LibraryState) returns (before: Option<Before>)
      requires Sound() && Accounted() && worker.alive && Known(target) && Newer(Some(target))
      modifies this`disk, this`sweeps, worker
      ensures Sound() && unchanged(worker`restarts) && TimePassed()
      ensures old(worker.cancelAsked) ==> worker.cancelAsked
      ensures inPlace ==> before == Some(Before(target, if library.Some? then Some(ChangesSince(target, library.value)) else None))
                          && unchanged(worker)
      ensures !inPlace ==> before.None? && (worker.alive ==> FreshSince(disk, worker.content, |old(disk)| - 1) && !worker.startAbandoned)
      ensures !inPlace ==> worker.tried == old(worker.tried) + (if old(worker.startAbandoned) then 0 else 1)
    {
      var changes := if library.Some? then Some(ChangesSince(target, library.value)) else None;
      if inPlace {
        return Some(Before(target, changes));
      }
      worker.Close();
      var up := StartWithin();
      if !up {
        worker.Close();
      }
      before := None;
    }

    /**
     * The reload under the test's watchdog.  One that does not come back whole
     * leaves what the tool holds unknown, and `library` says so.
     */
    method ReloadInPlace(before: Before) returns (whole: bool)
      requires Sound() && Known(before.target) && Newer(Some(before.target))
      requires before.changes == if library.Some? then Some(ChangesSince(before.target, library.value)) else None
      modifies this`disk, this`sweeps, this`library, worker
      ensures Sound() && TimePassed()
      ensures unchanged(worker`restarts) && unchanged(worker`startAbandoned) && unchanged(worker`tried)
      ensures library == if whole then Some(before.target) else None
      ensures old(worker.cancelAsked) ==> worker.cancelAsked
    {
      ghost var held, heldContent, began := library, worker.content, |disk| - 1;
      library := None;
      TimePasses();
      worker.CancelMayArrive();
      var up := worker.IsAlive();
      whole := *;
      whole := whole && up;
      if whole {
        RereadExists(disk, heldContent, before.changes, began);
        ghost var read: Stamps :| Reread(disk, heldContent, read, before.changes, began);
        worker.content := read;
        WholeReloadHolds(held, heldContent, before, began, read);
        library := Some(before.target);
      } else {
        ghost var partly: Stamps := *;
        worker.content := partly;
      }
    }

    lemma WholeReloadHolds(held: Option<LibraryState>, heldContent: Stamps, before: Before, began: nat, read: Stamps)
      requires World() && Known(before.target) && sweeps[before.target.serial] <= began < |disk|
      requires before.changes == if held.Some? then Some(ChangesSince(before.target, held.value)) else None
      requires held.Some? ==> held.value.serial < before.target.serial && HeldFor(heldContent, held.value)
      requires Reread(disk, heldContent, read, before.changes, began)
      ensures HeldFor(read, before.target)
    {
      if held.Some? {
        RereadHolds(disk, sweeps, heldContent, read, held.value, held.value.serial, before.target, before.target.serial, began);
      } else {
        forall p
          ensures ReadSince(disk, Get(read, p), p, began)
        {
          assert RereadOne(disk, Get(heldContent, p), Get(read, p), before.changes, p, began);
        }
        FreshHolds(disk, sweeps, read, began, before.target.serial);
      }
    }

    ghost method Simulate(item: Option<LibraryState>)
      requires Sound() && Served(Simulation(item, worker.content))
      modifies this`simulated
      ensures Sound() && simulated == old(simulated) + [Simulation(item, worker.content)]
    {
      simulated := simulated + [Simulation(item, worker.content)];
    }

    /** The watchdog's wait is over, `way`: what it does to the worker, and what it reports.  Without a run there is nothing to succeed. */
    method Watched(ran: bool, way: WayOut) returns (end: TestEnd)
      requires Sound()
      modifies this`disk, this`sweeps, worker
      ensures Sound() && TimePassed() && Watches(ran, end) && (old(worker.cancelAsked) ==> worker.cancelAsked)
      ensures unchanged(worker`restarts) && unchanged(worker`startAbandoned) && unchanged(worker`content) && unchanged(worker`tried)
      ensures worker.alive ==> old(worker.alive)
      ensures end == EndOf(Open(way, ran, worker.cancelAsked), worker.cancelAsked, worker.alive)
      ensures Closes(Open(way, ran, worker.cancelAsked)) ==> !worker.alive
    {
      TimePasses();
      worker.CancelMayArrive();
      var out := Open(way, ran, worker.cancelAsked);
      if Closes(out) {
        worker.Close();
      }
      var up := worker.IsAlive();
      end := EndOf(out, worker.cancelAsked, up);
    }

    /** A report and the worker after it. */
    ghost predicate Watches(ran: bool, end: TestEnd)
      reads this, worker
    {
      end.TestEnd? ==>
        && (end.success ==> ran && !end.cancelled && !end.timedOut)
        && (end.cancelled ==> worker.cancelAsked && !end.timedOut)
        && (end.timedOut ==> end.killed)
        && (end.killed ==> !worker.alive && (end.success || end.timedOut || end.cancelled))
    }

    /**
     * The watchdog's run of one test: the reload it needs first, then the
     * simulation.  None is run only for a stop that was asked, a tool that is
     * dead, or a reload that did not come back whole.
     */
    method RunTest(item: Option<LibraryState>, before: Option<Before>, way: WayOut) returns (end: TestEnd)
      requires Sound() && (item.Some? ==> Known(item.value))
      requires before.None? ==> !Newer(item)
      requires before.Some? ==> item == Some(before.value.target) && Newer(item)
      requires before.Some? ==> before.value.changes == if library.Some? then Some(ChangesSince(item.value, library.value)) else None
      modifies this`disk, this`sweeps, this`library, this`simulated, worker
      ensures Sound() && TimePassed() && unchanged(worker`restarts) && unchanged(worker`startAbandoned) && unchanged(worker`tried)
      ensures old(simulated) <= simulated && |simulated| <= |old(simulated)| + 1
      ensures |simulated| > |old(simulated)| ==> simulated[|simulated| - 1].item == item
      ensures Watches(|simulated| > |old(simulated)|, end)
      ensures |simulated| > |old(simulated)| ==> end == EndOf(Open(way, true, worker.cancelAsked), worker.cancelAsked, worker.alive)
      ensures simulated == old(simulated) ==>
                (worker.cancelAsked && end == TestEnd(false, false, false, true)) || !worker.alive || (before.Some? && library.None?)
      ensures old(worker.cancelAsked) ==> simulated == old(simulated) && end == TestEnd(false, false, false, true)
    {
      worker.CancelMayArrive();
      if worker.cancelAsked {
        return TestEnd(false, false, false, true);
      }
      if before.Some? {
        var whole := ReloadInPlace(before.value);
        if !whole {
          end := Watched(false, way);
          return;
        }
        if worker.cancelAsked {
          return TestEnd(false, false, false, true);
        }
      }
      end := TestBody(item, way);
    }

    /** The test itself, on the tool as it is now: simulated unless the tool is dead. */
    method TestBody(item: Option<LibraryState>, way: WayOut) returns (end: TestEnd)
      requires Sound() && (item.Some? ==> Known(item.value)) && !Newer(item)
      modifies this`disk, this`sweeps, this`simulated, worker
      ensures Sound() && TimePassed() && unchanged(worker`restarts) && unchanged(worker`startAbandoned) && unchanged(worker`tried)
      ensures simulated == old(simulated) || (|simulated| == |old(simulated)| + 1 && old(simulated) <= simulated)
      ensures |simulated| > |old(simulated)| ==> simulated[|simulated| - 1].item == item
      ensures simulated == old(simulated) ==> !worker.alive
      ensures Watches(|simulated| > |old(simulated)|, end)
      ensures |simulated| > |old(simulated)| ==> end == EndOf(Open(way, true, worker.cancelAsked), worker.cancelAsked, worker.alive)
    {
      var up := worker.IsAlive();
      if up {
        if item.Some? {
          HoldsServes(disk, sweeps, worker.content, library.value.serial, item.value.serial);
        }
        Simulate(item);
      }
      end := Watched(up, way);
    }

    /** A live tool that read the files before the item's state was swept reads them again, now or under the watchdog. */
    method ReloadFirst(item: Option<LibraryState>) returns (before: Option<Before>)
      requires Valid() && (item.Some? ==> Known(item.value)) && !worker.startAbandoned
      modifies this`disk, this`sweeps, worker
      ensures Sound() && Accounted() && TimePassed() && (old(worker.cancelAsked) ==> worker.cancelAsked)
      ensures before.Some? ==>
                && inPlace && Newer(item)
                && before.value == Before(item.value, if library.Some? then Some(ChangesSince(item.value, library.value)) else None)
      ensures before.None? && Newer(item) && worker.alive ==> HeldFor(worker.content, item.value)
      ensures worker.alive ==> !worker.startAbandoned
      ensures (item.Some? ==> Known(item.value)) && worker.tried >= old(worker.tried) && (!old(worker.alive) ==> !worker.alive)
    {
      hide Charges, LastWasKilled, Fair;
      before := None;
      if Newer(item) {
        var live := worker.IsAlive();
        if live {
          before := Reload(item.value);
          if before.None? && worker.alive {
            AfreshHolds(worker.content, |old(disk)| - 1, old(sweeps), item.value);
          }
        }
      }
    }

    /** A dead worker is brought back; the tool that comes up has read the files since the item was queued. */
    method Revive(item: Option<LibraryState>) returns (up: bool, ghost tries: nat)
      requires Sound() && Accounted() && !IsUp(log) && (item.Some? ==> Known(item.value))
      requires worker.alive ==> !worker.startAbandoned
      modifies this`disk, this`sweeps, this`log, this`prevKilled, worker
      ensures Sound() && TimePassed() && (old(worker.cancelAsked) ==> worker.cancelAsked)
      ensures worker.restarts == Charges(log) <= maxRestarts && Fair(log)
      ensures up ==> worker.alive && !worker.startAbandoned && prevKilled == (LastWasKilled(log) && !IsUp(log))
      ensures up ==> if IsUp(log) then item.Some? ==> HeldFor(worker.content, item.value) else old(worker.alive) && log == old(log) && worker.content == old(worker.content) && disk == old(disk) && sweeps == old(sweeps)
      ensures !up ==> Accounted() && !IsUp(log) && !worker.alive && prevKilled == old(prevKilled)
      ensures !up ==> log == if tries == 0 then old(log) else old(log) + [Restart(!prevKilled, tries, false)]
      ensures !up && tries == 0 ==> worker.startAbandoned || (!prevKilled && worker.restarts >= maxRestarts)
      ensures tries <= 2 && (!up && tries == 1 ==> worker.startAbandoned || worker.cancelAsked)
      ensures (item.Some? ==> Known(item.value)) && worker.tried == old(worker.tried) + tries
      ensures up && IsUp(log) ==> tries > 0 && log == old(log) + [Restart(!old(prevKilled), tries, true)]
    {
      hide Charges, LastWasKilled, Fair;
      tries := 0;
      up := worker.IsAlive();
      if !up {
        worker.Close();
        up, tries := BringBack(!prevKilled);
        if up {
          prevKilled := false;
          if item.Some? {
            AfreshHolds(worker.content, |old(disk)| - 1, old(sweeps), item.value);
          }
        }
      }
    }

    /** The run is for a test that was cancelled while its worker was brought back: never the end of the runner. */
    method CancelledWhileRestarting()
      requires Sound() && Accounted() && !IsUp(log) && !worker.alive && !retired
      modifies this`worker, this`log
      ensures Valid() && !retired && !worker.startAbandoned && !worker.alive
      ensures if old(worker.startAbandoned) then fresh(worker) && log == old(log) + [NewWorker] else worker == old(worker) && log == old(log)
    {
      if worker.startAbandoned {
        worker := new Worker(inPlace);
        Enter(NewWorker);
      }
    }

    /** No tool for the test: the runner is given up, unless the test was cancelled meanwhile. */
    method WithoutATool() returns (r: RunEnd)
      requires Sound() && Accounted() && !IsUp(log) && !worker.alive && !retired
      modifies this`worker, this`log, this`retired
      ensures Valid() && (worker == old(worker) || fresh(worker)) && !worker.alive
      ensures r == if old(worker.cancelAsked) then CancelledInRestart else Dead
      ensures retired == r.Dead?
      ensures retired ==> worker == old(worker) && log == old(log)
      ensures !retired ==> !worker.startAbandoned
    {
      hide Charges, LastWasKilled, Fair;
      if worker.cancelAsked {
        CancelledWhileRestarting();
        return CancelledInRestart;
      }
      retired := true;
      r := Dead;
    }

    /** The account after a test: a clean success clears it. */
    method Account(end: TestEnd)
      requires Sound() && !retired && !worker.startAbandoned
      requires worker.restarts == Charges(log) <= maxRestarts && Fair(log)
      modifies this`prevKilled, this`log, worker`restarts
      ensures Valid() && !retired
      ensures var killed := end.TestEnd? && (end.timedOut || end.killed);
              var clean := end.TestEnd? && end.success && !end.killed;
              log == old(log) + [Ended(killed, clean)]
    {
      if end.Raised? {
        prevKilled := false;
        Enter(Ended(false, false));
        return;
      }
      if end.success && !end.killed {
        worker.restarts := 0;
      }
      prevKilled := end.timedOut || end.killed;
      Enter(Ended(prevKilled, end.success && !end.killed));
    }

    /** The test on a live tool; one that came up just now has read the files since the item was queued. */
    method RunOn(item: Option<LibraryState>, before: Option<Before>, way: WayOut) returns (end: TestEnd)
      requires Sound() && !retired && !worker.startAbandoned && (item.Some? ==> Known(item.value))
      requires worker.restarts == Charges(log) <= maxRestarts && Fair(log)
      requires before.None? && Newer(item) ==> HeldFor(worker.content, item.value)
      requires before.Some? ==>
                 && Newer(item)
                 && before.value == Before(item.value, if library.Some? then Some(ChangesSince(item.value, library.value)) else None)
      modifies this`disk, this`sweeps, this`library, this`simulated, this`prevKilled, this`log, worker
      ensures Valid() && TimePassed() && !retired && unchanged(worker`tried)
      ensures old(worker.cancelAsked) ==> simulated == old(simulated)
      ensures simulated == old(simulated) || (|simulated| == |old(simulated)| + 1 && old(simulated) <= simulated)
      ensures |simulated| > |old(simulated)| ==> simulated[|simulated| - 1].item == item
      ensures simulated == old(simulated) ==>
                (worker.cancelAsked && end == TestEnd(false, false, false, true)) || !worker.alive || (before.Some? && library.None?)
      ensures Watches(|simulated| > |old(simulated)|, end)
      ensures |simulated| > |old(simulated)| ==> end == EndOf(Open(way, true, worker.cancelAsked), worker.cancelAsked, worker.alive)
      ensures |log| == |old(log)| + 1 && old(log) <= log && log[|old(log)|].Ended?
    {
      hide Charges, LastWasKilled, Fair;
      if before.None? && Newer(item) {
        library := item;
      }
      end := RunTest(item, before, way);
      Account(end);
    }

    /**
     * One test, from a worker in any state to a worker in a known one.  The
     * simulation, if there was one, ran on what its item asks for or later; the
     * runner is given up only for a worker that is dead, whose test nobody cancelled.
     */
    method RunArmed(item: Option<LibraryState>, way: WayOut) returns (r: RunEnd)
      requires Valid() && !retired && (item.Some? ==> Known(item.value))
      modifies this, worker
      ensures Valid() && TimePassed() && (worker == old(worker) || fresh(worker))
      ensures retired == r.Dead?
      ensures r.Dead? ==> !worker.alive && !worker.cancelAsked
                          && (worker.startAbandoned || log == old(log) + [Restart(!prevKilled, 2, false)]
                              || (!prevKilled && worker.restarts >= maxRestarts))
      ensures r.CancelledInRestart? ==> simulated == old(simulated) && !worker.startAbandoned
      ensures old(worker.cancelAsked) ==> simulated == old(simulated) && !retired
      ensures old(simulated) <= simulated && |simulated| <= |old(simulated)| + 1
      ensures |simulated| > |old(simulated)| ==> r.Tested? && simulated[|simulated| - 1].item == item
      // no simulation only for a stop, a dead tool, or a reload that did not come back whole
      ensures r.Tested? && simulated == old(simulated) ==>
                (worker.cancelAsked && r.end == TestEnd(false, false, false, true)) || !worker.alive || (inPlace && library.None?)
      ensures r.Tested? ==> Watches(|simulated| > |old(simulated)|, r.end)
      ensures |simulated| > |old(simulated)| ==> r.end == EndOf(Open(way, true, worker.cancelAsked), worker.cancelAsked, worker.alive)
      ensures r.CancelledInRestart? ==> old(worker).cancelAsked && !worker.alive
      // a dead worker was started again before its test
      ensures r.Tested? ==>
                && old(log) < log && log[|log| - 1].Ended?
                && (!old(worker.alive) ==> |log| == |old(log)| + 2 && IsUp(log[..|log| - 1]) && worker.tried > old(worker.tried))
    {
      hide Charges, LastWasKilled, Fair, Swept, Holds, Serves, WorkerRunner.Watches, WorkerRunner.AllServed;
      var before := ReloadFirst(item);
      var up;
      ghost var tries;
      up, tries := Revive(item);
      if !up {
        r := WithoutATool();
        return;
      }
      ghost var brought := log;
      var end := RunOn(item, before, way);
      assert log[..|log| - 1] == brought;
      r := Tested(end);
    }

    /** Armed for one test, disarmed after it: the cancel is of that test alone. */
    method Run(item: Option<LibraryState>, way: WayOut) returns (r: RunEnd)
      requires Valid() && !retired && (item.Some? ==> Known(item.value))
      modifies this, worker
      ensures Valid() && TimePassed() && (worker == old(worker) || fresh(worker))
      ensures retired == r.Dead? && !worker.cancelAsked
      ensures old(simulated) <= simulated && |simulated| <= |old(simulated)| + 1
      ensures |simulated| > |old(simulated)| ==> simulated[|simulated| - 1].item == item
      ensures r.Tested? && r.end.TestEnd? && r.end.success ==> |simulated| > |old(simulated)|
      ensures |simulated| > |old(simulated)| ==> r.Tested? && (r.end.TestEnd? && r.end.success <==> Succeeds(way))
      ensures r.Tested? && simulated == old(simulated) ==>
                r.end == TestEnd(false, false, false, true) || !worker.alive || (inPlace && library.None?)
    {
      worker.CancelMayArrive();
      r := RunArmed(item, way);
      worker.cancelAsked := false;
    }

    /**
     * Every simulation ran on a tool that had read each file as it was at its
     * item's state or later, where no file was lost between two sweeps that saw
     * it alike.
     */
    lemma SimulatedFresh(k: nat)
      requires World() && AllServed() && k < |simulated| && simulated[k].item.Some?
      requires Known(simulated[k].item.value) && NothingHidden(disk, sweeps, simulated[k].item.value.serial)
      ensures FreshSince(disk, simulated[k].content, sweeps[simulated[k].item.value.serial])
    {
      assert Served(simulated[k]);
      ServesFresh(disk, sweeps, simulated[k].content, simulated[k].item.value.serial);
    }
  }
}
