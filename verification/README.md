# dstf: the simulation pool, the criteria tree and the staged edits, verified

A Dafny model of the parts of dstf whose correctness rests on more than one
function: the queue that runs simulations on a pool of workers, the edits of a
criteria tree, and the list of staged edits of a spec. Where the program changes
objects in place the model has a class or a loop and its methods are proved
against functions over values; the properties are lemmas about those functions,
and about every run of the transition systems built from them.

| file | what it is about |
|---|---|
| `Common.dfy` | the option type |
| `PoolSpec.dfy`, `PoolInvariant.dfy`, `PoolTheorems.dfy`, `PoolStops.dfy`, `PoolRest.dfy`, `PoolEffects.dfy`, `Pool.dfy` | the pool: one action per critical section, what every step keeps, what that means for whole runs, for a stop and at rest, what each call does to the items and the slots, and the pool as an object with fields |
| `Cancel.dfy` | a stop and the run it was meant for, over every interleaving of the pool's thread, a close, and any number of threads asking |
| `Library.dfy`, `Runner.dfy` | the source files over time, what a live tool has read of them, and one worker's life: first start, restarts within a budget, reloads in place, retirement |
| `Dispatch.dfy` | the fixed-list dispatch with sentinels and early retirements |
| `Glob.dfy` | the needle's glob: greedy, leftmost, never backtracking |
| `Samples.dfy` | a live trace's bounded samples, and the decimation they are drawn with |
| `Sides.dfy` | the two-sided tolerance control |
| `Tree.dfy`, `Verdicts.dfy`, `TreeEdits.dfy`, `TreeMove.dfy`, `MoveTheorems.dfy`, `MoveWeights.dfy`, `PathMap.dfy` | a criteria tree as objects with identities, what can never fail, moving a subtree, and which path became which |
| `Json.dfy`, `FoldRows.dfy`, `Reindex.dfy`, `ReindexTheorems.dfy`, `PutBack.dfy` | equality of JSON values, the rows of an array's criteria folded, a fold made to hold other elements, and when that is undone |
| `Patch.dfy`, `SpecDocument.dfy` | JSON Patch on an entry (RFC 6902, sections 4.1 to 4.3), and the staged list: grouped, folded and pruned |

Verify with `dafny verify dfyconfig.toml`.

## How it is modelled

- **The pool.** A state holds the items, the queue, the index by model, the
  registered slots and every thread's place in its loop. An action is one
  `with self._cond` block, or one step outside it that others can see: a
  callback, a run that came back. What a start, a run or a read-back came to is a
  parameter of the action, so a run of the system is any interleaving with any
  outcomes. `Condition.wait` is a guard. `Pool.SimulationPool` holds the fields
  and its methods take exactly those actions.
- **Freshness.** `disk` is the sequence of what each sweep would find; nothing is
  asked of it. A reload that does not come back whole leaves what the tool holds
  unknown. What every run keeps is what stamps can promise: each file was read
  under the stamp some state, no earlier than the item's, has of it
  (`Library.Serves`). `Library.ServesFreshIff` says exactly when that makes the
  tool as fresh as the item's state. The pool's library state and an item's come
  in as parameters known to a sweep.
- **Trees.** A node carries the identity of its object, so that "the same node
  elsewhere" can be said. A path is its list of child indices; `NodeAt` is the
  reader every path property is stated with. `Tidy` is the repair of a whole tree
  in one recursive function; the program's loops up the source's ancestors are
  proved to arrive at it.
- **The staged list.** `ReplayEach`, one op after the other in staging order, is
  the meaning of a list. Grouping, folding and dropping are each related to it.

## What turned out not to hold as stated

Each has a concrete counterexample and the exact condition beside it.

- A batch of more samples than the bound is thinned once only, and can leave more
  than the bound held (`Samples.LargeBatchPassesTheBound`, `Samples.BoundKeptIff`).
- The tolerance control asks whether the held value changed with Python's `==`,
  for which `True` is `1`: a pair with a boolean in it can be lost instead of put
  back (`Sides.MixedPairIsLost`, `Sides.PutBackExactlyIff`).
- Two adds to one list are folded into one when the index is spelled with a sign,
  an underscore or a blank, which `isdigit` does not see and `int()` reads
  (`Patch.SignedFoldLosesOne`, `Patch.FoldedTwiceIsMarked`; `Patch.FoldIff` and
  `SpecDocument.SupersedeIff` say exactly when a fold is right).
- A whole tree removed is still mapped by `path_map`
  (`PathMap.RemovedTreeIsStillMapped`, `PathMap.MapOfNoTree`).
- A file that has one stamp at two sweeps and was something else in between may
  not be read again, be it put back or made and deleted
  (`Library.PutBackFileIsMissed`); a reload of the differences makes the tool
  fresh exactly when no file was lost so (`Library.RereadIsFreshIff`,
  `Library.SameStateSameFreshness`, `Library.ServesFreshIff`).
- An Indices text put back does not always put the tree back. For a fold whose
  members stand together in index order: its variables and their places come
  back exactly when the text named something and no leaf beside the fold has its
  metric on a name that only one of the two texts names (`PutBack.PutBackIff`,
  `PutBack.RivalSpoilsPutBack`); the tree comes back, to the last field, exactly
  when, besides, every leaf that went holds what the leaf its copy is made of holds
  (`PutBack.TreePutBackIff`, and with JSON's equality of fields
  `PutBack.NoEditIff`). Two leaves one of which names the primary baseline and
  the other none are one criterion, and do not (`PutBack.FieldsSpoilPutBack`). A
  fold scattered among others, `[a, x, b]`, comes back as `[a, b, x]`
  (`PutBack.ScatteredIsGathered`).
- A `cancel` that answers that it asked is said to end the item CANCELLED unless
  its simulation had finished. A run that has come back and failed, its verdict
  not recorded yet, still answers so, and the item ends FAILED: once the run is
  back, a stop changes nothing (`PoolEffects.LateStopChangesNothing`; before, what
  the item ends as is `PoolEffects.RunEndsAs`).
- A `weighted` sum is said to be able to fail always. One of criteria that each
  have a number cannot, exactly when all its weights are zero and zero is on the
  passing side of its threshold (`Verdicts.WeightedScoredIff`).

## Model

| member | source | states |
|---|---|---|
| PoolInvariant.StepKeeps | src/dstf/backends/pool.py:314-626 | every critical section and every step outside the lock keeps the whole invariant: the queue holds distinct waiting items in submission order, the index is exactly the waiting and running items, each running item is in the hand of one registered thread, callbacks match states, a queue that is not empty has a registered thread |
| PoolTheorems.ReachableInv | src/dstf/backends/pool.py:208-626 | the invariant holds in every state of every run, whatever the interleaving and the outcomes |
| PoolTheorems.RunEvolves | src/dstf/backends/pool.py:43-64 | between any two moments of a run: items and their models stay, a final state never changes, a library state never moves back, what was started and told stays started and told, and a stopped or closing pool stays so |
| PoolTheorems.RunningItemHasItsSlot | src/dstf/backends/pool.py:421-430 | a running item is in the hand of exactly one thread, the one registered under its worker id: `cancel`'s lookup of the slot cannot fail |
| PoolTheorems.OnlyTakeStarts | src/dstf/backends/pool.py:532-549 | an item starts by `_take` alone, and never while the pool is closing, stopped or has more slots than its target |
| PoolTheorems.StartsInOrderWithinTarget | src/dstf/backends/pool.py:532-549 | what starts is the earliest submitted of all items still waiting, later than every item that started before it, while the slots number at most the target |
| PoolTheorems.WaitingQueueMoves | src/dstf/backends/pool.py:476-549 | while anything waits there is a registered thread with a step it can take: no item is stranded behind a blocked pool |
| PoolTheorems.NothingStranded | src/dstf/backends/pool.py:476-571 | a queue that is not empty means a pool neither closing nor stopped, with a registered slot |
| PoolTheorems.LastToLeaveFailsTheQueue | src/dstf/backends/pool.py:551-571 | when the last slot leaves with a reason every waiting item is failed, nothing else changes state, and no slot is left |
| PoolTheorems.StoppedForGood | src/dstf/backends/pool.py:356-366 | from the moment the pool stopped, in every continuation, there is no slot, no waiting item and no further start |
| PoolTheorems.CallbacksOfAnItem | src/dstf/backends/pool.py:179-189 | `on_start` and `on_end` fire at most once each, the start first; an end only for an item that ended, never for a removed one, and never without the start when it ran |
| PoolRest.ThreadStepDescends | src/dstf/backends/pool.py:495-626 | every step of a pool thread, whatever its outcome, leaves less work: nothing is done for ever |
| PoolRest.StretchIsShort | src/dstf/backends/pool.py:495-626 | left alone, the threads of a pool take no more steps than there is work, in any order |
| PoolRest.RestingIff | src/dstf/backends/pool.py:532-549 | no thread has a step exactly when nothing waits and each thread is gone or waits in `_take` of an open pool |
| PoolRest.AtRestAllIsTold | src/dstf/backends/pool.py:551-638 | when no thread has a step left every item is final, and its end was told exactly when it finished, failed or was cancelled, its start exactly when it ran |
| PoolTheorems.StopAskedEndsCancelled | src/dstf/backends/pool.py:412-437 | the judging and recording of one run: with a stop asked before, what did not succeed is cancelled; finished only when the simulation had succeeded |
| PoolStops.StopEndsCancelled | src/dstf/backends/pool.py:412-420 | in any run: an item whose stop was asked while its run is on stays stopping until it is cancelled, whatever else happens, unless its simulation succeeds all the same or something raises for it |
| PoolEffects.AskedIsStopping | src/dstf/backends/pool.py:412-437 | a stop asked of a running item is on record for it and touches nothing else; while its run has not come back the item is then stopping |
| PoolEffects.CancelEndsCancelled | src/dstf/backends/pool.py:412-437 | from a `cancel` of a running item on, in any run: it can end only as cancelled, unless its simulation succeeds all the same or something raises for it |
| PoolEffects.CloseEndsCancelled | src/dstf/backends/pool.py:439-472 | the same from a close on, for whatever runs then |
| PoolEffects.LateStopChangesNothing | src/dstf/backends/pool.py:596-626 | a stop asked once the run has come back changes nothing of what the item ends as |
| PoolEffects.RunEndsAs | src/dstf/backends/pool.py:573-626 | what an item ends as, by whether it was stopped before its run, whether a stop was asked by the time the run came back, what the run reported and what was read back |
| PoolEffects.RecordDoes | src/dstf/backends/pool.py:602-626 | finished exactly for a success that was not cancelled and read back well, cancelled exactly for a cancelled report that was read back, else failed; out of the index, every other item as it was |
| PoolEffects.SubmitAllDoes | src/dstf/backends/pool.py:279-354 | each test is refused exactly when the pool is closed or stopped or its model is live or named before in the batch; the rest are new items in that order at the end of the queue, and as many slots are there as there is to run, up to the target |
| PoolEffects.SpawnFills | src/dstf/backends/pool.py:476-493 | spawning adds exactly the missing slots: what is waiting or in hand, up to the target, under the lowest free numbers, each with a thread of its own |
| PoolEffects.SetWorkersDoes | src/dstf/backends/pool.py:245-255 | a new target of at least one, and as many slots as there is to run under it |
| PoolEffects.UpdateDoes | src/dstf/backends/pool.py:368-392 | a waiting item of that model has the new test and the later of the two library states, and nothing else changes; else nothing does |
| PoolEffects.RemoveDoes | src/dstf/backends/pool.py:401-410 | a waiting item is removed, the others wait on, its model is free; of any other nothing changes |
| PoolEffects.CloseDoes | src/dstf/backends/pool.py:439-472 | nothing waits, what waited is removed, of everything that runs a stop is asked, what is final is untouched |
| PoolEffects.TakeDoes | src/dstf/backends/pool.py:532-549 | the first that waits is running in the thread's hand under its slot; a thread that is to leave touches no item, and frees its slot when there are too many |
| PoolEffects.StartReadsTheLatest | src/dstf/backends/pool.py:495-514 | a start reads at the pool's latest state, no earlier than that of any item there is; a runner that could not be made, or a closing pool, starts none |
| PoolEffects.SlotLeftDoes | src/dstf/backends/pool.py:551-571 | a thread that leaves for good says why; where it is the last, the pool stops with all the reasons and exactly what waited fails |
| PoolEffects.NextAfterARun | src/dstf/backends/pool.py:514-526 | after a run a thread looks for the next item, unless its runner was given up; a start that came up clears its slot's reason |
| PoolTheorems.OneLiveItemPerModel | src/dstf/backends/pool.py:228-229 | two items of one model are never both waiting or running |
| PoolTheorems.SpawnStaysWithinTarget | src/dstf/backends/pool.py:476-493 | no step leaves more slots than there were or than the target |
| Pool.EndedWaiting | src/dstf/backends/pool.py:452-455 | the loop over the queue marks exactly the waiting items and takes exactly them from the index |
| Pool.AskedToStop | src/dstf/backends/pool.py:458-460 | the loop over the slots asks a stop of exactly the items in hand |
| Pool.SimulationPool.constructor | src/dstf/backends/pool.py:208-239 | a new pool is the initial state, and keeps the invariant |
| Pool.SimulationPool.SubmitAll | src/dstf/backends/pool.py:314-354 | all tests are appended in order under one hold of the lock, each answered with its new item or, exactly when it must be, a refusal, and slots are spawned once, after the last |
| Pool.SimulationPool.SpawnSlots | src/dstf/backends/pool.py:476-493 | the loop gives each new thread the lowest free slot number until the wanted count is there |
| Pool.SimulationPool.SetWorkers | src/dstf/backends/pool.py:245-255 | a new target, never below one, and the slots it asks for |
| Pool.SimulationPool.Update | src/dstf/backends/pool.py:368-392 | a waiting item gets the test as it stands, its library state only a later one; a started one and another model's test change nothing, told apart in the answer |
| Pool.SimulationPool.Remove | src/dstf/backends/pool.py:401-410 | only a waiting item leaves the queue and the index, and it is then removed |
| Pool.SimulationPool.Cancel | src/dstf/backends/pool.py:412-437 | the answer says not running, cannot be stopped, or which thread holds the item and under which key; asked, the stop is on record for that item and nothing else is touched |
| Pool.SimulationPool.Close | src/dstf/backends/pool.py:439-472 | what waits is removed, of everything that runs a stop is asked, nothing more is taken |
| Pool.SimulationPool.Take | src/dstf/backends/pool.py:532-549 | the head of the queue for the slot, or none when it is to leave |
| Pool.SimulationPool.Publish | src/dstf/backends/pool.py:580-594 | the key is published and the run announced, unless a stop was asked before |
| Pool.SimulationPool.Record | src/dstf/backends/pool.py:602-626 | the verdict of the run and its read-back, and the item out of the index |
| Pool.SimulationPool.SlotLeft | src/dstf/backends/pool.py:551-571 | a thread leaves; the last one with a reason stops the pool, and exactly what was waiting is due its `on_end` |
| Cancel.StepKeeps | src/dstf/backends/base.py:479-538 | every step of the thread, of a close and of any asker keeps: the announced run is the one in hand, a delivered stop is set on the worker for that run, no stop call names another run than the one in progress |
| Cancel.ReachableInv | src/dstf/backends/base.py:479-538 | that holds in every state of every run |
| Cancel.StopsOnlyItsOwnRun | src/dstf/backends/base.py:516-538 | in any run, a poll calls the stop only while the run announced with that very token is in progress, even when the same test key runs again |
| Cancel.FreshRunHasNoStop | src/dstf/backends/persistent.py:554-565 | a run just announced starts armed, with no stop of an earlier run set |
| Cancel.PollDeliversOrRunIsOver | src/dstf/backends/base.py:516-538 | a poll delivers the stop, or finds the run past its watch, or finds it over and says so |
| Cancel.RunIsOverForGood | src/dstf/backends/base.py:516-538 | a run that was over is never again the current one: the answer of `cancel` stays true |
| Cancel.DeliveredBeforeTheWatch | src/dstf/backends/persistent.py:772-787 | a stop delivered before the watchdog is up ends the run without a simulation, and only such a stop does |
| Cancel.StopReachesOnlyTheItemInHand | src/dstf/backends/pool.py:456-469 | the stop of a closing pool can only reach the run that was in hand when it closed |
| Cancel.ClosedAnnouncesNothing | src/dstf/backends/pool.py:439-472 | once closing, no run but the one in hand is ever current |
| Cancel.Worker.ArmFor | src/dstf/backends/persistent.py:554-561 | arming for another test clears the stop, arming again for the same one keeps it |
| Cancel.Worker.DisarmIt | src/dstf/backends/persistent.py:563-565 | disarmed: no test, no stop, no event |
| Cancel.Worker.RequestCancel | src/dstf/backends/persistent.py:587-606 | a stop is taken only for the armed test; a hard one is never made soft |
| Cancel.RequestIsTaken | src/dstf/backends/persistent.py:587-606 | a stop is taken exactly by a worker armed for that test, and is then on record, hard once one was hard |
| Cancel.StepLevels | src/dstf/backends/persistent.py:587-606 | while one run is on: a soft stop comes only of a `cancel` for it, a hard one only of a close, and a hard one stays |
| Cancel.ClosingKillsTheRunInHand | src/dstf/backends/pool.py:456-469 | in any run: the stop of a closing pool is delivered to the run that is on, as a kill |
| Cancel.KillingLasts | src/dstf/backends/persistent.py:587-606 | in any run: a kill once asked stays asked until that run is over, and stays with that run |
| Cancel.ItemRunner.Announce | src/dstf/backends/base.py:479-488 | the key and the token are announced and the stop flag is clear |
| Cancel.ItemRunner.EnterRun | src/dstf/backends/base.py:507-509 | a run announced keeps its stop flag; one that was not is announced as its own |
| Cancel.ItemRunner.LeaveRun | src/dstf/backends/base.py:513-514 | after a run the runner is on none |
| Cancel.ItemRunner.PollOnce | src/dstf/backends/base.py:530-535 | one round of `cancel`: of its own run it asks the worker, of any other it touches nothing |
| Library.ChangesAreTheDifferences | src/dstf/discovery/library_state.py:221-229 | changed, added and removed are together exactly the files whose stamps differ; added those that were not there, removed those that are not |
| Library.FollowingIs | src/dstf/discovery/library_state.py:232-242 | a sweep that finds every file as the last one did is the last state; any other has the next serial |
| Library.RereadIsFresh | src/dstf/backends/persistent.py:1122-1166 | a tool fresh for the state it held, told of exactly the files that differ, has after a whole reload read every file as it was at the new state or later, when no file was put back between the two sweeps |
| Library.RereadIsFreshIff | src/dstf/backends/persistent.py:1122-1166 | over all readings and all whole reloads of the differences: the tool is fresh for the new state exactly when no file with one stamp at both sweeps was something in between that it is not at the later one or after it |
| Library.RereadHolds | src/dstf/backends/persistent.py:1122-1166 | with no assumption on the files: a whole reload of the differences leaves every file read under the stamp the new state has of it |
| Library.ServesFreshIff | src/dstf/backends/persistent.py:1116-1166 | what is read under the stamps of an item's state or a later one is fresh for that state exactly when no file was lost between two sweeps, on either side of it, that saw it alike |
| Library.RereadExists | src/dstf/backends/persistent.py:1122-1166 | a whole reload is always possible: the contract on it excludes no outcome |
| Library.PutBackFileIsMissed | src/dstf/discovery/library_state.py:221-229 | a file changed and put back to its old stamp between two sweeps is in no difference, and the tool keeps the reading between |
| Library.SameStateSameFreshness | src/dstf/discovery/library_state.py:232-242 | a sweep that found no difference is the last state itself, and all that is fresh for the one is fresh for the other exactly when no file was put back in between |
| Runner.KilledTestsChargeNothing | src/dstf/backends/persistent.py:1296-1310 | any number of tests in a row ended by a kill charges the worker nothing |
| Runner.WorkerRunner.Click | src/dstf/discovery/library_state.py:232-242 | a sweep gives the last state, or a new one whose serial is higher |
| Runner.WorkerRunner.StartWithin | src/dstf/backends/persistent.py:429-450 | a start that succeeded has read every file as it was when it began or later; one abandoned is never up again |
| Runner.WorkerRunner.FirstStart | src/dstf/backends/pool.py:495-514 | a worker started with the pool's state, read before the start, holds every file under that state's stamps |
| Runner.WorkerRunner.TryTwice | src/dstf/backends/persistent.py:1334-1391 | a failed start is tried once more, unless it was abandoned or a stop is asked |
| Runner.WorkerRunner.BringBack | src/dstf/backends/persistent.py:1293-1391 | a start with its retry is one charge or none, and none is tried when the budget is spent |
| Runner.WorkerRunner.Reload | src/dstf/backends/persistent.py:1122-1166 | a worker that cannot reload in place is closed and started afresh; else the reload is left to run under the watchdog with the exact differences |
| Runner.WorkerRunner.ReloadInPlace | src/dstf/backends/persistent.py:1150-1166 | the state is taken over only by a whole reload; any other leaves nothing known of what was read |
| Runner.WorkerRunner.WholeReloadHolds | src/dstf/backends/persistent.py:1150-1166 | a whole reload takes the tool to the item's state, from the differences or of everything when nothing was known |
| Runner.WorkerRunner.RunTest | src/dstf/backends/persistent.py:733-842 | the simulation runs only after its reload was whole, at most once; none runs only for a stop that was asked, which is then the answer, a dead tool, or a reload that did not come back whole; one that ran ends as the watchdog's wait did |
| Runner.WorkerRunner.TestBody | src/dstf/backends/persistent.py:789-1023 | on a tool that is up the test is simulated for its item, and ends as the watchdog's wait did |
| Runner.WorkerRunner.Watched | src/dstf/backends/persistent.py:858-1023 | what the end of the wait does to the worker and reports: closed after a kill, a timeout, a death or a raise; killed means dead, cancelled means a stop was asked, success means it ran |
| Runner.EndOf | src/dstf/backends/persistent.py:863-1023 | the report: a stop explains whatever failed in the test's own thread, not a death of the tool or a timeout; only a run out of time is timed out |
| Runner.WorkerRunner.ReloadFirst | src/dstf/backends/persistent.py:1172-1174 | after it the tool holds every file under the item's stamps, is dead, or has a reload to run first |
| Runner.WorkerRunner.Revive | src/dstf/backends/persistent.py:1175-1201 | brought back it holds every file under the item's stamps and its account is right; not brought back says why: abandoned, budget spent, or two failed tries |
| Runner.WorkerRunner.CancelledWhileRestarting | src/dstf/backends/persistent.py:1250-1283 | a stop during a restart never gives the runner up: an abandoned start is replaced by a worker of its own account |
| Runner.WorkerRunner.WithoutATool | src/dstf/backends/persistent.py:1190-1200 | with no tool the run is cancelled exactly when a stop was asked, and the runner is given up exactly otherwise |
| Runner.WorkerRunner.Account | src/dstf/backends/persistent.py:1239-1248 | only a clean success clears the charges |
| Runner.WorkerRunner.RunOn | src/dstf/backends/persistent.py:1202-1248 | what is simulated is simulated for this item, on a tool whose every file was read under the stamp of its state or a later one; no simulation only for the reasons of `RunTest` |
| Runner.WorkerRunner.RunArmed | src/dstf/backends/persistent.py:1168-1248 | a whole run, of every history of the files, keeps that of every simulation so far, and the account within budget; a dead worker is brought back first and the test then simulated, unless a stop was asked, the tool died or a reload failed; retired exactly when dead, with the reason; a stop asked before it never retires it |
| Runner.WorkerRunner.Run | src/dstf/backends/persistent.py:1103-1114 | armed for one test and disarmed after it, whatever it came to; a success is one that was simulated |
| Runner.WorkerRunner.SimulatedFresh | src/dstf/backends/persistent.py:1116-1205 | every simulation of every run ran on a tool that had read each file as it was at its item's state or later, where no file was lost between two sweeps that saw it alike |
| Dispatch.StepKeeps | src/dstf/backends/persistent.py:1825-1866 | every step of every thread, whichever workers retire, keeps: each test is queued, in one hand or recorded, no test is behind a sentinel, the sentinels are at least the threads still looping, and while a test is queued only threads whose worker was given up are out of the loop |
| Dispatch.SomeThreadMoves | src/dstf/backends/persistent.py:1825-1866 | no thread that is not done is ever blocked on an empty queue |
| Dispatch.SentinelMeansNoTest | src/dstf/backends/persistent.py:1825-1866 | a sentinel is taken only when no test is queued |
| Dispatch.AllDoneAllRecorded | src/dstf/backends/persistent.py:1741-1866 | when every thread is done each test was recorded exactly as often as it was given, and each was run unless every worker was given up |
| Dispatch.StepRecords | src/dstf/backends/persistent.py:1825-1866 | a test in hand is recorded as run, a test is drained only by the last thread out, and a worker is given up by its own run alone |
| Dispatch.StepDescends | src/dstf/backends/persistent.py:1825-1866 | every step brings the dispatch closer to its end, in any order |
| Dispatch.DispatchWithRestart | src/dstf/backends/persistent.py:1707-1866 | under any scheduler and any retirements the dispatch ends with every test recorded once, and run while one worker is never given up |
| Glob.SplitIsExact | src/dstf/authoring/needle.py:96-114 | the pieces joined by stars are the needle |
| Glob.EarlierPlaceWorks | src/dstf/authoring/needle.py:115-127 | the exchange argument: what matches after a later place of a piece matches after its first |
| Glob.SpelledNewlineFixesThePlace | src/dstf/authoring/needle.py:115-127 | a piece that spells a newline has one place a star can reach |
| Glob.LeftmostDecides | src/dstf/authoring/needle.py:115-127 | the rest of the needle matches exactly when it does after the leftmost place, reached without a newline |
| Glob.Middle | src/dstf/authoring/needle.py:117-127 | the loop over the middle pieces decides the match from where it stands, no place lost |
| Glob.Keep | src/dstf/authoring/needle.py:96-127 | the glob keeps a text exactly when the text is what the pattern says, for every needle: adjacent stars, literal newlines, `?`, any case equivalence |
| Samples.BoundariesGrow | src/dstf/figures/decimate.py:22-55 | no bucket of the decimation is empty |
| Samples.BoundaryIsTheShare | src/dstf/figures/decimate.py:22-55 | in whole numbers: a bucket begins after its share of the samples between the ends, rounded down, and the first |
| Samples.NextBucketIs | src/dstf/figures/decimate.py:58-112 | the samples averaged are those of the next bucket, and for the last one the last sample alone |
| Samples.AreaIsTheTriangle | src/dstf/figures/decimate.py:58-112 | what is compared is twice the area of the triangle of the pick before, the candidate and the next bucket's mean |
| Samples.MeanAddsUp | src/dstf/figures/decimate.py:58-112 | the mean is the sum over the count, and one sample's mean is itself |
| Samples.FirstLargest | src/dstf/figures/decimate.py:98-110 | the loop over a bucket finds the first sample of the largest triangle |
| Samples.LttbIncreases | src/dstf/figures/decimate.py:58-112 | the picks of the decimation are places of the series in increasing order |
| Samples.Lttb | src/dstf/figures/decimate.py:58-112 | each bucket's pick is the first of largest triangle with the pick before and the next bucket's mean; the ends are kept, and a short series is itself |
| Samples.SampleTrace.constructor | src/dstf/authoring/live_rows.py:120-138 | an empty trace has no history |
| Samples.SampleTrace.Add | src/dstf/authoring/live_rows.py:140-155 | after any adds the held samples are the whole history at multiples of the stride, `taken + skip` is `held * stride` with a skip below the stride, and the held count is what the bound makes it |
| Samples.SampleTrace.Extend | src/dstf/authoring/live_rows.py:140-152 | the samples kept of a batch are those at the stride, from the skip on |
| Samples.SampleTrace.Thin | src/dstf/authoring/live_rows.py:157-166 | every second sample goes, the stride doubles, and the history relation stands |
| Samples.SampleTrace.ArraysEndAtTheNewest | src/dstf/authoring/live_rows.py:168-173 | what is shown ends with the newest sample ever added |
| Samples.SampleTrace.Decimate | src/dstf/authoring/live_rows.py:175-186 | the cached head is the decimation of what was held when it was made |
| Samples.SampleTrace.Drawn | src/dstf/authoring/live_rows.py:175-186 | at most `cap` samples, in order, ending with the newest; all of them when they fit |
| Samples.BoundKeptIff | src/dstf/authoring/live_rows.py:140-166 | the held count stays within the bound exactly when held and added are at most twice it |
| Samples.BatchWithinBoundKeepsIt | src/dstf/authoring/live_rows.py:140-166 | a batch no larger than the bound keeps the held count within it |
| Samples.LargeBatchPassesTheBound | src/dstf/authoring/live_rows.py:140-166 | five samples in one batch leave three held under a bound of two |
| Samples.LiveTrace.Take | src/dstf/authoring/live_rows.py:204-219 | a snapshot of the same run extends each series' history by its samples, one of another run starts all over; the series that moved are those that got samples |
| Samples.LiveTrace.TakeAll | src/dstf/authoring/live_rows.py:212-219 | the loop over the series, in any order, touches each once and no other |
| Sides.EveryRunKeeps | src/dstf/authoring/forms.py:445-544 | over every sequence of focuses, edits and clicks: linked means equal sides, a half pair is never handed over, and outside a half pair what is held is what the fields show |
| Sides.RunsFromInitKeep | src/dstf/authoring/forms.py:344-413 | that holds from every initial value, the half pair of a rebuilt control included |
| Sides.StepKeeps | src/dstf/authoring/forms.py:445-544 | each single event keeps it |
| Sides.TakeShows | src/dstf/authoring/forms.py:506-534 | an edit leaves the fields and the held value agreeing, or puts back what was held at focus |
| Sides.HandsOverAtMostOnce | src/dstf/authoring/forms.py:482-534 | each event hands over at most one value, the one then held; a focus none |
| Sides.LinkTakesTheLarger | src/dstf/authoring/forms.py:445-461 | linking sets both sides to the larger of the two, never to a new value |
| Sides.EditShows | src/dstf/authoring/forms.py:506-534 | a field shows what was typed, the other the same exactly while they are linked; blanking both links them; what was held when the field was entered is remembered |
| Sides.UnlinkKeepsTheValue | src/dstf/authoring/forms.py:445-461 | unlinking moves no field and hands over the one value as a pair, or nothing when there is none |
| Sides.FocusRemembers | src/dstf/authoring/forms.py:506-534 | entering a field remembers what is held and changes nothing else |
| Sides.MixedPairIsLost | src/dstf/authoring/forms.py:506-534 | a pair with a boolean typed over and blanked again is not put back |
| Sides.MixedPairIsLostHalf | src/dstf/authoring/forms.py:506-534 | the same from a rebuilt control that shows one side |
| Sides.UnmixedIsPutBack | src/dstf/authoring/forms.py:506-534 | for every other initial value a half pair always leaves exactly what was held at focus |
| Sides.PutBackExactlyIff | src/dstf/authoring/forms.py:506-534 | from every start, a rebuilt half control included, the put-back is exact in all runs just when the initial value is no such pair |
| Sides.SidesControl.FieldChanged | src/dstf/authoring/forms.py:499-504 | a change the control made itself is no edit |
| Sides.SidesControl.TakeEdit | src/dstf/authoring/forms.py:506-534 | the widget half takes the modelled step, its own redraws included |
| Sides.SidesControl.ToggleLink | src/dstf/authoring/forms.py:445-461 | a click on the link takes the modelled step |
| Tree.NodeOrNone | src/dstf/authoring/tree_pointer.py:12-33 | the token-by-token reader finds the node the path names, or none when it names none |
| Tree.PathLeads | src/dstf/authoring/tree_pointer.py:12-33 | the path of a node leads to that node |
| Tree.OnePath | src/dstf/authoring/tree_pointer.py:12-33 | a path that names a node is that node's path, so paths and nodes correspond |
| Tree.TidyLeaves | src/dstf/authoring/tree_move.py:269-285 | the repairs lose no criterion and move none |
| Tree.WellIsTidy | src/dstf/authoring/tree_move.py:269-285 | a well-formed tree is repaired to itself |
| Verdicts.AlwaysPassesPasses | src/dstf/authoring/tree_move.py:141-157 | sound: a node found to always pass passes whatever its criteria's verdicts and scores, in any tree |
| Verdicts.AllFailing | src/dstf/comparison/metric_tree.py:79-269 | with every criterion failing and without a score, a well-formed tree passes exactly where the analysis says so, each `weighted` by its own sum |
| Verdicts.AlwaysPassesIff | src/dstf/authoring/tree_move.py:141-157 | on well-formed trees the analysis is exact, `weighted` included: found exactly when it passes under all verdicts and scores of its criteria, a criterion without a score among them |
| Verdicts.ScoredIff | src/dstf/authoring/tree_move.py:141-157 | exact too over the outcomes in which every criterion has a number, in a tree without a `weighted` |
| Verdicts.WeightedScoredIff | src/dstf/comparison/metric_tree.py:167-234 | a `weighted` of criteria that each have a number passes under all of them exactly when all weights are zero and zero is on the passing side of the threshold; the analysis never finds it |
| Verdicts.EmptyAndParts | src/dstf/authoring/tree_move.py:141-157 | an empty `and` passes and is not found: the one shape where the analysis is not complete |
| Verdicts.FreePassPasses | src/dstf/authoring/tree_move.py:160-167 | why such a pairing is refused: the `or`, or the 1-of-n, can then never fail |
| Verdicts.FreePassIff | src/dstf/authoring/tree_move.py:160-167 | the walk finds exactly the children that can never fail under an `or` or a `k-of-n` |
| TreeEdits.DropHolds | src/dstf/authoring/tree_move.py:243-248 | taking a node out removes exactly its subtree and its block of criteria |
| TreeEdits.PruneStep | src/dstf/authoring/tree_move.py:272-280 | removing one emptied combinator leaves every criterion, and the rest of the chain, as they were |
| TreeEdits.Prune | src/dstf/authoring/tree_move.py:272-280 | the loop up the ancestors removes the emptied ones and stops at the first that holds something |
| TreeEdits.LowerKs | src/dstf/authoring/tree_move.py:281-285 | the loop lowers each `k` above its children, and the tree is then well-formed |
| TreeMove.Relocate | src/dstf/authoring/tree_move.py:222-268 | out and in, with the weight a node brings |
| TreeMove.RelocatedHolds | src/dstf/authoring/tree_move.py:243-268 | before any repair every object is there once, one block of criteria has moved, and only the source's group may want repair |
| TreeMove.Repair | src/dstf/authoring/tree_move.py:269-285 | the loops up the chain arrive at the tidy form of the whole tree |
| TreeMove.ChainOf | src/dstf/authoring/tree_move.py:227-234 | the chain is the source's ancestors up to the root, each a child of the next |
| TreeMove.PassIsOld | src/dstf/authoring/tree_move.py:292-307 | the pairing was there before exactly when the old tree had it, object by object |
| TreeMove.SameContentIff | src/dstf/authoring/tree_move.py:287-290 | the tree is as it was exactly when nothing but the objects differs, siblings and all |
| TreeMove.AnswersAreFair | src/dstf/authoring/tree_move.py:287-318 | a moved tree is not the old one, is accepted by the validator, has no pairing the old one had not, and its path leads to the node; each refusal has its reason in the tree the move made |
| TreeMove.Carry | src/dstf/authoring/tree_move.py:211-318 | the tree made and the answer to it, in the code's order: unchanged, a new pairing that can never fail, the validator, else the tree with its paths |
| TreeMove.PlanMove | src/dstf/authoring/tree_move.py:185-318 | every call: which refusal or error, and exactly when; or a tree that holds every object once, moves one block, is well-formed when the old one was, has no pairing the old one had not, is not the old tree, and the path that leads to the node in it |
| MoveTheorems.MoveKeepsEveryCriterion | src/dstf/authoring/tree_move.py:185-285 | every criterion is in the new tree exactly once and unchanged |
| MoveTheorems.TidyFind | src/dstf/authoring/tree_move.py:269-285 | what stays of each object is that object repaired, and what goes held no criterion |
| MoveTheorems.MovedLandsInto | src/dstf/authoring/tree_move.py:236-268 | whatever tree the move makes: the node is a child of the destination, right before the child that had the place's index, or last when there is none, among its siblings in their order |
| MoveTheorems.MovedLandsOnto | src/dstf/authoring/tree_move.py:252-254 | onto a criterion: an `and` of the two, in that order, stands among the criterion's siblings where it stood |
| MoveTheorems.GoneAreTheEmptied | src/dstf/authoring/tree_move.py:269-280 | the objects that go are exactly those the move emptied; the only new one is the pair |
| MoveTheorems.SamePlaceIff | src/dstf/authoring/tree_move.py:170-182 | for every place: it is the same exactly when it is in the node's own group, and taking the node out and putting it there gives the same children |
| MoveTheorems.KeptPathsLead | src/dstf/authoring/tree_move.py:312-318 | the node at the mapped path of the new tree is the node that was at the old path |
| MoveTheorems.KeptPathsAreAll | src/dstf/authoring/tree_move.py:312-318 | the map's domain misses exactly what went, its range exactly what is new, and it is injective |
| MoveWeights.MoveIntoKeepsGroups | src/dstf/authoring/tree_move.py:243-285 | every combinator that stays keeps its fields, its `k` lowered to its children, and each child that stays its weight; the moved node keeps its weight in its own group and has 1 in any other |
| MoveWeights.MoveOntoKeepsGroups | src/dstf/authoring/tree_move.py:243-285 | the same onto a criterion: the pair has the weight the criterion had |
| MoveWeights.TidyRetouches | src/dstf/authoring/tree_move.py:382-389 | a repair drops a weight only with its child |
| PathMap.KidsCommute | src/dstf/authoring/tree_move.py:356-367 | an op on the shadow is the shadow of the op on the tree |
| PathMap.FieldMovesNothing | src/dstf/authoring/tree_move.py:349-351 | an op on a node's field moves no node |
| PathMap.ListOp | src/dstf/authoring/tree_move.py:356-367 | an op on a list, item by item: an add shifts what is after it, a remove shifts it back, a replace moves nothing, and nothing past the end exists (RFC 6902, sections 4.1 to 4.3) |
| PathMap.OnKidsIs | src/dstf/authoring/tree_move.py:352-367 | an op on children applies exactly where its path names a group with that place; that group keeps its fields, and every other path leads where it led |
| PathMap.OnNodeIs | src/dstf/authoring/tree_move.py:349-351 | an op on a field applies exactly where its path names a node, which alone is changed |
| PathMap.ChangedIs | src/dstf/authoring/tree_move.py:349-351 | it sets that field and no other |
| PathMap.RootOp | src/dstf/authoring/tree_move.py:352-355 | an op on the whole tree: an add always applies, a replace or remove where there is one |
| PathMap.BelowRoot | src/dstf/authoring/tree_move.py:352-367 | an op below the root applies where there is a tree with the place it names, and leaves that place's list |
| PathMap.WalkIsPathsKept | src/dstf/authoring/tree_move.py:370-379 | the walk over a shadow reads off exactly the kept nodes' paths |
| PathMap.PathMap | src/dstf/authoring/tree_move.py:326-379 | for every list of ops that applies, the map is each kept node's path before to its path after |
| PathMap.MapIsRight | src/dstf/authoring/tree_move.py:326-379 | stated of the ops as applied to the tree itself (RFC 6902), whole-tree replacements included |
| PathMap.MapOfNoTree | src/dstf/authoring/tree_move.py:352-355 | with no tree left the map is empty exactly when the shadow kept none of the old nodes |
| PathMap.RemovedTreeIsStillMapped | src/dstf/authoring/tree_move.py:352-355 | removing the whole tree leaves every path mapped to itself |
| Json.EqualIff | src/dstf/authoring/spec_document.py:94-106 | the comparison is equality of a canonical form |
| Json.EqualIsAnEquivalence | src/dstf/authoring/spec_document.py:94-106 | reflexive, symmetric and transitive on all finite values |
| Json.TrueIsNoNumber | src/dstf/authoring/spec_document.py:94-106 | true is not 1, and 1 is 1.0 |
| FoldRows.TogetherIsAnEquivalence | src/dstf/authoring/family_rows.py:136-160 | which rows belong together is an equivalence, so a group's first member speaks for all |
| FoldRows.OneCriterionIff | src/dstf/authoring/family_rows.py:53-62 | two leaves are one criterion exactly when metric, parameters, baseline and window are one JSON value each, one that is empty counting as its default |
| FoldRows.SameIff | src/dstf/authoring/family_rows.py:136-160 | two rows belong together exactly when their variables are of one array, they are children of one node, both or neither are of the open fold, and unless they are they are one criterion |
| FoldRows.FindGroup | src/dstf/authoring/family_rows.py:143-159 | the group found is the one the row belongs with, and none is found only when there is none |
| FoldRows.Groups | src/dstf/authoring/family_rows.py:130-165 | the loop's groups are the classes of the rows, each row on record in its own |
| FoldRows.FoldRows | src/dstf/authoring/family_rows.py:108-173 | the lines shown are what each row alone says: itself, its fold at the first member, or nothing |
| FoldRows.EachRowOnce | src/dstf/authoring/family_rows.py:166-173 | every row is shown exactly once, alone or in one fold |
| FoldRows.ShowsOnce | src/dstf/authoring/family_rows.py:166-173 | it is shown at its own place or at its fold's first member and nowhere else |
| FoldRows.ShowsFold | src/dstf/authoring/family_rows.py:112-128 | a fold is two or more elements of one array under one node, pairwise one criterion, each variable once |
| FoldRows.FoldsAreFolds | src/dstf/authoring/family_rows.py:108-173 | all folds shown are such, and the lines stand in the order of the rows they stand for first |
| FoldRows.TogetherFold | src/dstf/authoring/family_rows.py:112-128 | two members that belong together are in one fold |
| Reindex.FirstRival | src/dstf/authoring/family_rows.py:450-457 | the first sibling outside the group that is, or warns with, a criterion of that metric on that name, if any |
| Reindex.OneCriterionIff | src/dstf/authoring/family_rows.py:344-401 | two leaves are one criterion exactly when their metrics are one value and every field an editor shows, an end of the window or a baseline that is not the primary one included, is one value or in neither |
| Reindex.StartedSorts | src/dstf/authoring/family_rows.py:447-476 | of the names asked for and not held, refused are exactly those whose first criterion of the fold's metric, a leaf or alone in a `warn`, is not the fold's own as a leaf; those where it is are adopted |
| Reindex.AdoptAdds | src/dstf/authoring/family_rows.py:447-462 | taken as members are exactly unheld names' own identical leaves; every other rival refuses its name |
| Reindex.Adopt | src/dstf/authoring/family_rows.py:447-462 | the loops' members and refusals are those |
| Reindex.Removes | src/dstf/authoring/family_rows.py:484-492 | each remove is at the place its leaf has when it is applied, and what they leave are the siblings that stay |
| Reindex.Adds | src/dstf/authoring/family_rows.py:493-516 | each add is at the place intended when it is applied |
| Reindex.Reindex | src/dstf/authoring/family_rows.py:404-526 | refused exactly for those names, all of them named; else removes, last to first, of exactly the members not asked for, and adds, by index, of copies of the first member on exactly the names nothing has, which applied one after the other give the planned children and the members' places |
| ReindexTheorems.HoldsTheNames | src/dstf/authoring/family_rows.py:404-526 | the members' variables are exactly the names asked for, and every sibling that is no member stays, in order |
| ReindexTheorems.HoldsEachOnce | src/dstf/authoring/family_rows.py:404-526 | each once, where the fold held each once |
| ReindexTheorems.MemberStands | src/dstf/authoring/family_rows.py:507-516 | a child that stood is unchanged, a new one is the first member's leaf with its variable changed |
| ReindexTheorems.PlacesName | src/dstf/authoring/family_rows.py:517-526 | the returned paths are exactly the members' places |
| ReindexTheorems.KeepsIndexOrder | src/dstf/authoring/family_rows.py:413-417 | members in index order stay in index order |
| ReindexTheorems.EditStands | src/dstf/authoring/family_rows.py:404-526 | a group that stands together, with no rival beside it on a name it does not hold, is replaced in its place by another that stands together, nothing beside it touched: a name it held keeps its own leaf, any other gets the first leaf's fields |
| PutBack.EditedStands | src/dstf/authoring/family_rows.py:404-526 | with no such rival the edit is made, and returns the places of a fold that stands together where the other stood |
| PutBack.FinalCount | src/dstf/authoring/family_rows.py:447-516 | the list an edit leaves is as long as before, less the members it starts from, plus the names asked for: each leaf taken beside the fold makes it one shorter |
| PutBack.PutBackNeeds | src/dstf/authoring/family_rows.py:413-424 | if after both edits the list is as long as it was, neither took a leaf beside the fold, and none was there to take |
| PutBack.PutBackIff | src/dstf/authoring/family_rows.py:413-424 | the old text put back: neither edit is refused and the old variables stand in their places with everything beside them as it was, exactly when the text named something and no leaf beside the fold has its metric on a name that only one of the two texts names; and exactly when the list is as long as it was |
| PutBack.BackAt | src/dstf/authoring/family_rows.py:507-516 | a leaf put back is the old one where its name was in both texts, else a copy of the first leaf of the fold in between |
| PutBack.FirstOfAfter | src/dstf/authoring/family_rows.py:507-516 | the first leaf of the fold in between holds what the old leaf on the name of smallest index held, or the old first leaf when there was none on it |
| PutBack.TreePutBackIff | src/dstf/authoring/family_rows.py:413-417 | both edits are made and the list of children is the very same exactly when, besides that, each leaf of the fold is on a name asked for or holds what its copy is made of |
| PutBack.NoEditIff | src/dstf/authoring/family_rows.py:413-417 | the same with the leaves compared as JSON values: the text put back is no edit exactly then |
| PutBack.FieldsSpoilPutBack | src/dstf/authoring/family_rows.py:344-401 | two leaves of one criterion, one with its baseline spelled out: the variables come back and the tree does not |
| PutBack.ScatteredIsGathered | src/dstf/authoring/family_rows.py:495-516 | a fold with another child in between comes back with that child behind it |
| PutBack.RivalSpoilsPutBack | src/dstf/authoring/family_rows.py:419-424 | with an identical leaf beside the group they do not |
| Patch.ReplaceOntoAdd | src/dstf/authoring/session.py:1695-1708 | an add and then a replace are the add of the new value, on every entry, and apply when it does |
| Patch.ReplaceOntoReplace | src/dstf/authoring/session.py:1695-1708 | two replaces are the second |
| Patch.RemoveOntoReplace | src/dstf/authoring/session.py:1709-1711 | a replace and then a remove are the remove |
| Patch.AddOntoAdd | src/dstf/authoring/session.py:1712-1719 | two adds are the second exactly when what holds the place is an object |
| Patch.FoldIff | src/dstf/authoring/session.py:1691-1719 | for every pair the Session folds: the folded op does what the two did, and applies exactly when they did, if and only if two adds were not to a list |
| Patch.FoldsWhen | src/dstf/authoring/session.py:1691-1719 | two ops are folded exactly when they are on one place that has a name, and the second is a replace of an add or replace, a remove of a replace, or an add of an add not at an index in digits; the one left is of the first's kind with the second's value, or the remove |
| Patch.AddIs | src/dstf/discovery/patch_apply.py:177-214 | an add leaves in the holder of its place exactly that member, new or over the old one, or one item more with those after it shifted (RFC 6902, section 4.1) |
| Patch.AddIntoNothing | src/dstf/discovery/patch_apply.py:239-277 | an add makes the objects missing on its way, exactly when no step of them looks like an item of a list |
| Patch.ReplaceIs | src/dstf/discovery/patch_apply.py:177-214 | a replace applies exactly where its path leads to a value, which is then the new one (section 4.3) |
| Patch.RemoveAppliesIff | src/dstf/discovery/patch_apply.py:216-236 | a remove applies exactly where its path leads to a value (section 4.2) |
| Patch.RemoveIs | src/dstf/discovery/patch_apply.py:216-236 | it takes exactly that member, or that item with those after it shifted back |
| Patch.IndexReadsBack | src/dstf/discovery/patch_apply.py:280-291 | an index written in digits is read as that number |
| Patch.FoldedTwiceIsMarked | src/dstf/authoring/session.py:1712-1714 | the only adds folded wrongly are to a place of a list whose index is spelled with a sign, an underscore or a blank |
| Patch.SignedFoldLosesOne | src/dstf/authoring/session.py:1712-1714 | an entry and two such adds of which one is lost |
| Patch.Confined | src/dstf/discovery/patch_apply.py:131-163 | an op that applies changes only the one part of the entry it is confined under |
| Patch.OwnPart | src/dstf/discovery/patch_apply.py:131-163 | what an op does, and whether it applies, depends on that part alone |
| Patch.DropPart | src/dstf/authoring/session.py:1755-1766 | taking all ops of one part out leaves the rest applicable, that part as it was, every other as it is |
| SpecDocument.PatchIsLocal | src/dstf/discovery/patch_apply.py:55-92 | a model's ops touch its entry alone, wherever it is, new or old |
| SpecDocument.PatchesCommute | src/dstf/authoring/spec_document.py:144-150 | ops of two models commute once the first has its entry |
| SpecDocument.GroupedIsStaged | src/dstf/authoring/spec_document.py:144-150 | the replay grouped by model is the replay in staging order: the same entries in the same places, and it fails when that fails |
| SpecDocument.ReplayIsByModel | src/dstf/authoring/spec_document.py:207-215 | each entry is its saved one with its own ops applied |
| SpecDocument.ReplayAppliesIff | src/dstf/authoring/spec_document.py:207-215 | the list applies exactly when each model's own ops do |
| SpecDocument.DropTreeIsSafe | src/dstf/authoring/session.py:1755-1766 | dropping models' tree ops leaves a list that applies, their saved tree, and everything else as it was |
| SpecDocument.DropPutBackIsSafe | src/dstf/authoring/session.py:1767-1774 | dropping all ops of models that are as saved leaves their entries the saved ones and every other as it was |
| SpecDocument.WrittenOutTreeCanGo | src/dstf/authoring/session.py:2704-2765 | an entry whose tree ops only write out its own tree is scored by the same tree without them |
| SpecDocument.SupersedeIff | src/dstf/authoring/session.py:1691-1719 | folding onto the last pending op leaves the effective document exactly when it was no second add to a list |
| SpecDocument.SupersededIff | src/dstf/authoring/session.py:1691-1724 | for every pending list and every batch staged: the new list replays to what all the ops in a row do, but exactly where one add lands on another into a list by an index not in digits |
| SpecDocument.ModelByModelIsTheSame | src/dstf/authoring/session.py:1632-1675 | staged model by model, a batch means what it means in the order given |
| SpecDocument.Gather | src/dstf/authoring/spec_document.py:144-150 | the loop fills one group per model, in order of first appearance |
| SpecDocument.Replay | src/dstf/authoring/spec_document.py:207-215 | the grouped loop computes the replay in staging order |
| SpecDocument.Document.Append | src/dstf/authoring/spec_document.py:110-122 | an op added keeps the cached replay good |
| SpecDocument.Document.Effective | src/dstf/authoring/spec_document.py:207-215 | the cached document is always the replay of what is pending |
| SpecDocument.Settle | src/dstf/authoring/session.py:1755-1774 | first the trees written out go, then what is as saved with the rest |
| SpecDocument.SettledScoresTheSame | src/dstf/authoring/session.py:1739-1774 | whatever was dropped, every entry is scored by the tree it was scored by, and other models' entries are untouched |
| SpecDocument.SettledMeansTheSame | src/dstf/authoring/session.py:1739-1774 | whatever was dropped, every other part of every entry is the JSON value all the ops make of it |
| SpecDocument.SettledIsTidied | src/dstf/authoring/session.py:1739-1774 | a model of the stage has pending ops exactly when its entry is not as saved, and none that only write its own tree out; other models' ops are as they were |
| SpecDocument.OverridesAre | src/dstf/authoring/session.py:2704-2765 | the overrides a flat entry is scored by are the object under its comparison's `variable_overrides`, else none |
| SpecDocument.Stage | src/dstf/authoring/session.py:1607-1774 | a stage is made exactly when the document with every pending and new op in a row can be and is valid; each entry then has the parts it has there and is scored by the tree it is scored by there; no edit that changes nothing is left, and other models' ops are as they were |

## Left out

- Processes, kills, the watchdog's polling and every time bound, `cancel`'s five seconds among them: their outcomes are choices of the model. A result found on disk without a run, and the grace of a soft stop, are not part of it.
- Threads the watchdog gave up and that wake later: they write nothing here.
- Library.ServesFreshIff: is of every reading the stamps allow; which of them a tool really makes is not modelled.
- Library.ChangesAreTheDifferences: the three lists are sets here, so their order is not said.
- PoolRest.StretchIsShort: bounds the steps of the pool's threads, not the time a start or a run takes.
- Cancel.PollDeliversOrRunIsOver: one round of `cancel`'s loop is one step; its time bound is not modelled, so an asker may give up between any two rounds (`DoGiveUp`).
- Pool.SimulationPool.Close: the joins, and the error for a close from a callback, are not part of it; how the stop reaches a runner is in `Cancel`.
- Glob.Keep: asks of the case equivalence only that a newline is equal to nothing else; which other characters `re.IGNORECASE` takes for each other is a parameter. A needle without a glob character is found as a substring elsewhere, and the regex mode with its time budget is not part of this model.
- Samples.Lttb: computes over the reals what the source computes in floating point; times and values are of one length, as every caller passes them.
- Samples.SampleTrace.Drawn: is for one `cap` of at least 4, as `LiveTrace` clamps it once and always passes.
- Samples.LiveTrace.Take: the state and time a snapshot carries are copied through and not modelled.
- Sides.SidesControl.FieldChanged: the hints and the marks on blank fields are not modelled; a number is a real, so no NaN is entered.
- Tree.NodeOrNone: reads paths as lists of child indices; a pointer to a field of a node names no node in the source, and has no path here.
- TreeMove.PlanMove: the notes a move says beside the tree it makes are left out; `validate` is any function of the tree; a tree's fields other than its combinator, `k`, weights and children are one text.
- MoveWeights.MoveIntoKeepsGroups: with the lemmas on where the node lands, is stated of well-formed trees; of others the code keeps a short list of weights as it is, and so does the model.
- Verdicts.AlwaysPassesIff: the converse is for well-formed trees, the only ones the parser lets through; `Verdicts.EmptyAndParts` shows the one shape of others for which it fails. A score is a real or none, so no infinity and no NaN; a group the evaluator raises for is one that fails here; combinators a plug-in adds are not part of it.
- PathMap.PathMap: is stated of lists of ops that apply and leave a tree in which each object is once; `PathMap.MapOfNoTree` is the case with no tree left. An op that puts a whole list at `/children` moves nothing in the source and is not among the ops.
- FoldRows.FoldRows: the rows' paths are distinct, as those of one tree's leaves are; `family_of`'s reading of a name is a parameter.
- ReindexTheorems.KeepsIndexOrder: is for names of one array, and a group that is in index order to begin with; the source does not reorder one that is not.
- PutBack.PutBackIff: says nothing of what the leaves put back hold, which `PutBack.TreePutBackIff` does. Both are for a fold whose members stand together in index order, and names of one array; of a fold that is scattered or out of order the source promises only that what is held stays where it is.
- Patch.FoldIff: digits are the ASCII ones; the other decimal digits that `isdigit` and `int()` know are not modelled.
- SpecDocument.Stage: where an add is lost by a fold (`SpecDocument.LosesAnAdd`), it is of the pending list without that add. The checks of an entry's keys and tree are one predicate of the document; building a flat entry's tree from its overrides is a function that respects Python's equality; the materializing ops, notes and counts of edits, and the rescoring are left out.
- The order of an object's members in JSON, which no comparison reads.
- Reading and writing files, hashes, the manifests and dashboards, and the discovery of tests.
- `preview_base`, `edit_counts`, `move_destinations` and `zone_map`: they read what is proved here and decide nothing.
