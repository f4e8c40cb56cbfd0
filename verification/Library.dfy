/**
 * The source files over time, and what a live tool has read of them.
 *
 * `disk[u]` is what a sweep at moment `u` would find: the stamp of each file.
 */
module Library {
  import opened Common

  type Stamps = map<string, nat>

  function Get(d: Stamps, p: string): Option<nat>
  {
    if p in d then Some(d[p]) else None
  }

  /** The source files at one sweep; a higher serial was swept later. */
  datatype LibraryState = LibraryState(serial: nat, stamps: Stamps)

  datatype Changes = Changes(changed: set<string>, added: set<string>, removed: set<string>)

  function ChangesSince(now: LibraryState, older: LibraryState): Changes
  {
    Changes(
      set p | p in now.stamps && p in older.stamps && older.stamps[p] != now.stamps[p],
      set p | p in now.stamps && p !in older.stamps,
      set p | p in older.stamps && p !in now.stamps)
  }

  /** The state a sweep is: the last one itself when no file differs from it. */
  function Following(last: Option<LibraryState>, stamps: Stamps): LibraryState
  {
    if last.None? then LibraryState(1, stamps)
    else if stamps == last.value.stamps then last.value
    else LibraryState(last.value.serial + 1, stamps)
  }

  /** A sweep that finds every file as the last one did is the last state; any other has the next serial. */
  lemma FollowingIs(last: LibraryState, stamps: Stamps)
    ensures var now := Following(Some(last), stamps);
      && now.stamps == stamps
      && (if forall p :: Get(stamps, p) == Get(last.stamps, p) then now == last else now.serial == last.serial + 1)
  {
    if forall p :: Get(stamps, p) == Get(last.stamps, p) {
      forall p
        ensures p in stamps <==> p in last.stamps
        ensures p in stamps ==> stamps[p] == last.stamps[p]
      {
        assert Get(stamps, p) == Get(last.stamps, p);
      }
      assert stamps == last.stamps;
    }
  }

  predicate Touches(c: Changes, p: string)
  {
    p in c.changed || p in c.added || p in c.removed
  }

  /** The three lists are exactly the files that differ. */
  lemma ChangesAreTheDifferences(now: LibraryState, older: LibraryState, p: string)
    ensures Touches(ChangesSince(now, older), p) <==> Get(now.stamps, p) != Get(older.stamps, p)
    ensures p in ChangesSince(now, older).added <==> Get(older.stamps, p).None? && Get(now.stamps, p).Some?
    ensures p in ChangesSince(now, older).removed <==> Get(older.stamps, p).Some? && Get(now.stamps, p).None?
  {}

  // ----- freshness -------------------------------------------------------------------------

  /** The tool's `v` of file `p` is what the file was at moment `t` or later. */
  ghost predicate ReadSince(disk: seq<Stamps>, v: Option<nat>, p: string, t: nat)
  {
    exists u :: t <= u < |disk| && Get(disk[u], p) == v
  }

  ghost predicate FreshSince(disk: seq<Stamps>, content: Stamps, t: nat)
  {
    forall p :: ReadSince(disk, Get(content, p), p, t)
  }

  /**
   * A file with one stamp at both moments is never lost in between: what it was
   * at a moment from the one to the other, it is at the later one or after it.
   */
  ghost predicate NoPutBack(disk: seq<Stamps>, heldAt: nat, nowAt: nat)
    requires heldAt <= nowAt < |disk|
  {
    forall p, u :: heldAt <= u < nowAt && Get(disk[heldAt], p) == Get(disk[nowAt], p) ==> ReadSince(disk, Get(disk[u], p), p, nowAt)
  }

  /** What a reload of `changes` that came back whole may have made of `before`. */
  ghost predicate Reread(disk: seq<Stamps>, before: Stamps, after: Stamps, changes: Option<Changes>, t: nat)
  {
    forall p :: RereadOne(disk, Get(before, p), Get(after, p), changes, p, t)
  }

  ghost predicate RereadOne(disk: seq<Stamps>, before: Option<nat>, after: Option<nat>, changes: Option<Changes>, p: string, t: nat)
  {
    if changes.None? || Touches(changes.value, p) then ReadSince(disk, after, p, t) else after == before
  }

  /**
   * The reload reads only what changed, against what the tool last held - and
   * the tool is then as fresh as the state it was reloaded for, when no file was
   * put back between the two states.
   */
  lemma RereadIsFresh(disk: seq<Stamps>, before: Stamps, after: Stamps,
                      held: LibraryState, heldAt: nat, now: LibraryState, nowAt: nat)
    requires heldAt <= nowAt < |disk| && NoPutBack(disk, heldAt, nowAt)
    requires held.stamps == disk[heldAt] && now.stamps == disk[nowAt]
    requires FreshSince(disk, before, heldAt)
    requires Reread(disk, before, after, Some(ChangesSince(now, held)), nowAt)
    ensures FreshSince(disk, after, nowAt)
  {
    forall p
      ensures ReadSince(disk, Get(after, p), p, nowAt)
    {
      ChangesAreTheDifferences(now, held, p);
      assert RereadOne(disk, Get(before, p), Get(after, p), Some(ChangesSince(now, held)), p, nowAt);
      if !Touches(ChangesSince(now, held), p) {
        assert ReadSince(disk, Get(before, p), p, heldAt);
        var u :| heldAt <= u < |disk| && Get(disk[u], p) == Get(before, p);
      }
    }
  }

  /** And only then: a file put back is a reading some reload leaves behind. */
  lemma RereadIsFreshIff(disk: seq<Stamps>, held: LibraryState, heldAt: nat, now: LibraryState, nowAt: nat)
    requires heldAt <= nowAt < |disk| && held.stamps == disk[heldAt] && now.stamps == disk[nowAt]
    ensures NoPutBack(disk, heldAt, nowAt) <==>
            forall before, after ::
              FreshSince(disk, before, heldAt) && Reread(disk, before, after, Some(ChangesSince(now, held)), nowAt) ==> FreshSince(disk, after, nowAt)
  {
    if NoPutBack(disk, heldAt, nowAt) {
      forall before, after | FreshSince(disk, before, heldAt) && Reread(disk, before, after, Some(ChangesSince(now, held)), nowAt)
        ensures FreshSince(disk, after, nowAt)
      {
        RereadIsFresh(disk, before, after, held, heldAt, now, nowAt);
      }
    } else {
      var p, u :| heldAt <= u < nowAt && Get(disk[heldAt], p) == Get(disk[nowAt], p) && !ReadSince(disk, Get(disk[u], p), p, nowAt);
      MomentIsFresh(disk, u, heldAt);
      RereadExists(disk, disk[u], Some(ChangesSince(now, held)), nowAt);
      var after :| Reread(disk, disk[u], after, Some(ChangesSince(now, held)), nowAt);
      ChangesAreTheDifferences(now, held, p);
      assert RereadOne(disk, Get(disk[u], p), Get(after, p), Some(ChangesSince(now, held)), p, nowAt);
      assert !FreshSince(disk, after, nowAt) by {
        assert !ReadSince(disk, Get(after, p), p, nowAt);
      }
    }
  }

  /** What the files were at one moment is fresh for every earlier one. */
  lemma MomentIsFresh(disk: seq<Stamps>, u: nat, t: nat)
    requires t <= u < |disk|
    ensures FreshSince(disk, disk[u], t)
  {
    forall p
      ensures ReadSince(disk, Get(disk[u], p), p, t)
    {
      assert Get(disk[u], p) == Get(disk[u], p);
    }
  }

  /** A reload can come back whole: each file it reads as it is last. */
  lemma RereadExists(disk: seq<Stamps>, before: Stamps, changes: Option<Changes>, t: nat)
    requires t < |disk|
    ensures exists after: Stamps :: Reread(disk, before, after, changes, t)
  {
    var last := |disk| - 1;
    var latest := disk[last];
    var after: Stamps :=
      (map p | p in before && changes.Some? && !Touches(changes.value, p) :: before[p])
      + (map p | p in latest && (changes.None? || Touches(changes.value, p)) :: latest[p]);
    forall p
      ensures RereadOne(disk, Get(before, p), Get(after, p), changes, p, t)
    {
      assert Get(disk[last], p) == Get(latest, p);
    }
    assert Reread(disk, before, after, changes, t);
  }

  /** One such file: what the tool read in between stays. */
  lemma PutBackFileIsMissed(disk: seq<Stamps>, held: LibraryState, now: LibraryState, p: string)
    requires |disk| == 3 && held.stamps == disk[0] && now.stamps == disk[2]
    requires disk[0] == disk[2] && Get(disk[1], p) != Get(disk[2], p)
    ensures FreshSince(disk, disk[1], 0)
    ensures Reread(disk, disk[1], disk[1], Some(ChangesSince(now, held)), 2)
    ensures !FreshSince(disk, disk[1], 2)
  {
    forall q
      ensures ReadSince(disk, Get(disk[1], q), q, 0)
    {
      assert 0 <= 1 < |disk|;
    }
    forall q
      ensures RereadOne(disk, Get(disk[1], q), Get(disk[1], q), Some(ChangesSince(now, held)), q, 2)
    {
      ChangesAreTheDifferences(now, held, q);
    }
    assert !ReadSince(disk, Get(disk[1], p), p, 2);
  }

  /**
   * A sweep that finds nothing new is the last state: who is fresh for that one
   * is fresh at the sweep, exactly when no file was put back since.
   */
  lemma SameStateSameFreshness(disk: seq<Stamps>, last: LibraryState, lastAt: nat, sweptAt: nat)
    requires lastAt <= sweptAt < |disk| && last.stamps == disk[lastAt]
    requires Following(Some(last), disk[sweptAt]) == last
    ensures NoPutBack(disk, lastAt, sweptAt) <==>
            forall content :: FreshSince(disk, content, lastAt) ==> FreshSince(disk, content, sweptAt)
  {
    assert last.stamps == disk[sweptAt];
    if NoPutBack(disk, lastAt, sweptAt) {
      forall content | FreshSince(disk, content, lastAt)
        ensures FreshSince(disk, content, sweptAt)
      {
        RereadIsFresh(disk, content, content, last, lastAt, LibraryState(last.serial, disk[sweptAt]), sweptAt);
      }
    } else {
      var p, u :| lastAt <= u < sweptAt && !ReadSince(disk, Get(disk[u], p), p, sweptAt);
      MomentIsFresh(disk, u, lastAt);
      assert !FreshSince(disk, disk[u], sweptAt);
    }
  }

  // ----- what the stamps promise of every run --------------------------------------------------------------

  /** The moments of the sweeps, by serial. */
  ghost predicate Swept(disk: seq<Stamps>, sweeps: seq<nat>)
  {
    && (forall i :: 0 <= i < |sweeps| ==> sweeps[i] < |disk|)
    && (forall i, j :: 0 <= i <= j < |sweeps| ==> sweeps[i] <= sweeps[j])
  }

  /** The file `p` was read at `u`, no earlier than a sweep `i` that saw it as the sweep `k` did. */
  ghost predicate ReadAfter(disk: seq<Stamps>, sweeps: seq<nat>, v: Option<nat>, p: string, i: nat, k: nat, u: nat)
    requires Swept(disk, sweeps) && i <= k < |sweeps|
  {
    sweeps[i] <= u < |disk| && Get(disk[u], p) == v && Get(disk[sweeps[i]], p) == Get(disk[sweeps[k]], p)
  }

  ghost predicate ReadUnder(disk: seq<Stamps>, sweeps: seq<nat>, v: Option<nat>, p: string, k: nat)
    requires Swept(disk, sweeps) && k < |sweeps|
  {
    exists i: nat, u: nat :: i <= k && ReadAfter(disk, sweeps, v, p, i, k, u)
  }

  /** What the tool holds of every file was read under the stamp the state `k` has of it. */
  ghost predicate Holds(disk: seq<Stamps>, sweeps: seq<nat>, content: Stamps, k: nat)
    requires Swept(disk, sweeps) && k < |sweeps|
  {
    forall p :: ReadUnder(disk, sweeps, Get(content, p), p, k)
  }

  ghost predicate ReadFor(disk: seq<Stamps>, sweeps: seq<nat>, v: Option<nat>, p: string, k: nat)
    requires Swept(disk, sweeps) && k < |sweeps|
  {
    exists j :: k <= j < |sweeps| && ReadUnder(disk, sweeps, v, p, j)
  }

  /** ... or under the stamp of a later state. */
  ghost predicate Serves(disk: seq<Stamps>, sweeps: seq<nat>, content: Stamps, k: nat)
    requires Swept(disk, sweeps) && k < |sweeps|
  {
    forall p :: ReadFor(disk, sweeps, Get(content, p), p, k)
  }

  lemma FreshHolds(disk: seq<Stamps>, sweeps: seq<nat>, content: Stamps, t: nat, k: nat)
    requires Swept(disk, sweeps) && k < |sweeps| && sweeps[k] <= t && FreshSince(disk, content, t)
    ensures Holds(disk, sweeps, content, k)
  {
    forall p
      ensures ReadUnder(disk, sweeps, Get(content, p), p, k)
    {
      assert ReadSince(disk, Get(content, p), p, t);
      var u :| t <= u < |disk| && Get(disk[u], p) == Get(content, p);
      assert ReadAfter(disk, sweeps, Get(content, p), p, k, k, u);
    }
  }

  lemma UnderLasts(disk: seq<Stamps>, sweeps: seq<nat>, d: seq<Stamps>, w: seq<nat>, v: Option<nat>, p: string, k: nat)
    requires Swept(disk, sweeps) && Swept(d, w) && disk <= d && sweeps <= w && k < |sweeps|
    requires ReadUnder(disk, sweeps, v, p, k)
    ensures ReadUnder(d, w, v, p, k)
  {
    var i: nat, u: nat :| i <= k && ReadAfter(disk, sweeps, v, p, i, k, u);
    assert ReadAfter(d, w, v, p, i, k, u);
  }

  lemma HoldsLasts(disk: seq<Stamps>, sweeps: seq<nat>, d: seq<Stamps>, w: seq<nat>, content: Stamps, k: nat)
    requires Swept(disk, sweeps) && Swept(d, w) && disk <= d && sweeps <= w && k < |sweeps|
    ensures Holds(disk, sweeps, content, k) ==> Holds(d, w, content, k)
    ensures Serves(disk, sweeps, content, k) ==> Serves(d, w, content, k)
  {
    forall p, j | k <= j < |sweeps| && ReadUnder(disk, sweeps, Get(content, p), p, j)
      ensures ReadUnder(d, w, Get(content, p), p, j)
    {
      UnderLasts(disk, sweeps, d, w, Get(content, p), p, j);
    }
  }

  lemma HoldsServes(disk: seq<Stamps>, sweeps: seq<nat>, content: Stamps, j: nat, k: nat)
    requires Swept(disk, sweeps) && k <= j < |sweeps| && Holds(disk, sweeps, content, j)
    ensures Serves(disk, sweeps, content, k)
  {
    forall p
      ensures ReadFor(disk, sweeps, Get(content, p), p, k)
    {
      assert ReadUnder(disk, sweeps, Get(content, p), p, j);
    }
  }

  /** A reload of the differences takes what the tool holds from one state to a later one: of every history of the files. */
  lemma RereadHolds(disk: seq<Stamps>, sweeps: seq<nat>, before: Stamps, after: Stamps,
                    held: LibraryState, h: nat, now: LibraryState, n: nat, t: nat)
    requires Swept(disk, sweeps) && h <= n < |sweeps| && sweeps[n] <= t
    requires held.stamps == disk[sweeps[h]] && now.stamps == disk[sweeps[n]]
    requires Holds(disk, sweeps, before, h) && Reread(disk, before, after, Some(ChangesSince(now, held)), t)
    ensures Holds(disk, sweeps, after, n)
  {
    forall p
      ensures ReadUnder(disk, sweeps, Get(after, p), p, n)
    {
      ChangesAreTheDifferences(now, held, p);
      assert RereadOne(disk, Get(before, p), Get(after, p), Some(ChangesSince(now, held)), p, t);
      if Touches(ChangesSince(now, held), p) {
        var u :| t <= u < |disk| && Get(disk[u], p) == Get(after, p);
        assert ReadAfter(disk, sweeps, Get(after, p), p, n, n, u);
      } else {
        assert ReadUnder(disk, sweeps, Get(before, p), p, h);
        var i: nat, u: nat :| i <= h && ReadAfter(disk, sweeps, Get(before, p), p, i, h, u);
        assert ReadAfter(disk, sweeps, Get(after, p), p, i, n, u);
      }
    }
  }

  /** No file lost between two sweeps that saw it alike, on either side of the sweep `k`. */
  ghost predicate NothingHidden(disk: seq<Stamps>, sweeps: seq<nat>, k: nat)
    requires Swept(disk, sweeps) && k < |sweeps|
  {
    forall p, i, j, u ::
      0 <= i <= k <= j < |sweeps| && sweeps[i] <= u < sweeps[k] && Get(disk[sweeps[i]], p) == Get(disk[sweeps[j]], p)
      ==> ReadSince(disk, Get(disk[u], p), p, sweeps[k])
  }

  /** What serves a state is fresh for it exactly when no such file was lost. */
  lemma ServesFreshIff(disk: seq<Stamps>, sweeps: seq<nat>, k: nat)
    requires Swept(disk, sweeps) && k < |sweeps|
    ensures NothingHidden(disk, sweeps, k) <==>
            forall content :: Serves(disk, sweeps, content, k) ==> FreshSince(disk, content, sweeps[k])
  {
    if NothingHidden(disk, sweeps, k) {
      forall content | Serves(disk, sweeps, content, k)
        ensures FreshSince(disk, content, sweeps[k])
      {
        ServesFresh(disk, sweeps, content, k);
      }
    } else {
      var p, i, j, u :|
        0 <= i <= k <= j < |sweeps| && sweeps[i] <= u < sweeps[k] && Get(disk[sweeps[i]], p) == Get(disk[sweeps[j]], p)
        && !ReadSince(disk, Get(disk[u], p), p, sweeps[k]);
      var content := HiddenOne(disk, sweeps, k, p, i, j, u);
      assert !ReadSince(disk, Get(content, p), p, sweeps[k]);
      assert !FreshSince(disk, content, sweeps[k]);
    }
  }

  lemma ServesFresh(disk: seq<Stamps>, sweeps: seq<nat>, content: Stamps, k: nat)
    requires Swept(disk, sweeps) && k < |sweeps| && NothingHidden(disk, sweeps, k) && Serves(disk, sweeps, content, k)
    ensures FreshSince(disk, content, sweeps[k])
  {
    forall p
      ensures ReadSince(disk, Get(content, p), p, sweeps[k])
    {
      assert ReadFor(disk, sweeps, Get(content, p), p, k);
      var j :| k <= j < |sweeps| && ReadUnder(disk, sweeps, Get(content, p), p, j);
      var i: nat, u: nat :| i <= j && ReadAfter(disk, sweeps, Get(content, p), p, i, j, u);
      if u < sweeps[k] && i > k {
        assert sweeps[k] <= sweeps[i];
      }
    }
  }

  /** A tool that read every file last but one, which it read in between. */
  lemma HiddenOne(disk: seq<Stamps>, sweeps: seq<nat>, k: nat, p: string, i: nat, j: nat, u: nat) returns (content: Stamps)
    requires Swept(disk, sweeps) && i <= k <= j < |sweeps| && sweeps[i] <= u < sweeps[k]
    requires Get(disk[sweeps[i]], p) == Get(disk[sweeps[j]], p)
    ensures Serves(disk, sweeps, content, k) && Get(content, p) == Get(disk[u], p)
  {
    var last := |disk| - 1;
    content := (map q | q in disk[last] && q != p :: disk[last][q]) + (map q | q in disk[u] && q == p :: disk[u][q]);
    forall q
      ensures ReadFor(disk, sweeps, Get(content, q), q, k)
    {
      if q == p {
        assert ReadAfter(disk, sweeps, Get(content, q), q, i, j, u);
        assert ReadUnder(disk, sweeps, Get(content, q), q, j);
      } else {
        assert ReadAfter(disk, sweeps, Get(content, q), q, k, k, last);
        assert ReadUnder(disk, sweeps, Get(content, q), q, k);
      }
    }
  }
}
