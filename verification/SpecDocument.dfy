/**
 * The staged edits of a spec: one list of ops over all models, replayed on the
 * document as loaded.
 *
 * `ReplayEach` is the meaning of the list, one op after the other.  The program
 * replays it grouped by model, folds an op onto the last one, and drops ops
 * that are no edit: each is related to `ReplayEach` of the list as staged.
 */
module SpecDocument {
  import opened Common
  import opened Json
  import opened Patch

  datatype Staged = Staged(model: string, op: Op)

  type Tests = seq<Value>

  // ----- one model's entry ------------------------------------------------------------------------------

  predicate IsEntryOf(entry: Value, model: string)
  {
    entry.Obj? && "model" in entry.members && entry.members["model"] == Str(model)
  }

  /** Where the model's entry is: the first of any. */
  function IndexOf(tests: Tests, model: string): (i: Option<nat>)
    ensures i.Some? ==> i.value < |tests| && IsEntryOf(tests[i.value], model)
  {
    if tests == [] then None
    else if IsEntryOf(tests[0], model) then Some(0)
    else
      var i := IndexOf(tests[1..], model);
      if i.None? then None else Some(i.value + 1)
  }

  /** What a model's first op makes its entry from. */
  function Bare(model: string): Value
  {
    Obj(map["model" := Str(model)])
  }

  function EntryOf(tests: Tests, model: string): Option<Value>
  {
    var i := IndexOf(tests, model);
    if i.None? then None else Some(tests[i.value])
  }

  function EntryOr(tests: Tests, model: string): (e: Value)
    ensures IsEntryOf(e, model)
  {
    var i := IndexOf(tests, model);
    if i.None? then Bare(model) else tests[i.value]
  }

  /** All of a model's ops on its entry, or none: a new entry comes last. */
  function PatchModel(tests: Tests, model: string, ops: seq<Op>): Option<Tests>
  {
    var patched, i := ApplyAll(EntryOr(tests, model), ops), IndexOf(tests, model);
    if patched.None? then None
    else if i.None? then Some(tests + [patched.value])
    else Some(tests[i.value := patched.value])
  }

  function Then(tests: Option<Tests>, model: string, ops: seq<Op>): Option<Tests>
  {
    if tests.None? then None else PatchModel(tests.value, model, ops)
  }

  lemma {:induction false} IndexBeside(tests: Tests, more: Tests, model: string)
    ensures IndexOf(tests + more, model) ==
            if IndexOf(tests, model).Some? then IndexOf(tests, model)
            else if IndexOf(more, model).Some? then Some(|tests| + IndexOf(more, model).value)
            else None
  {
    if tests == [] {
      assert tests + more == more;
    } else {
      assert (tests + more)[1..] == tests[1..] + more;
      IndexBeside(tests[1..], more, model);
    }
  }

  /** Another entry for one model moves no model's. */
  lemma {:induction false} IndexReplaced(tests: Tests, i: nat, entry: Value, owner: string, model: string)
    requires i < |tests| && IsEntryOf(tests[i], owner) && IsEntryOf(entry, owner)
    ensures IndexOf(tests[i := entry], model) == IndexOf(tests, model)
  {
    if i > 0 {
      assert tests[i := entry][1..] == tests[1..][i - 1 := entry];
      IndexReplaced(tests[1..], i - 1, entry, owner, model);
    } else {
      assert tests[0 := entry][1..] == tests[1..];
    }
  }

  /** A patched entry is its model's still: no op reaches its `model`. */
  lemma PatchedIsEntry(entry: Value, ops: seq<Op>, model: string)
    requires IsEntryOf(entry, model) && ApplyAll(entry, ops).Some?
    ensures IsEntryOf(ApplyAll(entry, ops).value, model)
  {
    StaysAnObject(entry.members, ops);
    assert Member(ApplyAll(entry, ops).value.members, "model") == Member(entry.members, "model");
  }

  /** One model's patch changes that model's entry and no other. */
  lemma PatchIsLocal(tests: Tests, model: string, ops: seq<Op>, other: string)
    requires PatchModel(tests, model, ops).Some?
    ensures var after := PatchModel(tests, model, ops).value;
      && |after| >= |tests| && IndexOf(after, model).Some?
      && EntryOf(after, model) == ApplyAll(EntryOr(tests, model), ops)
      && (other != model ==> IndexOf(after, other) == IndexOf(tests, other) && EntryOf(after, other) == EntryOf(tests, other))
  {
    var entry := ApplyAll(EntryOr(tests, model), ops).value;
    PatchedIsEntry(EntryOr(tests, model), ops, model);
    var i := IndexOf(tests, model);
    if i.None? {
      IndexBeside(tests, [entry], model);
      IndexBeside(tests, [entry], other);
      assert [entry][1..] == [];
    } else {
      IndexReplaced(tests, i.value, entry, model, model);
      IndexReplaced(tests, i.value, entry, model, other);
    }
  }

  /** A model's ops in two goes. */
  lemma PatchSplits(tests: Tests, model: string, a: seq<Op>, b: seq<Op>)
    ensures PatchModel(tests, model, a + b) == Then(PatchModel(tests, model, a), model, b)
  {
    ApplyAllBeside(EntryOr(tests, model), a, b);
    var once := ApplyAll(EntryOr(tests, model), a);
    if once.Some? {
      PatchedIsEntry(EntryOr(tests, model), a, model);
      var i := IndexOf(tests, model);
      if i.None? {
        IndexBeside(tests, [once.value], model);
        assert IndexOf([once.value], model) == Some(0);
        if ApplyAll(once.value, b).Some? {
          assert (tests + [once.value])[|tests| := ApplyAll(once.value, b).value] == tests + [ApplyAll(once.value, b).value];
        }
      } else {
        IndexReplaced(tests, i.value, once.value, model, model);
        if ApplyAll(once.value, b).Some? {
          UpdateTwice(tests, i.value, once.value, ApplyAll(once.value, b).value);
        }
      }
    }
  }

  /** Two models' ops in either order, once the first has an entry - and so its place. */
  lemma PatchesCommute(tests: Tests, model: string, a: seq<Op>, other: string, b: seq<Op>)
    requires model != other && IndexOf(tests, model).Some?
    ensures Then(PatchModel(tests, model, a), other, b) == Then(PatchModel(tests, other, b), model, a)
  {
    hide ApplyAll;
    var first, second := PatchModel(tests, model, a), PatchModel(tests, other, b);
    if first.Some? {
      PatchIsLocal(tests, model, a, other);
    }
    if second.Some? {
      PatchIsLocal(tests, other, b, model);
    }
    if first.Some? && second.Some? {
      var i, j := IndexOf(tests, model).value, IndexOf(tests, other);
      var x, y := ApplyAll(tests[i], a).value, ApplyAll(EntryOr(tests, other), b).value;
      if j.None? {
        assert tests[i := x] + [y] == (tests + [y])[i := x];
      } else {
        assert tests[i := x][j.value := y] == tests[j.value := y][i := x];
      }
    }
  }

  // ----- the list, one op after the other, and by model ----------------------------------------------------

  /** The document with every op applied, in the order they were staged. */
  function ReplayEach(tests: Tests, pending: seq<Staged>): Option<Tests>
  {
    if pending == [] then Some(tests)
    else Then(ReplayEach(tests, pending[..|pending| - 1]), pending[|pending| - 1].model, [pending[|pending| - 1].op])
  }

  datatype Group = Group(model: string, ops: seq<Op>)

  function GroupAt(groups: seq<Group>, model: string): (i: Option<nat>)
    ensures i.Some? ==> i.value < |groups| && groups[i.value].model == model
    ensures i.None? ==> forall k :: 0 <= k < |groups| ==> groups[k].model != model
  {
    if groups == [] then None
    else if groups[0].model == model then Some(0)
    else
      var i := GroupAt(groups[1..], model);
      if i.None? then None else Some(i.value + 1)
  }

  function AddTo(groups: seq<Group>, s: Staged): seq<Group>
  {
    var i := GroupAt(groups, s.model);
    if i.None? then groups + [Group(s.model, [s.op])] else groups[i.value := Group(s.model, groups[i.value].ops + [s.op])]
  }

  /** The ops by model: models in first-seen order, each one's ops as staged. */
  function Grouped(pending: seq<Staged>): seq<Group>
  {
    if pending == [] then [] else AddTo(Grouped(pending[..|pending| - 1]), pending[|pending| - 1])
  }

  function ReplayGroups(tests: Option<Tests>, groups: seq<Group>): Option<Tests>
    decreases groups
  {
    if groups == [] then tests else ReplayGroups(Then(tests, groups[0].model, groups[0].ops), groups[1..])
  }

  predicate OneEach(groups: seq<Group>)
  {
    forall i, j :: 0 <= i < j < |groups| ==> groups[i].model != groups[j].model
  }

  lemma {:induction false} GroupedOneEach(pending: seq<Staged>)
    ensures OneEach(Grouped(pending))
  {
    if pending != [] {
      GroupedOneEach(pending[..|pending| - 1]);
    }
  }

  lemma {:induction false} ReplayGroupsBeside(tests: Option<Tests>, a: seq<Group>, b: seq<Group>)
    ensures ReplayGroups(tests, a + b) == ReplayGroups(ReplayGroups(tests, a), b)
    decreases a
  {
    if a == [] {
      assert a + b == b;
    } else {
      assert (a + b)[1..] == a[1..] + b;
      ReplayGroupsBeside(Then(tests, a[0].model, a[0].ops), a[1..], b);
    }
  }

  /** An op of a model that has its entry can wait until the other models' groups are replayed. */
  lemma {:induction false} OpCanWait(tests: Option<Tests>, model: string, ops: seq<Op>, groups: seq<Group>)
    requires tests.Some? ==> IndexOf(tests.value, model).Some?
    requires forall k :: 0 <= k < |groups| ==> groups[k].model != model
    ensures ReplayGroups(Then(tests, model, ops), groups) == Then(ReplayGroups(tests, groups), model, ops)
    decreases groups
  {
    if groups != [] {
      var g := groups[0];
      var next := Then(tests, g.model, g.ops);
      if tests.Some? {
        PatchesCommute(tests.value, model, ops, g.model, g.ops);
        if next.Some? {
          PatchIsLocal(tests.value, g.model, g.ops, model);
        }
      }
      assert Then(Then(tests, model, ops), g.model, g.ops) == Then(next, model, ops);
      OpCanWait(next, model, ops, groups[1..]);
    }
  }

  /** One op more in its model's group is that op applied last. */
  lemma {:induction false} OpInItsGroup(tests: Option<Tests>, groups: seq<Group>, s: Staged)
    requires OneEach(groups)
    ensures ReplayGroups(tests, AddTo(groups, s)) == Then(ReplayGroups(tests, groups), s.model, [s.op])
  {
    hide PatchModel, ApplyAll, EntryOr, IndexOf;
    var i := GroupAt(groups, s.model);
    if i.None? {
      ReplayGroupsBeside(tests, groups, [Group(s.model, [s.op])]);
      assert [Group(s.model, [s.op])][1..] == [];
    } else {
      var k := i.value;
      var before, g, after := groups[..k], groups[k], groups[k + 1..];
      assert groups == before + ([g] + after);
      assert AddTo(groups, s) == before + ([Group(s.model, g.ops + [s.op])] + after);
      ReplayGroupsBeside(tests, before, [g] + after);
      ReplayGroupsBeside(tests, before, [Group(s.model, g.ops + [s.op])] + after);
      var base := ReplayGroups(tests, before);
      assert ([g] + after)[1..] == after && ([Group(s.model, g.ops + [s.op])] + after)[1..] == after;
      var own := Then(base, s.model, g.ops);
      if base.Some? {
        PatchSplits(base.value, s.model, g.ops, [s.op]);
        if own.Some? {
          PatchIsLocal(base.value, s.model, g.ops, s.model);
        }
      }
      OpCanWait(own, s.model, [s.op], after);
    }
  }

  /** The grouped replay is the replay as staged, new entries in their order, and refuses what that refuses. */
  lemma {:induction false} GroupedIsStaged(tests: Tests, pending: seq<Staged>)
    ensures ReplayGroups(Some(tests), Grouped(pending)) == ReplayEach(tests, pending)
  {
    if pending != [] {
      var rest := pending[..|pending| - 1];
      GroupedIsStaged(tests, rest);
      GroupedOneEach(rest);
      OpInItsGroup(Some(tests), Grouped(rest), pending[|pending| - 1]);
    }
  }

  // ----- each model by its own ops ---------------------------------------------------------------------------

  function OpsOf(pending: seq<Staged>, model: string): seq<Op>
  {
    if pending == [] then []
    else
      var last := pending[|pending| - 1];
      OpsOf(pending[..|pending| - 1], model) + if last.model == model then [last.op] else []
  }

  /** What a model's entry becomes by its own ops. */
  function Own(tests: Tests, pending: seq<Staged>, model: string): Option<Value>
  {
    ApplyAll(EntryOr(tests, model), OpsOf(pending, model))
  }

  lemma OpsOfOneMore(pending: seq<Staged>, last: Staged, model: string)
    ensures OpsOf(pending + [last], model) == if last.model == model then OpsOf(pending, model) + [last.op] else OpsOf(pending, model)
  {
    assert (pending + [last])[..|pending + [last]| - 1] == pending;
    assert OpsOf(pending, model) + [] == OpsOf(pending, model);
  }

  lemma OwnOneMore(tests: Tests, pending: seq<Staged>, last: Staged, model: string)
    ensures Own(tests, pending + [last], model) ==
            if last.model != model then Own(tests, pending, model)
            else if Own(tests, pending, model).None? then None
            else ApplyAll(Own(tests, pending, model).value, [last.op])
  {
    OpsOfOneMore(pending, last, model);
    if last.model == model {
      ApplyAllBeside(EntryOr(tests, model), OpsOf(pending, model), [last.op]);
    }
  }

  lemma LastOf(pending: seq<Staged>)
    requires pending != []
    ensures pending == pending[..|pending| - 1] + [pending[|pending| - 1]]
  {}

  /** A replay gives each model what its own ops make of its entry, and leaves a model without ops alone. */
  lemma {:induction false} ReplayIsByModel(tests: Tests, pending: seq<Staged>, model: string)
    requires ReplayEach(tests, pending).Some?
    ensures Own(tests, pending, model) == Some(EntryOr(ReplayEach(tests, pending).value, model))
    ensures OpsOf(pending, model) == [] ==> EntryOf(ReplayEach(tests, pending).value, model) == EntryOf(tests, model)
  {
    if pending != [] {
      var rest, last := pending[..|pending| - 1], pending[|pending| - 1];
      ReplayIsByModel(tests, rest, model);
      var before, after := ReplayEach(tests, rest).value, ReplayEach(tests, pending).value;
      assert PatchModel(before, last.model, [last.op]) == Some(after);
      hide ReplayEach, Own, OpsOf, ApplyAll, PatchModel;
      PatchIsLocal(before, last.model, [last.op], model);
      LastOf(pending);
      OwnOneMore(tests, rest, last, model);
      OpsOfOneMore(rest, last, model);
    }
  }

  /** The whole list applies exactly when each model's own ops do. */
  lemma {:induction false} ReplayAppliesIff(tests: Tests, pending: seq<Staged>)
    ensures ReplayEach(tests, pending).Some? <==> forall s :: s in pending ==> Own(tests, pending, s.model).Some?
  {
    if pending != [] {
      var rest, last := pending[..|pending| - 1], pending[|pending| - 1];
      LastOf(pending);
      ReplayAppliesIff(tests, rest);
      var before := ReplayEach(tests, rest);
      assert ReplayEach(tests, pending) == Then(before, last.model, [last.op]);
      if before.Some? {
        ReplayIsByModel(tests, rest, last.model);
      }
      hide ReplayEach, Own, OpsOf, ApplyAll;
      forall s | s in pending
        ensures Own(tests, pending, s.model).Some? ==> Own(tests, rest, s.model).Some?
        ensures s.model != last.model ==> Own(tests, pending, s.model) == Own(tests, rest, s.model)
      {
        OwnOneMore(tests, rest, last, s.model);
      }
      OwnOneMore(tests, rest, last, last.model);
      assert last in pending;
    }
  }

  // ----- what is dropped ----------------------------------------------------------------------------------------

  /** The list without some of its ops. */
  function Dropped(pending: seq<Staged>, gone: Staged -> bool): seq<Staged>
  {
    if pending == [] then []
    else
      var last := pending[|pending| - 1];
      Dropped(pending[..|pending| - 1], gone) + if gone(last) then [] else [last]
  }

  function TreeOps(models: set<string>): (f: Staged -> bool)
    ensures forall s :: f(s) <==> s.model in models && On(s.op, "metrics")
  {
    (s: Staged) => s.model in models && On(s.op, "metrics")
  }

  function OpsOn(models: set<string>): (f: Staged -> bool)
    ensures forall s :: f(s) <==> s.model in models
  {
    (s: Staged) => s.model in models
  }

  lemma {:induction false} DroppedTreeOps(pending: seq<Staged>, models: set<string>, model: string)
    ensures OpsOf(Dropped(pending, TreeOps(models)), model) ==
            if model in models then Off(OpsOf(pending, model), "metrics") else OpsOf(pending, model)
  {
    if pending != [] {
      var rest, last := pending[..|pending| - 1], pending[|pending| - 1];
      DroppedTreeOps(rest, models, model);
      DroppedOneMore(rest, last, TreeOps(models));
      LastOf(pending);
      OpsOfOneMore(Dropped(rest, TreeOps(models)), last, model);
      OpsOfOneMore(rest, last, model);
      OffOneMore(OpsOf(rest, model), last.op);
    }
  }

  lemma {:induction false} DroppedModelOps(pending: seq<Staged>, models: set<string>, model: string)
    ensures OpsOf(Dropped(pending, OpsOn(models)), model) == if model in models then [] else OpsOf(pending, model)
  {
    if pending != [] {
      var rest, last := pending[..|pending| - 1], pending[|pending| - 1];
      DroppedModelOps(rest, models, model);
      DroppedOneMore(rest, last, OpsOn(models));
      LastOf(pending);
      OpsOfOneMore(Dropped(rest, OpsOn(models)), last, model);
      OpsOfOneMore(rest, last, model);
    }
  }

  lemma DroppedOneMore(pending: seq<Staged>, last: Staged, gone: Staged -> bool)
    ensures Dropped(pending + [last], gone) == if gone(last) then Dropped(pending, gone) else Dropped(pending, gone) + [last]
  {
    assert (pending + [last])[..|pending + [last]| - 1] == pending;
    assert Dropped(pending, gone) + [] == Dropped(pending, gone);
  }

  lemma {:induction false} DroppedWereThere(pending: seq<Staged>, gone: Staged -> bool)
    ensures forall s :: s in Dropped(pending, gone) ==> s in pending
  {
    if pending != [] {
      LastOf(pending);
      DroppedWereThere(pending[..|pending| - 1], gone);
    }
  }

  lemma OffOneMore(ops: seq<Op>, op: Op)
    ensures Off(ops + [op], "metrics") == if On(op, "metrics") then Off(ops, "metrics") else Off(ops, "metrics") + [op]
  {
    assert (ops + [op])[..|ops + [op]| - 1] == ops;
    assert Off(ops, "metrics") + [] == Off(ops, "metrics");
  }

  /** Taking the ops on `metrics` of some models out: those entries have the saved `metrics`, and nothing else moves. */
  lemma DropTreeIsSafe(tests: Tests, pending: seq<Staged>, models: set<string>, model: string)
    requires ReplayEach(tests, pending).Some?
    ensures ReplayEach(tests, Dropped(pending, TreeOps(models))).Some?
    ensures var given, without := ReplayEach(tests, pending).value, ReplayEach(tests, Dropped(pending, TreeOps(models))).value;
      if model !in models then EntryOf(without, model) == EntryOf(given, model)
      else
        && Member(EntryOr(without, model).members, "metrics") == Member(EntryOr(tests, model).members, "metrics")
        && forall k :: k != "metrics" ==> Member(EntryOr(without, model).members, k) == Member(EntryOr(given, model).members, k)
  {
    var kept := Dropped(pending, TreeOps(models));
    ReplayAppliesIff(tests, pending);
    ReplayAppliesIff(tests, kept);
    DroppedWereThere(pending, TreeOps(models));
    forall s | s in kept
      ensures Own(tests, kept, s.model).Some?
    {
      OwnWithoutTree(tests, pending, models, s.model);
    }
    hide ReplayEach, Dropped, OpsOf;
    ReplayIsByModel(tests, pending, model);
    ReplayIsByModel(tests, kept, model);
    OwnWithoutTree(tests, pending, models, model);
    DroppedTreeOps(pending, models, model);
    if model !in models && OpsOf(pending, model) != [] {
      HasEntry(tests, pending, model);
      HasEntry(tests, kept, model);
    }
  }

  /** A model's own ops without those on `metrics`. */
  lemma OwnWithoutTree(tests: Tests, pending: seq<Staged>, models: set<string>, model: string)
    requires Own(tests, pending, model).Some?
    ensures var kept := Dropped(pending, TreeOps(models));
      && Own(tests, kept, model).Some?
      && (model !in models ==> Own(tests, kept, model) == Own(tests, pending, model))
      && (model in models ==>
            && Own(tests, kept, model).value.Obj? && Own(tests, pending, model).value.Obj?
            && Member(Own(tests, kept, model).value.members, "metrics") == Member(EntryOr(tests, model).members, "metrics")
            && forall k :: k != "metrics" ==> Member(Own(tests, kept, model).value.members, k) == Member(Own(tests, pending, model).value.members, k))
  {
    DroppedTreeOps(pending, models, model);
    if model in models {
      DropPart(EntryOr(tests, model).members, OpsOf(pending, model), "metrics");
    }
  }

  /** A model some op names has an entry. */
  lemma {:induction false} HasEntry(tests: Tests, pending: seq<Staged>, model: string)
    requires ReplayEach(tests, pending).Some? && OpsOf(pending, model) != []
    ensures EntryOf(ReplayEach(tests, pending).value, model) == Some(EntryOr(ReplayEach(tests, pending).value, model))
  {
    var rest, last := pending[..|pending| - 1], pending[|pending| - 1];
    PatchIsLocal(ReplayEach(tests, rest).value, last.model, [last.op], model);
    if last.model != model {
      LastOf(pending);
      OpsOfOneMore(rest, last, model);
      HasEntry(tests, rest, model);
    }
  }

  /** Whether the model's entry with the ops applied is the one the file holds. */
  predicate AsSaved(tests: Tests, after: Tests, model: string)
  {
    Equal(EntryOr(after, model), EntryOr(tests, model))
  }

  /** Dropping every op of models that are as saved: their entries are the file's own, every other as it was. */
  lemma DropPutBackIsSafe(tests: Tests, pending: seq<Staged>, models: set<string>, model: string)
    requires ReplayEach(tests, pending).Some?
    ensures ReplayEach(tests, Dropped(pending, OpsOn(models))).Some?
    ensures var given, without := ReplayEach(tests, pending).value, ReplayEach(tests, Dropped(pending, OpsOn(models))).value;
      && EntryOf(without, model) == (if model in models then EntryOf(tests, model) else EntryOf(given, model))
      && (model in models && AsSaved(tests, given, model) ==> Equal(EntryOr(without, model), EntryOr(given, model)))
  {
    var kept := Dropped(pending, OpsOn(models));
    ReplayAppliesIff(tests, pending);
    ReplayAppliesIff(tests, kept);
    DroppedWereThere(pending, OpsOn(models));
    forall s | s in kept
      ensures Own(tests, kept, s.model).Some?
    {
      DroppedModelOps(pending, models, s.model);
    }
    hide ReplayEach, Dropped;
    ReplayIsByModel(tests, pending, model);
    ReplayIsByModel(tests, kept, model);
    DroppedModelOps(pending, models, model);
    EqualIsAnEquivalence(EntryOr(ReplayEach(tests, pending).value, model), EntryOr(tests, model), EntryOr(tests, model));
    if model !in models && OpsOf(pending, model) != [] {
      HasEntry(tests, pending, model);
      HasEntry(tests, kept, model);
    }
  }

  // ----- the tree an entry is scored by ------------------------------------------------------------------------

  function Part(v: Value, k: string): Option<Value>
  {
    if v.Obj? && k in v.members && v.members[k] != Null then Some(v.members[k]) else None
  }

  /** A null `metrics` is none. */
  predicate HasTree(entry: Value)
  {
    Part(entry, "metrics").Some?
  }

  function OrEmpty(v: Option<Value>): Value
  {
    if v.Some? && v.value.Obj? then v.value else Obj(map[])
  }

  function Overrides(entry: Value): Value
  {
    OrEmpty(Part(OrEmpty(Part(entry, "comparison")), "variable_overrides"))
  }

  /** The object under `comparison` and there under `variable_overrides`, or an empty one. */
  lemma OverridesAre(entry: map<string, Value>)
    ensures var c := if "comparison" in entry then entry["comparison"] else Null;
      Overrides(Obj(entry)) ==
      if c.Obj? && "variable_overrides" in c.members && c.members["variable_overrides"].Obj? then c.members["variable_overrides"] else Obj(map[])
  {}

  /** The tree a flat entry scores by is built from its overrides, by code that is not modelled. */
  type Build = Value -> Option<Value>

  function ScoredBy(entry: Value, build: Build): Option<Value>
  {
    if HasTree(entry) then Part(entry, "metrics") else build(Overrides(entry))
  }

  /** The ops on the model's `metrics` do nothing but write out `tree`, which its saved entry scores by. */
  predicate WritesItsTreeOut(tests: Tests, after: Tests, model: string, tree: Option<Value>)
  {
    && EntryOf(after, model).Some? && HasTree(EntryOr(after, model)) && !HasTree(EntryOr(tests, model))
    && Loose(Overrides(EntryOr(tests, model))) == Loose(Overrides(EntryOr(after, model)))
    && tree.Some? && Equal(Part(EntryOr(after, model), "metrics").value, tree.value)
  }

  predicate OneTree(a: Option<Value>, b: Option<Value>)
  {
    a.Some? && b.Some? && Equal(a.value, b.value)
  }

  /** Such a tree can go: the entry without it is scored by the same tree. */
  lemma WrittenOutTreeCanGo(tests: Tests, pending: seq<Staged>, models: set<string>, model: string, build: Build)
    requires ReplayEach(tests, pending).Some? && model in models
    requires forall a, b :: Loose(a) == Loose(b) ==> build(a) == build(b)
    requires WritesItsTreeOut(tests, ReplayEach(tests, pending).value, model, build(Overrides(EntryOr(tests, model))))
    ensures ReplayEach(tests, Dropped(pending, TreeOps(models))).Some?
    ensures OneTree(ScoredBy(EntryOr(ReplayEach(tests, pending).value, model), build),
                    ScoredBy(EntryOr(ReplayEach(tests, Dropped(pending, TreeOps(models))).value, model), build))
  {
    hide ReplayEach, Dropped;
    DropTreeIsSafe(tests, pending, models, model);
    var given := EntryOr(ReplayEach(tests, pending).value, model);
    var without := EntryOr(ReplayEach(tests, Dropped(pending, TreeOps(models))).value, model);
    assert Member(without.members, "comparison") == Member(given.members, "comparison");
    assert Overrides(without) == Overrides(given);
    assert !HasTree(without);
  }

  // ----- staging ---------------------------------------------------------------------------------------------------

  /** The list with what is staged: one op that supersedes the last one takes its place. */
  function Superseded(pending: seq<Staged>, staged: seq<Staged>): seq<Staged>
  {
    if |staged| == 1 && pending != [] && pending[|pending| - 1].model == staged[0].model
       && Folded(pending[|pending| - 1].op, staged[0].op).Some?
    then pending[..|pending| - 1] + [Staged(staged[0].model, Folded(pending[|pending| - 1].op, staged[0].op).value)]
    else pending + staged
  }

  /** The last op and a new one on its path are two adds into a list. */
  predicate TwoAddsToAList(entry: Value, last: Op, next: Op)
  {
    last.Add? && next.Add? && last.path != [] && Apply(entry, last).Some?
    && !(Holder(entry, last.path).Some? && Holder(entry, last.path).value.Obj?)
  }

  /** The folded list replays to the same document, and applies exactly when the two ops did - but for two adds into a list. */
  lemma SupersedeIff(tests: Tests, pending: seq<Staged>, next: Staged)
    requires pending != [] && pending[|pending| - 1].model == next.model && Folded(pending[|pending| - 1].op, next.op).Some?
    ensures var before := ReplayEach(tests, pending[..|pending| - 1]);
      ReplayEach(tests, Superseded(pending, [next])) == ReplayEach(tests, pending + [next])
      <==> before.None? || !TwoAddsToAList(EntryOr(before.value, next.model), pending[|pending| - 1].op, next.op)
  {
    var rest, last, m := pending[..|pending| - 1], pending[|pending| - 1].op, next.model;
    var one := Folded(last, next.op).value;
    var before := ReplayEach(tests, rest);
    assert (pending + [next])[..|pending|] == pending;
    assert (rest + [Staged(m, one)])[..|rest|] == rest;
    assert ReplayEach(tests, Superseded(pending, [next])) == Then(before, m, [one]);
    assert ReplayEach(tests, pending + [next]) == Then(Then(before, m, [last]), m, [next.op]);
    if before.Some? {
      PatchSplits(before.value, m, [last], [next.op]);
      assert [last] + [next.op] == [last, next.op];
      TwoOpsOnEntry(EntryOr(before.value, m), last, next.op, one);
      FoldIff(EntryOr(before.value, m), last, next.op);
      PatchesSameIff(before.value, m, [one], [last, next.op]);
    }
  }

  /**
   * The one case in which staging changes what the list means: a single add onto
   * a last op that is an add on the same path of the same model, into a list,
   * with an index that is spelled otherwise than in digits.
   */
  predicate LosesAnAdd(tests: Tests, pending: seq<Staged>, staged: seq<Staged>)
  {
    && |staged| == 1 && pending != []
    && var last, next := pending[|pending| - 1], staged[0];
    && last.model == next.model && last.op.path == next.op.path && last.op.path != []
    && next.op.path[|next.op.path| - 1] != "-" && !IsDigits(next.op.path[|next.op.path| - 1])
    && var before := ReplayEach(tests, pending[..|pending| - 1]);
       before.Some? && TwoAddsToAList(EntryOr(before.value, next.model), last.op, next.op)
  }

  /** Whatever is staged on whatever is pending: the list then replays to what all the ops in a row do, but in that case. */
  lemma SupersededIff(tests: Tests, pending: seq<Staged>, staged: seq<Staged>)
    ensures ReplayEach(tests, Superseded(pending, staged)) == ReplayEach(tests, pending + staged) <==> !LosesAnAdd(tests, pending, staged)
  {
    if |staged| == 1 && pending != [] && pending[|pending| - 1].model == staged[0].model
       && Folded(pending[|pending| - 1].op, staged[0].op).Some? {
      assert [staged[0]] == staged;
      hide ReplayEach, EntryOr, Apply, Holder;
      SupersedeIff(tests, pending, staged[0]);
    }
  }

  lemma TwoOpsOnEntry(entry: Value, last: Op, next: Op, one: Op)
    ensures ApplyAll(entry, [last, next]) == ApplyTwo(entry, last, next)
    ensures ApplyAll(entry, [one]) == Apply(entry, one)
  {
    OneOp(entry, last);
    OneOp(entry, one);
    ApplyAllBeside(entry, [last], [next]);
    assert [last] + [next] == [last, next];
    if Apply(entry, last).Some? {
      OneOp(Apply(entry, last).value, next);
    }
  }

  lemma OneOp(entry: Value, op: Op)
    ensures ApplyAll(entry, [op]) == Apply(entry, op)
  {
    assert [op][..0] == [];
  }

  /** Two patches of one model give one document exactly when they give one entry. */
  lemma PatchesSameIff(tests: Tests, model: string, a: seq<Op>, b: seq<Op>)
    ensures PatchModel(tests, model, a) == PatchModel(tests, model, b) <==> ApplyAll(EntryOr(tests, model), a) == ApplyAll(EntryOr(tests, model), b)
  {
    var x, y := ApplyAll(EntryOr(tests, model), a), ApplyAll(EntryOr(tests, model), b);
    var i := IndexOf(tests, model);
    if x.Some? && y.Some? {
      if i.None? {
        assert (tests + [x.value])[|tests|] == x.value && (tests + [y.value])[|tests|] == y.value;
      } else {
        assert tests[i.value := x.value][i.value] == x.value && tests[i.value := y.value][i.value] == y.value;
      }
    }
  }

  /** The ops by model, gathered one by one. */
  method Gather(pending: seq<Staged>) returns (groups: seq<Group>)
    ensures groups == Grouped(pending)
  {
    groups := [];
    assert pending[..0] == [];
    for i := 0 to |pending|
      invariant groups == Grouped(pending[..i])
    {
      assert pending[..i + 1][..i] == pending[..i];
      groups := AddTo(groups, pending[i]);
    }
    assert pending[..|pending|] == pending;
  }

  /** A document replayed from nothing, group by group. */
  method Replay(tests: Tests, pending: seq<Staged>) returns (r: Option<Tests>)
    ensures r == ReplayEach(tests, pending)
  {
    var groups := Gather(pending);
    GroupedIsStaged(tests, pending);
    var data := tests;
    assert groups[0..] == groups;
    for i := 0 to |groups|
      invariant ReplayGroups(Some(data), groups[i..]) == ReplayEach(tests, pending)
    {
      assert groups[i..][1..] == groups[i + 1..];
      var next := PatchModel(data, groups[i].model, groups[i].ops);
      if next.None? {
        NoneStays(groups[i + 1..]);
        return None;
      }
      data := next.value;
    }
    r := Some(data);
  }

  lemma {:induction false} NoneStays(groups: seq<Group>)
    ensures ReplayGroups(None, groups) == None
  {
    if groups != [] {
      NoneStays(groups[1..]);
    }
  }

  /** What the Session holds: the document as loaded, the ops staged against it, and the last replay. */
  class Document {
    const loaded: Tests
    var pending: seq<Staged>
    var cache: Option<(nat, Tests)>

    /** The cached replay is of the first ops: good as long as ops are only added. */
    ghost predicate Valid()
      reads this
    {
      cache.Some? ==> cache.value.0 <= |pending| && ReplayEach(loaded, pending[..cache.value.0]) == Some(cache.value.1)
    }

    constructor (loaded: Tests, pending: seq<Staged>)
      ensures Valid() && this.loaded == loaded && this.pending == pending
    {
      this.loaded, this.pending, cache := loaded, pending, None;
    }

    method Append(s: Staged)
      requires Valid()
      modifies this`pending
      ensures Valid() && pending == old(pending) + [s]
    {
      pending := pending + [s];
      assert cache.Some? ==> pending[..cache.value.0] == old(pending)[..cache.value.0];
    }

    /** The document with every pending op applied; none when an op cannot be. */
    method Effective() returns (r: Option<Tests>)
      requires Valid()
      modifies this`cache
      ensures Valid() && r == ReplayEach(loaded, pending)
    {
      assert pending[..|pending|] == pending;
      if cache.Some? && cache.value.0 == |pending| {
        return Some(cache.value.1);
      }
      r := Replay(loaded, pending);
      if r.Some? {
        cache := Some((|pending|, r.value));
      }
    }
  }

  // ----- a stage, from the list before to the list after ------------------------------------------------------------

  /** The models of a stage whose `metrics` ops only write out the tree their saved entry scores by (`scored`, where one is known). */
  function WrittenOut(tests: Tests, after: Tests, models: set<string>, scored: map<string, Value>): set<string>
  {
    set m | m in models && WritesItsTreeOut(tests, after, m, if m in scored then Some(scored[m]) else None)
  }

  function PutBack(tests: Tests, after: Tests, models: set<string>): set<string>
  {
    set m | m in models && AsSaved(tests, after, m)
  }

  /** The ops that are edits: first the trees written out go, then the models that are as saved. */
  method Settle(tests: Tests, candidate: seq<Staged>, models: set<string>, scored: map<string, Value>)
    returns (kept: seq<Staged>, ghost gone: set<string>, ghost back: set<string>)
    requires ReplayEach(tests, candidate).Some?
    ensures gone == WrittenOut(tests, ReplayEach(tests, candidate).value, models, scored)
    ensures ReplayEach(tests, Dropped(candidate, TreeOps(gone))).Some?
    ensures back == PutBack(tests, ReplayEach(tests, Dropped(candidate, TreeOps(gone))).value, models)
    ensures kept == Dropped(Dropped(candidate, TreeOps(gone)), OpsOn(back))
  {
    var effective := Replay(tests, candidate);
    var written := WrittenOut(tests, effective.value, models, scored);
    kept := Dropped(candidate, TreeOps(written));
    DropTreeIsSafe(tests, candidate, written, "");
    effective := Replay(tests, kept);
    var saved := PutBack(tests, effective.value, models);
    kept := Dropped(kept, OpsOn(saved));
    gone, back := written, saved;
  }

  predicate SameTree(a: Option<Value>, b: Option<Value>)
  {
    (a.None? && b.None?) || OneTree(a, b)
  }

  lemma SameTreeIsAnEquivalence(a: Option<Value>, b: Option<Value>, c: Option<Value>)
    ensures SameTree(a, a)
    ensures SameTree(a, b) && SameTree(b, c) ==> SameTree(a, c)
  {
    if a.Some? {
      EqualIsAnEquivalence(a.value, if b.Some? then b.value else a.value, if c.Some? then c.value else a.value);
    }
  }

  /** Entries that are one JSON value are scored by one tree. */
  lemma EqualScoresTheSame(a: Value, b: Value, build: Build)
    requires Equal(a, b)
    requires forall x, y :: Loose(x) == Loose(y) ==> build(x) == build(y)
    ensures SameTree(ScoredBy(a, build), ScoredBy(b, build))
  {
    EqualParts(a, b, "metrics");
    if !HasTree(a) {
      EqualParts(a, b, "comparison");
      var x, y := OrEmpty(Part(a, "comparison")), OrEmpty(Part(b, "comparison"));
      assert Equal(x, y);
      EqualParts(x, y, "variable_overrides");
      assert Equal(Overrides(a), Overrides(b));
      EqualIsLoose(Overrides(a), Overrides(b));
      SameTreeIsAnEquivalence(build(Overrides(a)), build(Overrides(a)), build(Overrides(a)));
    }
  }

  lemma EqualParts(a: Value, b: Value, k: string)
    requires Equal(a, b)
    ensures Part(a, k).Some? <==> Part(b, k).Some?
    ensures Part(a, k).Some? ==> Equal(Part(a, k).value, Part(b, k).value)
  {}

  /**
   * Whatever a stage drops changes no verdict: each model's entry is scored by
   * the tree it was scored by with every op, and no model outside the stage
   * is touched.
   */
  lemma SettledScoresTheSame(tests: Tests, candidate: seq<Staged>, models: set<string>, scored: map<string, Value>, model: string, build: Build)
    requires ReplayEach(tests, candidate).Some?
    requires forall x, y :: Loose(x) == Loose(y) ==> build(x) == build(y)
    requires forall m :: m in scored ==> build(Overrides(EntryOr(tests, m))) == Some(scored[m])
    ensures var gone := WrittenOut(tests, ReplayEach(tests, candidate).value, models, scored);
      && ReplayEach(tests, Dropped(candidate, TreeOps(gone))).Some?
      && var back := PutBack(tests, ReplayEach(tests, Dropped(candidate, TreeOps(gone))).value, models);
         var kept := Dropped(Dropped(candidate, TreeOps(gone)), OpsOn(back));
         && ReplayEach(tests, kept).Some?
         && SameTree(ScoredBy(EntryOr(ReplayEach(tests, candidate).value, model), build),
                     ScoredBy(EntryOr(ReplayEach(tests, kept).value, model), build))
         && (model !in models ==> EntryOf(ReplayEach(tests, kept).value, model) == EntryOf(ReplayEach(tests, candidate).value, model))
  {
    hide ReplayEach, Dropped, ScoredBy, Overrides, HasTree, AsSaved;
    var before := ReplayEach(tests, candidate).value;
    var gone := WrittenOut(tests, before, models, scored);
    DropTreeIsSafe(tests, candidate, gone, model);
    var less := Dropped(candidate, TreeOps(gone));
    var between := ReplayEach(tests, less).value;
    if model in gone {
      WrittenOutTreeCanGo(tests, candidate, gone, model, build);
    }
    var back := PutBack(tests, between, models);
    DropPutBackIsSafe(tests, less, back, model);
    var after := ReplayEach(tests, Dropped(less, OpsOn(back))).value;
    var a, b, c := ScoredBy(EntryOr(before, model), build), ScoredBy(EntryOr(between, model), build), ScoredBy(EntryOr(after, model), build);
    if model in back {
      SavedIsBack(tests, between, after, model);
      EqualScoresTheSame(EntryOr(between, model), EntryOr(after, model), build);
    }
    SameTreeIsAnEquivalence(a, b, c);
    SameTreeIsAnEquivalence(b, c, c);
  }

  lemma SavedIsBack(tests: Tests, between: Tests, after: Tests, model: string)
    requires AsSaved(tests, between, model) && EntryOf(after, model) == EntryOf(tests, model)
    ensures Equal(EntryOr(between, model), EntryOr(after, model))
  {}

  /** What a stage leaves of one of its models: ops on it exactly when it is not as saved, and no tree that is only written out. */
  ghost predicate Tidied(tests: Tests, kept: seq<Staged>, model: string, scored: map<string, Value>)
    requires ReplayEach(tests, kept).Some?
  {
    var after := ReplayEach(tests, kept).value;
    && (OpsOf(kept, model) == [] <==> AsSaved(tests, after, model))
    && !WritesItsTreeOut(tests, after, model, if model in scored then Some(scored[model]) else None)
  }

  /** No edit is left that changes nothing: a model of the stage has pending ops exactly when its entry is not as saved. */
  lemma SettledIsTidied(tests: Tests, candidate: seq<Staged>, models: set<string>, scored: map<string, Value>, model: string)
    requires ReplayEach(tests, candidate).Some?
    ensures var gone := WrittenOut(tests, ReplayEach(tests, candidate).value, models, scored);
      && ReplayEach(tests, Dropped(candidate, TreeOps(gone))).Some?
      && var back := PutBack(tests, ReplayEach(tests, Dropped(candidate, TreeOps(gone))).value, models);
         var kept := Dropped(Dropped(candidate, TreeOps(gone)), OpsOn(back));
         && ReplayEach(tests, kept).Some?
         && (model in models ==> Tidied(tests, kept, model, scored))
         && (model !in models ==> OpsOf(kept, model) == OpsOf(candidate, model))
  {
    hide ReplayEach, Dropped, ScoredBy, Overrides, OpsOf;
    var before := ReplayEach(tests, candidate).value;
    var gone := WrittenOut(tests, before, models, scored);
    DropTreeIsSafe(tests, candidate, gone, model);
    var less := Dropped(candidate, TreeOps(gone));
    var between := ReplayEach(tests, less).value;
    var back := PutBack(tests, between, models);
    var kept := Dropped(less, OpsOn(back));
    DropPutBackIsSafe(tests, less, back, model);
    DroppedTreeOps(candidate, gone, model);
    DroppedModelOps(less, back, model);
    ReplayIsByModel(tests, kept, model);
    EqualIsAnEquivalence(EntryOr(tests, model), EntryOr(tests, model), EntryOr(tests, model));
  }

  /** One part of two entries: in neither, or one JSON value in both. */
  predicate SamePart(a: Value, b: Value, k: string)
    requires a.Obj? && b.Obj?
  {
    (k in a.members <==> k in b.members) && (k in a.members ==> Equal(a.members[k], b.members[k]))
  }

  lemma MemberIsPart(a: Value, b: Value, k: string)
    requires a.Obj? && b.Obj? && Member(a.members, k) == Member(b.members, k)
    ensures SamePart(a, b, k)
  {
    if k in a.members {
      EqualIff(a.members[k], a.members[k]);
    }
  }

  /** Beside the tree, each part of each entry is what all the ops make of it. */
  lemma SettledMeansTheSame(tests: Tests, candidate: seq<Staged>, models: set<string>, scored: map<string, Value>, model: string, k: string)
    requires ReplayEach(tests, candidate).Some? && k != "metrics"
    ensures var gone := WrittenOut(tests, ReplayEach(tests, candidate).value, models, scored);
      && ReplayEach(tests, Dropped(candidate, TreeOps(gone))).Some?
      && var back := PutBack(tests, ReplayEach(tests, Dropped(candidate, TreeOps(gone))).value, models);
         var kept := Dropped(Dropped(candidate, TreeOps(gone)), OpsOn(back));
         && ReplayEach(tests, kept).Some?
         && SamePart(EntryOr(ReplayEach(tests, kept).value, model), EntryOr(ReplayEach(tests, candidate).value, model), k)
  {
    hide ReplayEach, Dropped, ScoredBy, Overrides, AsSaved;
    var before := ReplayEach(tests, candidate).value;
    var gone := WrittenOut(tests, before, models, scored);
    DropTreeIsSafe(tests, candidate, gone, model);
    var less := Dropped(candidate, TreeOps(gone));
    var between := ReplayEach(tests, less).value;
    var back := PutBack(tests, between, models);
    DropPutBackIsSafe(tests, less, back, model);
    var after := ReplayEach(tests, Dropped(less, OpsOn(back))).value;
    var a, b, c := EntryOr(before, model), EntryOr(between, model), EntryOr(after, model);
    assert Member(b.members, k) == Member(a.members, k);
    if model in back {
      SavedIsBack(tests, between, after, model);
      EqualIsAnEquivalence(b, c, c);
    } else {
      MemberIsPart(c, a, k);
    }
  }

  lemma {:induction false} OpsOfBeside(a: seq<Staged>, b: seq<Staged>, model: string)
    ensures OpsOf(a + b, model) == OpsOf(a, model) + OpsOf(b, model)
  {
    if b == [] {
      assert a + b == a;
    } else {
      assert (a + b)[..|a + b| - 1] == a + b[..|b| - 1];
      OpsOfBeside(a, b[..|b| - 1], model);
    }
  }

  lemma {:induction false} NoneOfAnother(staged: seq<Staged>, model: string)
    requires forall s :: s in staged ==> s.model != model
    ensures OpsOf(staged, model) == []
  {
    if staged != [] {
      NoneOfAnother(staged[..|staged| - 1], model);
    }
  }

  /** Staging touches no op of a model it does not name. */
  lemma SupersededElsewhere(pending: seq<Staged>, staged: seq<Staged>, model: string)
    requires model !in Models(staged)
    ensures OpsOf(Superseded(pending, staged), model) == OpsOf(pending, model)
  {
    NoneOfAnother(staged, model);
    OpsOfBeside(pending, staged, model);
    if Superseded(pending, staged) != pending + staged {
      var last, one := pending[|pending| - 1], Superseded(pending, staged)[|pending| - 1];
      assert staged[0] in staged;
      LastOf(pending);
      OpsOfOneMore(pending[..|pending| - 1], last, model);
      OpsOfOneMore(pending[..|pending| - 1], one, model);
    }
  }

  /**
   * A stage, by what its ops mean: it is made exactly when the document with
   * every op in a row can be and is valid.  Each entry then scores by the tree
   * it has there, and has each other part it has there; what is left of the list
   * holds no edit that changes nothing, and other models' ops as they were.
   */
  ghost predicate StagesRight(tests: Tests, pending: seq<Staged>, staged: seq<Staged>, scored: map<string, Value>, valid: Tests -> bool, kept: Option<seq<Staged>>)
  {
    var whole := ReplayEach(tests, pending + staged);
    && (kept.Some? <==> whole.Some? && valid(whole.value))
    && (kept.Some? ==> ReplayEach(tests, kept.value).Some? && forall m :: StagesModel(tests, whole.value, pending, staged, scored, kept.value, m))
  }

  ghost predicate StagesModel(tests: Tests, whole: Tests, pending: seq<Staged>, staged: seq<Staged>, scored: map<string, Value>, kept: seq<Staged>, m: string)
    requires ReplayEach(tests, kept).Some?
  {
    var after := ReplayEach(tests, kept).value;
    && (m !in Models(staged) ==> OpsOf(kept, m) == OpsOf(pending, m) && EntryOf(after, m) == EntryOf(whole, m))
    && (m in Models(staged) ==> Tidied(tests, kept, m, scored))
    && (forall k :: k != "metrics" ==> SamePart(EntryOr(after, m), EntryOr(whole, m), k))
    && forall build: Build :: Builds(build, tests, scored) ==> SameTree(ScoredBy(EntryOr(whole, m), build), ScoredBy(EntryOr(after, m), build))
  }

  /** A way to build trees that knows no more of a value than JSON says, and built those that were scored. */
  ghost predicate Builds(build: Build, tests: Tests, scored: map<string, Value>)
  {
    && (forall x, y :: Loose(x) == Loose(y) ==> build(x) == build(y))
    && forall m :: m in scored ==> build(Overrides(EntryOr(tests, m))) == Some(scored[m])
  }

  lemma SettledStages(tests: Tests, pending: seq<Staged>, staged: seq<Staged>, scored: map<string, Value>, m: string)
    requires ReplayEach(tests, Superseded(pending, staged)).Some?
    ensures var candidate := Superseded(pending, staged);
      var gone := WrittenOut(tests, ReplayEach(tests, candidate).value, Models(staged), scored);
      && ReplayEach(tests, Dropped(candidate, TreeOps(gone))).Some?
      && var back := PutBack(tests, ReplayEach(tests, Dropped(candidate, TreeOps(gone))).value, Models(staged));
         var kept := Dropped(Dropped(candidate, TreeOps(gone)), OpsOn(back));
         ReplayEach(tests, kept).Some? && StagesModel(tests, ReplayEach(tests, candidate).value, pending, staged, scored, kept, m)
  {
    hide ReplayEach, Dropped, ScoredBy, Overrides, OpsOf, Superseded, WrittenOut, PutBack, Tidied, SamePart, SameTree;
    var candidate := Superseded(pending, staged);
    SettledIsTidied(tests, candidate, Models(staged), scored, m);
    if m !in Models(staged) {
      SupersededElsewhere(pending, staged, m);
      SettledElsewhere(tests, candidate, Models(staged), scored, m);
    }
    forall k | k != "metrics"
      ensures var gone := WrittenOut(tests, ReplayEach(tests, candidate).value, Models(staged), scored);
        var back := PutBack(tests, ReplayEach(tests, Dropped(candidate, TreeOps(gone))).value, Models(staged));
        var kept := Dropped(Dropped(candidate, TreeOps(gone)), OpsOn(back));
        SamePart(EntryOr(ReplayEach(tests, kept).value, m), EntryOr(ReplayEach(tests, candidate).value, m), k)
    {
      SettledMeansTheSame(tests, candidate, Models(staged), scored, m, k);
    }
    forall build: Build | Builds(build, tests, scored)
      ensures var gone := WrittenOut(tests, ReplayEach(tests, candidate).value, Models(staged), scored);
        var back := PutBack(tests, ReplayEach(tests, Dropped(candidate, TreeOps(gone))).value, Models(staged));
        var kept := Dropped(Dropped(candidate, TreeOps(gone)), OpsOn(back));
        SameTree(ScoredBy(EntryOr(ReplayEach(tests, candidate).value, m), build), ScoredBy(EntryOr(ReplayEach(tests, kept).value, m), build))
    {
      SettledScoresTheSame(tests, candidate, Models(staged), scored, m, build);
    }
  }

  lemma SettledElsewhere(tests: Tests, candidate: seq<Staged>, models: set<string>, scored: map<string, Value>, model: string)
    requires ReplayEach(tests, candidate).Some? && model !in models
    ensures var gone := WrittenOut(tests, ReplayEach(tests, candidate).value, models, scored);
      && ReplayEach(tests, Dropped(candidate, TreeOps(gone))).Some?
      && var back := PutBack(tests, ReplayEach(tests, Dropped(candidate, TreeOps(gone))).value, models);
         var kept := Dropped(Dropped(candidate, TreeOps(gone)), OpsOn(back));
         ReplayEach(tests, kept).Some? && EntryOf(ReplayEach(tests, kept).value, model) == EntryOf(ReplayEach(tests, candidate).value, model)
  {
    hide ReplayEach, Dropped;
    var gone := WrittenOut(tests, ReplayEach(tests, candidate).value, models, scored);
    DropTreeIsSafe(tests, candidate, gone, model);
    var less := Dropped(candidate, TreeOps(gone));
    DropPutBackIsSafe(tests, less, PutBack(tests, ReplayEach(tests, less).value, models), model);
  }

  /** The pending ops a stage builds on: all of them, but for an add that is lost. */
  ghost function BuiltOn(tests: Tests, pending: seq<Staged>, staged: seq<Staged>): seq<Staged>
  {
    if LosesAnAdd(tests, pending, staged) then pending[..|pending| - 1] else pending
  }

  lemma SupersededIs(tests: Tests, pending: seq<Staged>, staged: seq<Staged>)
    ensures ReplayEach(tests, Superseded(pending, staged)) == ReplayEach(tests, BuiltOn(tests, pending, staged) + staged)
    ensures forall m :: m !in Models(staged) ==> OpsOf(BuiltOn(tests, pending, staged), m) == OpsOf(pending, m)
  {
    SupersededIff(tests, pending, staged);
    if LosesAnAdd(tests, pending, staged) {
      var rest, last := pending[..|pending| - 1], pending[|pending| - 1];
      assert staged[0] in staged && staged == [staged[0]];
      LastOf(pending);
      forall m | m !in Models(staged)
        ensures OpsOf(rest, m) == OpsOf(pending, m)
      {
        OpsOfOneMore(rest, last, m);
      }
    }
  }

  lemma StageMade(tests: Tests, pending: seq<Staged>, staged: seq<Staged>, scored: map<string, Value>, valid: Tests -> bool, kept: seq<Staged>)
    requires var candidate := Superseded(pending, staged);
      && ReplayEach(tests, candidate).Some? && valid(ReplayEach(tests, candidate).value)
      && var gone := WrittenOut(tests, ReplayEach(tests, candidate).value, Models(staged), scored);
         && ReplayEach(tests, Dropped(candidate, TreeOps(gone))).Some?
         && var back := PutBack(tests, ReplayEach(tests, Dropped(candidate, TreeOps(gone))).value, Models(staged));
            kept == Dropped(Dropped(candidate, TreeOps(gone)), OpsOn(back))
    ensures StagesRight(tests, BuiltOn(tests, pending, staged), staged, scored, valid, Some(kept))
  {
    hide StagesModel, BuiltOn, ReplayEach, Superseded, Dropped, WrittenOut, PutBack, OpsOf, Models;
    SupersededIs(tests, pending, staged);
    var whole := ReplayEach(tests, Superseded(pending, staged)).value;
    SettledStages(tests, pending, staged, scored, "");
    forall m
      ensures StagesModel(tests, whole, BuiltOn(tests, pending, staged), staged, scored, kept, m)
    {
      SettledStages(tests, pending, staged, scored, m);
      SameBase(tests, whole, pending, BuiltOn(tests, pending, staged), staged, scored, kept, m);
    }
  }

  lemma StageRefused(tests: Tests, pending: seq<Staged>, staged: seq<Staged>, scored: map<string, Value>, valid: Tests -> bool)
    requires var effective := ReplayEach(tests, Superseded(pending, staged)); effective.None? || !valid(effective.value)
    ensures StagesRight(tests, BuiltOn(tests, pending, staged), staged, scored, valid, None)
  {
    hide BuiltOn, ReplayEach, Superseded, OpsOf, Models;
    SupersededIs(tests, pending, staged);
  }

  /** The list without what is no edit: first the trees written out, then the models that are as saved. */
  function Settled(tests: Tests, candidate: seq<Staged>, models: set<string>, scored: map<string, Value>): seq<Staged>
  {
    var effective := ReplayEach(tests, candidate);
    var less := if effective.None? then candidate else Dropped(candidate, TreeOps(WrittenOut(tests, effective.value, models, scored)));
    var between := ReplayEach(tests, less);
    if between.None? then less else Dropped(less, OpsOn(PutBack(tests, between.value, models)))
  }

  lemma SameBase(tests: Tests, whole: Tests, pending: seq<Staged>, base: seq<Staged>, staged: seq<Staged>, scored: map<string, Value>, kept: seq<Staged>, m: string)
    requires ReplayEach(tests, kept).Some? && StagesModel(tests, whole, pending, staged, scored, kept, m)
    requires m !in Models(staged) ==> OpsOf(base, m) == OpsOf(pending, m)
    ensures StagesModel(tests, whole, base, staged, scored, kept, m)
  {}

  // ----- the ops of one stage, model by model ------------------------------------------------------------------------

  function StagedOf(model: string, ops: seq<Op>): (r: seq<Staged>)
    ensures |r| == |ops| && forall k :: 0 <= k < |ops| ==> r[k] == Staged(model, ops[k])
  {
    if ops == [] then [] else StagedOf(model, ops[..|ops| - 1]) + [Staged(model, ops[|ops| - 1])]
  }

  /** The ops of each group, the groups in their order. */
  function Flat(groups: seq<Group>): seq<Staged>
  {
    if groups == [] then [] else StagedOf(groups[0].model, groups[0].ops) + Flat(groups[1..])
  }

  lemma {:induction false} ReplayBeside(tests: Tests, a: seq<Staged>, b: seq<Staged>)
    ensures ReplayEach(tests, a + b) == if ReplayEach(tests, a).None? then None else ReplayEach(ReplayEach(tests, a).value, b)
  {
    if b == [] {
      assert a + b == a;
    } else {
      assert (a + b)[..|a + b| - 1] == a + b[..|b| - 1];
      ReplayBeside(tests, a, b[..|b| - 1]);
    }
  }

  lemma {:induction false} ReplayOfOne(tests: Tests, model: string, ops: seq<Op>)
    requires ops != []
    ensures ReplayEach(tests, StagedOf(model, ops)) == PatchModel(tests, model, ops)
  {
    var rest, last := ops[..|ops| - 1], ops[|ops| - 1];
    assert ops == rest + [last];
    var staged := StagedOf(model, ops);
    assert staged[..|staged| - 1] == StagedOf(model, rest);
    if rest == [] {
      assert ops == [last];
      assert ReplayEach(tests, staged[..0]) == Some(tests);
    } else {
      ReplayOfOne(tests, model, rest);
      PatchSplits(tests, model, rest, [last]);
    }
  }

  lemma {:induction false} ReplayOfGroups(tests: Tests, groups: seq<Group>)
    requires forall k :: 0 <= k < |groups| ==> groups[k].ops != []
    ensures ReplayEach(tests, Flat(groups)) == ReplayGroups(Some(tests), groups)
    decreases groups
  {
    if groups != [] {
      var g := groups[0];
      ReplayBeside(tests, StagedOf(g.model, g.ops), Flat(groups[1..]));
      ReplayOfOne(tests, g.model, g.ops);
      var next := PatchModel(tests, g.model, g.ops);
      if next.Some? {
        ReplayOfGroups(next.value, groups[1..]);
      } else {
        NoneStays(groups[1..]);
      }
    }
  }

  lemma {:induction false} GroupsHoldOps(staged: seq<Staged>)
    ensures forall k :: 0 <= k < |Grouped(staged)| ==> Grouped(staged)[k].ops != []
  {
    if staged != [] {
      GroupsHoldOps(staged[..|staged| - 1]);
    }
  }

  /** Staged model by model, the ops mean what they do in the order given. */
  lemma ModelByModelIsTheSame(tests: Tests, pending: seq<Staged>, ops: seq<Staged>)
    ensures ReplayEach(tests, pending + Flat(Grouped(ops))) == ReplayEach(tests, pending + ops)
  {
    ReplayBeside(tests, pending, ops);
    ReplayBeside(tests, pending, Flat(Grouped(ops)));
    if ReplayEach(tests, pending).Some? {
      var x := ReplayEach(tests, pending).value;
      GroupsHoldOps(ops);
      ReplayOfGroups(x, Grouped(ops));
      GroupedIsStaged(x, ops);
    }
  }

  predicate HasGroup(groups: seq<Group>, model: string)
  {
    exists k :: 0 <= k < |groups| && groups[k].model == model
  }

  lemma HasGroupHead(groups: seq<Group>, model: string)
    requires groups != []
    ensures HasGroup(groups, model) <==> groups[0].model == model || HasGroup(groups[1..], model)
  {
    if HasGroup(groups[1..], model) {
      var k :| 0 <= k < |groups[1..]| && groups[1..][k].model == model;
      assert groups[k + 1].model == model;
    }
  }

  lemma {:induction false} FlatModels(groups: seq<Group>, model: string)
    requires forall k :: 0 <= k < |groups| ==> groups[k].ops != []
    ensures model in Models(Flat(groups)) <==> HasGroup(groups, model)
  {
    if groups != [] {
      FlatModels(groups[1..], model);
      HasGroupHead(groups, model);
      var one := StagedOf(groups[0].model, groups[0].ops);
      assert one[0] == Staged(groups[0].model, groups[0].ops[0]);
      assert forall s :: s in Flat(groups) <==> s in one || s in Flat(groups[1..]);
      assert one[0] in Flat(groups);
    }
  }

  lemma HasGroupAdded(groups: seq<Group>, s: Staged, model: string)
    ensures HasGroup(AddTo(groups, s), model) <==> HasGroup(groups, model) || model == s.model
  {
    var i, after := GroupAt(groups, s.model), AddTo(groups, s);
    assert after[if i.None? then |groups| else i.value].model == s.model;
    if HasGroup(groups, model) {
      var k :| 0 <= k < |groups| && groups[k].model == model;
      assert after[k].model == model;
    }
  }

  lemma {:induction false} GroupedModels(ops: seq<Staged>, model: string)
    ensures model in Models(ops) <==> HasGroup(Grouped(ops), model)
  {
    if ops != [] {
      var rest, last := ops[..|ops| - 1], ops[|ops| - 1];
      GroupedModels(rest, model);
      HasGroupAdded(Grouped(rest), last, model);
      LastOf(ops);
      assert forall s :: s in ops <==> s in rest || s == last;
      hide HasGroup, Grouped, AddTo;
      assert model in Models(ops) <==> model in Models(rest) || model == last.model;
    }
  }

  lemma {:induction false} FlatBeside(a: seq<Group>, b: seq<Group>)
    ensures Flat(a + b) == Flat(a) + Flat(b)
  {
    if a == [] {
      assert a + b == b;
    } else {
      assert (a + b)[1..] == a[1..] + b;
      FlatBeside(a[1..], b);
    }
  }

  lemma {:induction false} FlatCount(ops: seq<Staged>)
    ensures |Flat(Grouped(ops))| == |ops|
  {
    if ops != [] {
      var groups, s := Grouped(ops[..|ops| - 1]), ops[|ops| - 1];
      FlatCount(ops[..|ops| - 1]);
      var i := GroupAt(groups, s.model);
      if i.None? {
        FlatBeside(groups, [Group(s.model, [s.op])]);
        FlatOne(Group(s.model, [s.op]));
      } else {
        var k, g := i.value, groups[i.value];
        var more := Group(s.model, g.ops + [s.op]);
        assert groups == groups[..k] + ([g] + groups[k + 1..]);
        assert AddTo(groups, s) == groups[..k] + ([more] + groups[k + 1..]);
        hide Flat, Grouped, StagedOf;
        FlatBeside(groups[..k], [g] + groups[k + 1..]);
        FlatBeside(groups[..k], [more] + groups[k + 1..]);
        FlatBeside([g], groups[k + 1..]);
        FlatBeside([more], groups[k + 1..]);
        FlatOne(g);
        FlatOne(more);
      }
    }
  }

  lemma FlatOne(g: Group)
    ensures Flat([g]) == StagedOf(g.model, g.ops) && |Flat([g])| == |g.ops|
  {
    assert [g][1..] == [] && StagedOf(g.model, g.ops) + [] == StagedOf(g.model, g.ops);
  }

  lemma GroupedOne(s: Staged)
    ensures Grouped([s]) == [Group(s.model, [s.op])]
  {
    assert [s][..0] == [];
    assert Grouped([s]) == AddTo(Grouped([]), s);
  }

  lemma StagedOne(s: Staged)
    ensures StagedOf(s.model, [s.op]) == [s]
  {
    var one := StagedOf(s.model, [s.op]);
    assert |one| == 1 && one[0] == s;
  }

  /** One op alone is staged as it is. */
  lemma OneIsItself(ops: seq<Staged>)
    requires |ops| == 1
    ensures Flat(Grouped(ops)) == ops
  {
    hide Grouped, Flat, StagedOf;
    assert ops == [ops[0]];
    GroupedOne(ops[0]);
    FlatOne(Group(ops[0].model, [ops[0].op]));
    StagedOne(ops[0]);
  }

  /** The new list and the ops it is made of, model by model, mean the same to a stage. */
  lemma StagesByModel(tests: Tests, pending: seq<Staged>, ops: seq<Staged>, scored: map<string, Value>, valid: Tests -> bool, kept: Option<seq<Staged>>)
    requires var staged := Flat(Grouped(ops)); StagesRight(tests, BuiltOn(tests, pending, staged), staged, scored, valid, kept)
    ensures StagesRight(tests, BuiltOn(tests, pending, ops), ops, scored, valid, kept)
  {
    var staged := Flat(Grouped(ops));
    FlatCount(ops);
    if |ops| == 1 {
      OneIsItself(ops);
    }
    assert BuiltOn(tests, pending, ops) == BuiltOn(tests, pending, staged);
    var base := BuiltOn(tests, pending, ops);
    ModelByModelIsTheSame(tests, base, ops);
    forall m
      ensures m in Models(ops) <==> m in Models(staged)
    {
      GroupedModels(ops, m);
      GroupsHoldOps(ops);
      FlatModels(Grouped(ops), m);
    }
    hide ReplayEach, BuiltOn, Grouped, Flat, Models, OpsOf, Tidied, Builds, SamePart, SameTree;
    if kept.Some? && ReplayEach(tests, kept.value).Some? {
      var whole := ReplayEach(tests, base + ops).value;
      forall m
        ensures StagesModel(tests, whole, base, ops, scored, kept.value, m)
      {
        assert StagesModel(tests, whole, base, staged, scored, kept.value, m);
      }
    }
  }

  /**
   * Stage some ops: the new document, or none when they are refused - the one
   * held is then as it was.  What of the new list is dropped is no edit.
   */
  method Stage(d: Document, ops: seq<Staged>, scored: map<string, Value>, valid: Tests -> bool) returns (r: Option<Document>)
    requires d.Valid()
    ensures r.Some? ==> fresh(r.value) && r.value.Valid() && r.value.loaded == d.loaded
    ensures StagesRight(d.loaded, BuiltOn(d.loaded, d.pending, ops), ops, scored, valid, if r.Some? then Some(r.value.pending) else None)
    ensures r.Some? ==> r.value.pending == Settled(d.loaded, Superseded(d.pending, Flat(Grouped(ops))), Models(Flat(Grouped(ops))), scored)
  {
    hide StagesModel, BuiltOn, ReplayEach, Superseded, Dropped, WrittenOut, PutBack, Models, Flat, Grouped, StagesRight;
    var groups := Gather(ops);
    var staged := Flat(groups);
    var candidate := Superseded(d.pending, staged);
    var effective := Replay(d.loaded, candidate);
    if effective.None? || !valid(effective.value) {
      StageRefused(d.loaded, d.pending, staged, scored, valid);
      StagesByModel(d.loaded, d.pending, ops, scored, valid, None);
      return None;
    }
    var kept, gone, back := Settle(d.loaded, candidate, Models(staged), scored);
    StageMade(d.loaded, d.pending, staged, scored, valid, kept);
    StagesByModel(d.loaded, d.pending, ops, scored, valid, Some(kept));
    var next := new Document(d.loaded, kept);
    r := Some(next);
  }

  function Models(staged: seq<Staged>): set<string>
  {
    set s | s in staged :: s.model
  }
}
