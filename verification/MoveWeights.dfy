/** What a move leaves of each group it does not remove: its fields, and the weight of each child. */
module MoveWeights {
  import opened Common
  import opened Tree
  import opened TreeEdits
  import opened TreeMove
  import opened MoveTheorems

  /** The child `c` of a `weighted` has the weight `w`. */
  predicate Weighs(row: Row, c: nat, w: real)
  {
    && row.Holds? && row.comb == Weighted && row.weights.Some?
    && exists i :: 0 <= i < |row.kids| && i < |row.weights.value| && row.kids[i] == c && row.weights.value[i] == w
  }

  /** One weight for each child. */
  predicate Parallel(row: Row)
  {
    row.Holds? && row.comb == Weighted ==> row.weights.Some? && |row.weights.value| == |row.kids|
  }

  /** The same object with other children: its own fields, and the weights of those not in `gone`. */
  ghost predicate Retouched(was: Row, now: Row, gone: set<nat>)
  {
    && Parallel(now)
    && (was.Criterion? ==> now == was)
    && (was.Holds? ==> now.Holds? && now.comb == was.comb && now.k == was.k && now.rest == was.rest)
    && forall c, w :: c !in gone && Weighs(was, c, w) ==> Weighs(now, c, w)
  }

  /** In the list that lost what was at `i`, what was at `a` is at `a` or one back. */
  lemma KeptWeighs(names: seq<nat>, weights: seq<real>, i: nat, a: nat)
    requires |names| == |weights| && i < |names| && a < |names| && a != i
    ensures var b := if a < i then a else a - 1;
      && |Without(names, i)| == |Without(weights, i)| == |names| - 1 && b < |names| - 1
      && Without(names, i)[b] == names[a] && Without(weights, i)[b] == weights[a]
  {}

  lemma DropRetouches(n: Node, i: nat)
    requires n.Group? && i < |n.kids| && Parallel(RowOf(n))
    ensures Retouched(RowOf(n), RowOf(DropKid(n, i)), {n.kids[i].id})
  {
    var was, now := RowOf(n), RowOf(DropKid(n, i));
    KidDropped(n, i);
    hide RowOf, DropKid, Without, Weighs, Parallel;
    DropParallel(was, now, i);
    forall c, w | c != n.kids[i].id && Weighs(was, c, w)
      ensures Weighs(now, c, w)
    {
      DropWeighs(was, now, i, c, w);
    }
  }

  /** The row of a group that lost the child `i`. */
  ghost predicate RowDropped(was: Row, now: Row, i: nat)
  {
    && was.Holds? && i < |was.kids| && Parallel(was)
    && now.Holds? && now.comb == was.comb && now.k == was.k && now.rest == was.rest
    && now.kids == Without(was.kids, i)
    && (was.comb == Weighted ==> now.weights == Some(Without(was.weights.value, i)))
  }

  lemma KidDropped(n: Node, i: nat)
    requires n.Group? && i < |n.kids| && Parallel(RowOf(n))
    ensures RowDropped(RowOf(n), RowOf(DropKid(n, i)), i) && RowOf(n).kids[i] == n.kids[i].id
  {
    DropNames(n, i);
    hide Without;
  }

  lemma DropParallel(was: Row, now: Row, i: nat)
    requires RowDropped(was, now, i)
    ensures Parallel(now)
  {}

  lemma DropWeighs(was: Row, now: Row, i: nat, c: nat, w: real)
    requires RowDropped(was, now, i) && c != was.kids[i] && Weighs(was, c, w)
    ensures Weighs(now, c, w)
  {
    var a :| 0 <= a < |was.kids| && a < |was.weights.value| && was.kids[a] == c && was.weights.value[a] == w;
    KeptWeighs(was.kids, was.weights.value, i, a);
  }

  lemma AddedNames(n: Node, at: nat, m: Node, weight: real)
    requires n.Group? && at <= |n.kids|
    ensures AddKid(n, at, m, weight).Group? && Names(AddKid(n, at, m, weight).kids) == Inserted(Names(n.kids), at, m.id)
  {
    var kids, names := AddKid(n, at, m, weight).kids, Inserted(Names(n.kids), at, m.id);
    InsertedIs(n.kids, at, m);
    InsertedIs(Names(n.kids), at, m.id);
    forall k | 0 <= k < |kids|
      ensures Names(kids)[k] == names[k]
    {
      assert k < at ==> kids[k] == n.kids[k];
      assert k > at ==> kids[k] == n.kids[k - 1];
    }
  }

  /** In the list that got `m` at `at`, what was at `i` is at `i` or one on. */
  lemma StillWeighs(names: seq<nat>, weights: seq<real>, at: nat, m: nat, weight: real, i: nat)
    requires |names| == |weights| && at <= |names| && i <= |names|
    ensures var b := if i < at then i else i + 1;
      && |Inserted(names, at, m)| == |Inserted(weights, at, weight)| == |names| + 1
      && Inserted(names, at, m)[at] == m && Inserted(weights, at, weight)[at] == weight
      && (i < |names| ==> Inserted(names, at, m)[b] == names[i] && Inserted(weights, at, weight)[b] == weights[i])
  {
    InsertedIs(names, at, m);
    InsertedIs(weights, at, weight);
  }

  lemma AddRetouches(n: Node, at: nat, m: Node, weight: real)
    requires n.Group? && at <= |n.kids| && Parallel(RowOf(n))
    ensures Retouched(RowOf(n), RowOf(AddKid(n, at, m, weight)), {})
    ensures n.comb == Weighted ==> Weighs(RowOf(AddKid(n, at, m, weight)), m.id, weight)
  {
    AddedNames(n, at, m, weight);
    var was, now := RowOf(n), RowOf(AddKid(n, at, m, weight));
    hide Inserted;
    if n.comb == Weighted {
      var names, weights := Names(n.kids), n.weights.value;
      StillWeighs(names, weights, at, m.id, weight, at);
      forall c, w | Weighs(was, c, w)
        ensures Weighs(now, c, w)
      {
        var a :| 0 <= a < |was.kids| && a < |was.weights.value| && was.kids[a] == c && was.weights.value[a] == w;
        StillWeighs(names, weights, at, m.id, weight, a);
      }
    }
  }

  lemma WrapRetouches(n: Node, at: nat, newId: nat, m: Node, w: real)
    requires n.Group? && at < |n.kids| && Parallel(RowOf(n)) && Unique(n.kids)
    ensures Retouched(RowOf(n), RowOf(WrapKid(n, at, newId, m)), {n.kids[at].id})
    ensures Weighs(RowOf(n), n.kids[at].id, w) ==> Weighs(RowOf(WrapKid(n, at, newId, m)), newId, w)
  {
    var was, now := RowOf(n), RowOf(WrapKid(n, at, newId, m));
    forall c, v | Weighs(was, c, v)
      ensures Weighs(now, if c == n.kids[at].id then newId else c, v)
    {
      var a :| 0 <= a < |was.kids| && a < |was.weights.value| && was.kids[a] == c && was.weights.value[a] == v;
      if c == n.kids[at].id && a != at {
        KidsDiffer(n.kids, a, at);
      }
      assert now.kids[a] == (if c == n.kids[at].id then newId else c) && now.weights.value[a] == v;
    }
  }

  // ----- the repairs -----------------------------------------------------------------------------

  /** A child that stays keeps its place among the kept weights. */
  lemma {:induction false} KeptWeightOf(kids: seq<Node>, weights: seq<real>, i: nat) returns (j: nat)
    requires |kids| == |weights| && i < |kids| && Leaves([kids[i]]) != []
    ensures j < |Tidy(kids)| == |KeptWeights(kids, weights)| && Tidy(kids)[j].id == kids[i].id && KeptWeights(kids, weights)[j] == weights[i]
  {
    KeptParallel(kids[1..], weights[1..]);
    if i == 0 {
      j := 0;
    } else {
      var k := KeptWeightOf(kids[1..], weights[1..], i - 1);
      j := if Leaves([kids[0]]) == [] then k else k + 1;
    }
  }

  lemma {:induction false} KeptParallel(kids: seq<Node>, weights: seq<real>)
    requires |kids| == |weights|
    ensures |Tidy(kids)| == |KeptWeights(kids, weights)|
  {
    if kids != [] {
      KeptParallel(kids[1..], weights[1..]);
    }
  }

  lemma {:induction false} TidyNames(kids: seq<Node>, c: nat)
    requires c in Names(Tidy(kids))
    ensures exists i :: 0 <= i < |kids| && kids[i].id == c && Leaves([kids[i]]) != []
  {
    if Leaves([kids[0]]) != [] && kids[0].id == c {
    } else {
      assert c in Names(Tidy(kids[1..]));
      TidyNames(kids[1..], c);
      var i :| 0 <= i < |kids[1..]| && kids[1..][i].id == c && Leaves([kids[1..][i]]) != [];
      assert kids[i + 1].id == c;
    }
  }

  /** The repair of one group: a `k` no more than its children, the weights of those that stay. */
  lemma TidyRetouches(n: Node, c: nat, w: real)
    requires n.Group? && Unique(n.kids) && Parallel(RowOf(n)) && c in Names(Tidy(n.kids)) && Weighs(RowOf(n), c, w)
    ensures Weighs(RowOf(TidyNode(n)), c, w)
  {
    TidyNames(n.kids, c);
    var i :| 0 <= i < |n.kids| && n.kids[i].id == c && Leaves([n.kids[i]]) != [];
    var row := RowOf(n);
    var a :| 0 <= a < |row.kids| && a < |row.weights.value| && row.kids[a] == c && row.weights.value[a] == w;
    if a != i {
      KidsDiffer(n.kids, a, i);
    }
    var j := KeptWeightOf(n.kids, n.weights.value, i);
    assert RowOf(TidyNode(n)).kids[j] == c && RowOf(TidyNode(n)).weights.value[j] == w;
  }

  // ----- the whole move ----------------------------------------------------------------------------

  lemma WellIsParallel(ks: seq<Node>, id: nat)
    requires Well(ks) && id in Ids(ks)
    ensures Parallel(At(ks, id))
  {
    WellMeans(ks);
    FoundIsWell(ks, id, {});
  }

  lemma RetouchedTwice(a: Row, b: Row, c: Row, x: set<nat>, y: set<nat>)
    requires Retouched(a, b, x) && Retouched(b, c, y)
    ensures Retouched(a, c, x + y)
  {}

  lemma Untouched(a: Row)
    requires Parallel(a)
    ensures Retouched(a, a, {})
  {}

  lemma FewerGone(a: Row, b: Row, x: set<nat>, y: set<nat>)
    requires Retouched(a, b, x) && x <= y
    ensures Retouched(a, b, y)
  {}

  /** Out: every object that stays has its fields, and its children but the moved one their weights. */
  lemma OutRow(ks: seq<Node>, src: Path, g: nat)
    requires Unique(ks) && Well(ks) && |src| > 1 && NodeAt(ks, src).Some? && g in Ids(ks) && g !in Ids([NodeAt(ks, src).value])
    ensures NodeAt(ks, Above(src)).Some?
    ensures var out := Edit(ks, NodeAt(ks, Above(src)).value.id, Dropping(Last(src)));
      g in Ids(out) && Retouched(At(ks, g), At(out, g), {NodeAt(ks, src).value.id})
  {
    hide Unique, Find, Ids, Edit, NodeAt, Well, Weighs, Retouched, Parallel, DropKid;
    SourceIs(ks, src);
    var up, i := NodeAt(ks, Above(src)).value, Last(src);
    DropHolds(ks, up.id, i);
    WellIsParallel(ks, g);
    if g == up.id {
      DropRetouches(up, i);
    } else {
      DropRow(ks, up.id, i, g);
      Untouched(At(ks, g));
      FewerGone(At(ks, g), At(ks, g), {}, {NodeAt(ks, src).value.id});
    }
  }

  /** In, into a group: the moved node has the weight it brings, every other object is as it was. */
  lemma InRow(out: seq<Node>, into: nat, at: nat, m: Node, weight: real, g: nat)
    requires Unique(out) && into in Ids(out) && Unique([m]) && Ids(out) !! Ids([m]) && g in Ids(out)
    requires var t := Find(out, into).value; t.Group? && at <= |t.kids|
    requires Parallel(At(out, g))
    ensures var after := Edit(out, into, Adding(at, m, weight));
      && g in Ids(after) && Retouched(At(out, g), At(after, g), {})
      && (g == into && Find(out, into).value.comb == Weighted ==> Weighs(At(after, g), m.id, weight))
  {
    hide Unique, Find, Ids, Edit, Weighs, Retouched, Parallel, AddKid;
    var t := Find(out, into).value;
    AddHolds(out, into, at, m, weight);
    if g == into {
      AddRetouches(t, at, m, weight);
    } else {
      FoundIsInside(out, into);
      AddKidHolds(t, at, m, weight);
      if g in Ids([t]) {
        FoundAfterAdd(t, at, m, weight, g);
      }
      GrowRow(out, into, Adding(at, m, weight), g);
      Untouched(At(out, g));
    }
  }

  /** In, onto a criterion: the pair has the criterion's weight. */
  lemma OntoRow(out: seq<Node>, holder: nat, at: nat, newId: nat, m: Node, g: nat, w: real)
    requires Unique(out) && holder in Ids(out) && Unique([m]) && Ids(out) !! Ids([m]) && newId !in Ids(out) + Ids([m]) && g in Ids(out)
    requires var t := Find(out, holder).value; t.Group? && at < |t.kids|
    requires Parallel(At(out, g))
    ensures var after := Edit(out, holder, Wrapping(at, newId, m)); var target := Find(out, holder).value.kids[at].id;
      && g in Ids(after) && Retouched(At(out, g), At(after, g), {target})
      && (g == holder && Weighs(At(out, g), target, w) ==> Weighs(At(after, g), newId, w))
  {
    hide Unique, Find, Ids, Edit, Weighs, Retouched, Parallel, WrapKid;
    var t := Find(out, holder).value;
    WrapHolds(out, holder, at, newId, m);
    FoundIsInside(out, holder);
    Headed([t]);
    if g == holder {
      WrapRetouches(t, at, newId, m, w);
    } else {
      WrapKidHolds(t, at, newId, m);
      if g in Ids([t]) {
        FoundAfterWrap(t, at, newId, m, g);
      }
      GrowRow(out, holder, Wrapping(at, newId, m), g);
      Untouched(At(out, g));
      FewerGone(At(out, g), At(out, g), {}, {t.kids[at].id});
    }
  }

  /** The object `g` before and after, tidied: its fields, its `k` as far as its children go, its children's weights. */
  ghost predicate KeptRow(was: Row, now: Row, gone: set<nat>)
  {
    && (was.Criterion? ==> now == was)
    && (was.Holds? ==>
          && now.Holds? && now.comb == was.comb && now.rest == was.rest
          && now.k == (if was.comb == KOfN && was.k.Some? && was.k.value > |now.kids| then Some(|now.kids|) else was.k)
          && forall c, w :: c in now.kids && c !in gone && Weighs(was, c, w) ==> Weighs(now, c, w))
  }

  lemma TidyRow(was: Row, moved: seq<Node>, g: nat, gone: set<nat>)
    requires Unique(moved) && g in Ids(Tidy(moved)) && g in Ids(moved) && Retouched(was, At(moved, g), gone)
    ensures KeptRow(was, At(Tidy(moved), g), gone)
    ensures forall c, w :: At(moved, g).Holds? && c in At(Tidy(moved), g).kids && Weighs(At(moved, g), c, w) ==> Weighs(At(Tidy(moved), g), c, w)
  {
    hide Unique, Ids, Find, Weighs, Tidy;
    TidyFind(moved, g);
    FoundIsInside(moved, g);
    var n := Find(moved, g).value;
    Headed([n]);
    if n.Group? {
      TidyHoldsOne(n, g, moved);
      TidyNodeFields(n);
      forall c, w | c in Names(Tidy(n.kids)) && Weighs(RowOf(n), c, w)
        ensures Weighs(RowOf(TidyNode(n)), c, w)
      {
        TidyRetouches(n, c, w);
      }
    }
  }

  /** A group that stays has a child that stays. */
  lemma TidyHoldsOne(n: Node, g: nat, moved: seq<Node>)
    requires n.Group? && Unique(moved) && g in Ids(Tidy(moved)) && g in Ids(moved) && Find(moved, g) == Some(n)
    ensures Tidy(n.kids) != []
  {
    TidyFind(moved, g);
    TidyLeaves(n.kids);
    Headed([n]);
  }

  lemma TidyNodeFields(n: Node)
    requires n.Group? && Tidy(n.kids) != []
    ensures var r := TidyNode(n);
      && r.Group? && r.comb == n.comb && r.rest == n.rest && r.kids == Tidy(n.kids)
      && r.k == if n.comb == KOfN && n.k.Some? && n.k.value > |Tidy(n.kids)| then Some(|Tidy(n.kids)|) else n.k
  {}

  /** Out, then in: the object `g` before the move and once the node is in a group. */
  lemma AddedRow(was: Row, out: seq<Node>, into: nat, at: nat, m: Node, weight: real, g: nat)
    requires Unique(out) && into in Ids(out) && Unique([m]) && Ids(out) !! Ids([m]) && g in Ids(out)
    requires var t := Find(out, into).value; t.Group? && at <= |t.kids|
    requires Retouched(was, At(out, g), {m.id})
    ensures var after := Edit(out, into, Adding(at, m, weight));
      && Unique(after) && g in Ids(after) && Retouched(was, At(after, g), {m.id})
      && (g == into && was.Holds? && was.comb == Weighted ==> Weighs(At(after, g), m.id, weight))
  {
    hide Unique, Find, Ids, Edit, Weighs, Parallel, AddKid;
    InRow(out, into, at, m, weight, g);
    AddHolds(out, into, at, m, weight);
    RetouchedTwice(was, At(out, g), At(Edit(out, into, Adding(at, m, weight)), g), {m.id}, {});
    assert {m.id} + {} == {m.id};
    if g == into && was.Holds? && was.comb == Weighted {
      SameComb(was, out, into, m.id);
    }
  }

  /** Out, then beside the criterion: the same for a pair. */
  lemma WrappedRow(was: Row, out: seq<Node>, holder: nat, at: nat, newId: nat, m: Node, g: nat, w: real)
    requires Unique(out) && holder in Ids(out) && Unique([m]) && Ids(out) !! Ids([m]) && newId !in Ids(out) + Ids([m]) && g in Ids(out)
    requires var t := Find(out, holder).value; t.Group? && at < |t.kids|
    requires Retouched(was, At(out, g), {m.id}) && Find(out, holder).value.kids[at].id != m.id
    ensures var after := Edit(out, holder, Wrapping(at, newId, m)); var target := Find(out, holder).value.kids[at].id;
      && Unique(after) && g in Ids(after) && Retouched(was, At(after, g), {m.id, target})
      && (g == holder && Weighs(was, target, w) ==> Weighs(At(after, g), newId, w))
  {
    hide Unique, Find, Ids, Edit, Weighs, Parallel, WrapKid;
    var target := Find(out, holder).value.kids[at].id;
    OntoRow(out, holder, at, newId, m, g, w);
    WrapHolds(out, holder, at, newId, m);
    RetouchedTwice(was, At(out, g), At(Edit(out, holder, Wrapping(at, newId, m)), g), {m.id}, {target});
    assert {m.id} + {target} == {m.id, target};
  }

  /** The object `g` once the node is out and in a group, before any repair. */
  lemma IntoRow(ks: seq<Node>, src: Path, dest: Dest, newId: nat, g: nat)
    requires Planned(ks, src, dest, newId) && NodeAt(ks, dest.path).value.Group?
    requires g in Ids(ks) && g !in Ids([NodeAt(ks, src).value])
    ensures NodeAt(ks, Above(src)).Some?
    ensures var moved, target, m := Relocated(ks, src, dest, newId), NodeAt(ks, dest.path).value, NodeAt(ks, src).value;
      && Unique(moved) && g in Ids(moved) && Retouched(At(ks, g), At(moved, g), {m.id})
      && (g == target.id && target.comb == Weighted ==> Weighs(At(moved, g), m.id, Brings(NodeAt(ks, Above(src)).value, Last(src), target.id)))
  {
    PutIsBeforeTheAnchor(ks, src, dest, newId);
    var target, m, at := NodeAt(ks, dest.path).value, NodeAt(ks, src).value, PutAt(ks, src, dest);
    hide Unique, Find, Ids, Edit, NodeAt, SamePlace, Relocated, PutAt, Well, Weighs, Parallel, Brings, Anchor, AtAnchor, Retouched, DropKid, Leaves, LeftOf, RightOf;
    SourceIs(ks, src);
    var up, i := NodeAt(ks, Above(src)).value, Last(src);
    DropHolds(ks, up.id, i);
    OutRow(ks, src, g);
    AddedRow(At(ks, g), Edit(ks, up.id, Dropping(i)), target.id, at, m, Brings(up, i, target.id), g);
  }

  /** The object `g` once the node is out and paired with a criterion, before any repair. */
  lemma OntoMovedRow(ks: seq<Node>, src: Path, dest: Dest, newId: nat, g: nat, w: real)
    requires Planned(ks, src, dest, newId) && NodeAt(ks, dest.path).value.Leaf?
    requires g in Ids(ks) && g !in Ids([NodeAt(ks, src).value])
    ensures |dest.path| > 1 && NodeAt(ks, Above(dest.path)).Some?
    ensures var moved, target, m := Relocated(ks, src, dest, newId), NodeAt(ks, dest.path).value, NodeAt(ks, src).value;
      && Unique(moved) && g in Ids(moved) && Retouched(At(ks, g), At(moved, g), {m.id, target.id})
      && (g == NodeAt(ks, Above(dest.path)).value.id && Weighs(At(ks, g), target.id, w) ==> Weighs(At(moved, g), newId, w))
  {
    TidyLandsOnto(ks, src, dest, newId);
    HolderIs(ks, src, dest, newId);
    var target, m, holder := NodeAt(ks, dest.path).value, NodeAt(ks, src).value, NodeAt(ks, Above(dest.path)).value;
    hide Unique, Find, Ids, Edit, NodeAt, SamePlace, Tidy, Relocated, Well, Weighs, Parallel, PlaceOf, Retouched, DropKid, Leaves, LeftOf, RightOf;
    SourceIs(ks, src);
    var up, i := NodeAt(ks, Above(src)).value, Last(src);
    var out := Edit(ks, up.id, Dropping(i));
    DropHolds(ks, up.id, i);
    OutRow(ks, src, g);
    WrappedRow(At(ks, g), out, holder.id, PlaceOf(out, holder.id, target.id), newId, m, g, w);
  }

  lemma TidyIntoKeeps(ks: seq<Node>, src: Path, dest: Dest, newId: nat, g: nat)
    requires Planned(ks, src, dest, newId) && NodeAt(ks, dest.path).value.Group?
    requires g in Ids(ks) && g !in Ids([NodeAt(ks, src).value]) && g in Ids(Tidy(Relocated(ks, src, dest, newId)))
    ensures NodeAt(ks, Above(src)).Some?
    ensures var after, target, m := Tidy(Relocated(ks, src, dest, newId)), NodeAt(ks, dest.path).value, NodeAt(ks, src).value;
      && KeptRow(At(ks, g), At(after, g), {m.id})
      && (g == target.id && target.comb == Weighted ==> Weighs(At(after, g), m.id, Brings(NodeAt(ks, Above(src)).value, Last(src), target.id)))
  {
    TidyLandsInto(ks, src, dest, newId);
    hide Unique, Find, Ids, NodeAt, SamePlace, Tidy, Relocated, Well, Weighs, KeptRow, Retouched, Brings, Lands, NamesLeft;
    var target, m, moved := NodeAt(ks, dest.path).value, NodeAt(ks, src).value, Relocated(ks, src, dest, newId);
    IntoRow(ks, src, dest, newId, g);
    TidyRow(At(ks, g), moved, g, {m.id});
    if g == target.id && target.comb == Weighted {
      LandsIn(Find(Tidy(moved), g).value.kids, NamesLeft(ks, src, target), m, dest, target);
      WeighsHolds(At(moved, g), m.id, Brings(NodeAt(ks, Above(src)).value, Last(src), target.id));
    }
  }

  /** The node's weight in its own group is the one at its place. */
  lemma OwnWeight(ks: seq<Node>, src: Path, w: real)
    requires Unique(ks) && |src| > 1 && NodeAt(ks, src).Some?
    ensures NodeAt(ks, Above(src)).Some?
    ensures var up := NodeAt(ks, Above(src)).value;
      Weighs(RowOf(up), NodeAt(ks, src).value.id, w) ==> Brings(up, Last(src), up.id) == w
  {
    SourceIs(ks, src);
    GroupUnique(ks, Above(src));
    var up, i, m := NodeAt(ks, Above(src)).value, Last(src), NodeAt(ks, src).value;
    hide NodeAt, Unique;
    if Weighs(RowOf(up), m.id, w) {
      var row := RowOf(up);
      var a :| 0 <= a < |row.kids| && a < |row.weights.value| && row.kids[a] == m.id && row.weights.value[a] == w;
      if a != i {
        KidsDiffer(up.kids, a, i);
      }
    }
  }

  /**
   * Into a group: every group that stays keeps its fields and its children's
   * weights.  The node keeps its weight in its own group, and has 1 in another.
   */
  lemma MoveIntoKeepsGroups(ks: seq<Node>, src: Path, dest: Dest, newId: nat, after: seq<Node>, g: nat)
    requires Planned(ks, src, dest, newId) && NodeAt(ks, dest.path).value.Group? && Makes(ks, src, dest, newId, after)
    requires g in Ids(ks) && g !in Ids([NodeAt(ks, src).value]) && g in Ids(after)
    ensures NodeAt(ks, Above(src)).Some?
    ensures var target, m := NodeAt(ks, dest.path).value, NodeAt(ks, src).value;
      && KeptRow(At(ks, g), At(after, g), {m.id})
      && (g == target.id && target.comb == Weighted ==>
            if dest.path == Above(src) then forall w :: Weighs(At(ks, g), m.id, w) ==> Weighs(At(after, g), m.id, w)
            else Weighs(At(after, g), m.id, 1.0))
  {
    hide Unique, Find, Ids, NodeAt, SamePlace, Tidy, Relocated, Well, Weighs, KeptRow;
    TidyIntoKeeps(ks, src, dest, newId, g);
    SourceIs(ks, src);
    var up, target, m := NodeAt(ks, Above(src)).value, NodeAt(ks, dest.path).value, NodeAt(ks, src).value;
    OnePath(ks, dest.path);
    OnePath(ks, Above(src));
    if g == target.id && target.comb == Weighted && dest.path == Above(src) {
      forall w | Weighs(At(ks, g), m.id, w)
        ensures Weighs(At(after, g), m.id, w)
      {
        OwnWeight(ks, src, w);
      }
    }
  }

  lemma WeighsHolds(row: Row, c: nat, w: real)
    requires Weighs(row, c, w)
    ensures row.Holds?
  {}

  lemma SameComb(was: Row, out: seq<Node>, into: nat, m: nat)
    requires into in Ids(out) && Find(out, into).Some? && was.Holds? && Retouched(was, At(out, into), {m})
    ensures Find(out, into).value.Group? && Find(out, into).value.comb == was.comb
  {}

  lemma LandsIn(kids: seq<Node>, names: seq<nat>, m: Node, dest: Dest, target: Node)
    requires target.Group? && Lands(kids, names, m, dest, target)
    ensures m.id in Names(kids)
  {
    var l, r :| LandsBetween(kids, names, m, l, r) && Before(dest, target, r);
    NamedAt(kids, l, m, r);
  }

  lemma NamedAt(kids: seq<Node>, l: seq<Node>, m: Node, r: seq<Node>)
    requires kids == Tidy(l) + [m] + Tidy(r)
    ensures m.id in Names(kids)
  {
    assert kids[|Tidy(l)|] == m;
    assert Names(kids)[|Tidy(l)|] == m.id;
  }

  lemma LandsOnIn(kids: seq<Node>, names: seq<nat>, target: nat, both: Node)
    requires LandsOn(kids, names, target, both)
    ensures both.id in Names(kids)
  {
    var l, r :| LandsOnBetween(kids, names, target, both, l, r);
    NamedAt(kids, l, both, r);
  }

  /** Onto a criterion: every group that stays keeps its fields and its children's weights; the pair has the criterion's. */
  lemma MoveOntoKeepsGroups(ks: seq<Node>, src: Path, dest: Dest, newId: nat, after: seq<Node>, g: nat, w: real)
    requires Planned(ks, src, dest, newId) && NodeAt(ks, dest.path).value.Leaf? && Makes(ks, src, dest, newId, after)
    requires g in Ids(ks) && g !in Ids([NodeAt(ks, src).value]) && g in Ids(after)
    ensures |dest.path| > 1 && NodeAt(ks, Above(dest.path)).Some?
    ensures var target, m := NodeAt(ks, dest.path).value, NodeAt(ks, src).value;
      && KeptRow(At(ks, g), At(after, g), {m.id, target.id})
      && (g == NodeAt(ks, Above(dest.path)).value.id && Weighs(At(ks, g), target.id, w) ==> Weighs(At(after, g), newId, w))
  {
    OntoMovedRow(ks, src, dest, newId, g, w);
    hide Unique, Find, Ids, NodeAt, SamePlace, Tidy, Relocated, Well, Weighs, KeptRow, Retouched, LandsOn, NamesLeft;
    var target, m, moved := NodeAt(ks, dest.path).value, NodeAt(ks, src).value, Relocated(ks, src, dest, newId);
    TidyRow(At(ks, g), moved, g, {m.id, target.id});
    var holder := NodeAt(ks, Above(dest.path)).value;
    if g == holder.id && Weighs(At(ks, g), target.id, w) {
      TidyLandsOnto(ks, src, dest, newId);
      LandsOnIn(Find(Tidy(moved), g).value.kids, NamesLeft(ks, src, holder), target.id, Pair(newId, target, m));
      WeighsHolds(At(moved, g), newId, w);
    }
  }

  /** The wrapped criterion's group, and its place in it once the node is out. */
  lemma HolderIs(ks: seq<Node>, src: Path, dest: Dest, newId: nat)
    requires Planned(ks, src, dest, newId) && NodeAt(ks, dest.path).value.Leaf?
    requires |dest.path| > 1 && NodeAt(ks, Above(dest.path)).Some?
    ensures NodeAt(ks, Above(src)).Some?
    ensures var holder, target, m := NodeAt(ks, Above(dest.path)).value.id, NodeAt(ks, dest.path).value, NodeAt(ks, src).value;
      var out := Edit(ks, NodeAt(ks, Above(src)).value.id, Dropping(Last(src)));
      var at := PlaceOf(out, holder, target.id);
      && holder in Ids(out) && Find(out, holder).value.Group? && at < |Find(out, holder).value.kids|
      && Find(out, holder).value.kids[at].id == target.id && target.id != m.id
      && Relocated(ks, src, dest, newId) == Edit(out, holder, Wrapping(at, newId, m))
  {
    hide Unique, Find, Ids, Edit, NodeAt;
    SourceIs(ks, src);
    SourceIs(ks, dest.path);
    var up, i, m, target := NodeAt(ks, Above(src)).value, Last(src), NodeAt(ks, src).value, NodeAt(ks, dest.path).value;
    var holder := NodeAt(ks, Above(dest.path)).value;
    if target.id in Ids([m]) {
      InsideHasPrefix(ks, src, dest.path);
    }
    if holder.id in Ids([m]) {
      KidInside(ks, m.id, holder.id, target.id);
    }
    FoundIsInside(ks, m.id);
    PlaceAfterDrop(ks, up.id, i, holder.id, target.id);
  }
}
