/**
 * Moving a subtree of a criteria tree: the whole new tree, or why not.
 *
 * `PlanMove` changes a copy object by object, as the program does; its result is
 * related to `Tidy`, one function over the whole tree that knows no path.
 */
module TreeMove {
  import opened Common
  import opened Tree
  import opened TreeEdits
  import opened Verdicts

  // ----- the ancestors of the source, through the edits -----------------------------------------

  lemma ChainMembers(ks: seq<Node>, chain: seq<nat>, a: nat)
    requires IsChain(ks, chain) && a < |chain|
    ensures chain[a] in Ids(ks) && At(ks, chain[a]).Holds?
  {
    if a > 0 {
      assert IsKid(ks, chain[(a - 1) + 1], chain[a - 1]);
    }
  }

  /** A child of what is inside a node is inside it. */
  lemma KidInside(ks: seq<Node>, id: nat, p: nat, c: nat)
    requires Unique(ks) && id in Ids(ks) && IsKid(ks, p, c) && p in Ids([Find(ks, id).value])
    ensures c in Ids([Find(ks, id).value])
  {
    hide Unique, Find, Ids;
    var m := Find(ks, id).value;
    FoundInFound(ks, id, p);
    FoundIsInside(ks, id);
    var n := Find(ks, p).value;
    FoundIsInside([m], p);
    Headed([n]);
    var a: nat :| a < |n.kids| && Names(n.kids)[a] == c;
    KidsApart(n.kids, a);
    Headed([n.kids[a]]);
  }

  /** No ancestor of a node is in it. */
  lemma {:induction false} ChainOutside(ks: seq<Node>, chain: seq<nat>, id: nat, a: nat)
    requires Unique(ks) && IsChain(ks, chain) && a < |chain|
    requires id in Ids(ks) && chain[0] !in Ids([Find(ks, id).value])
    ensures chain[a] !in Ids([Find(ks, id).value])
  {
    if a > 0 {
      ChainOutside(ks, chain, id, a - 1);
      assert IsKid(ks, chain[(a - 1) + 1], chain[a - 1]);
      if chain[a] in Ids([Find(ks, id).value]) {
        KidInside(ks, id, chain[a], chain[a - 1]);
      }
    }
  }

  lemma ChainThroughDrop(ks: seq<Node>, chain: seq<nat>, i: nat)
    requires Unique(ks) && IsChain(ks, chain)
    requires var n := Find(ks, chain[0]).value; n.Group? && i < |n.kids|
    ensures IsChain(Edit(ks, chain[0], Dropping(i)), chain)
    ensures forall a :: 0 <= a < |chain| ==> chain[a] !in Ids([Find(ks, chain[0]).value.kids[i]])
  {
    hide Ids, Unique, Edit, Find, At;
    var up := chain[0];
    var after, kid := Edit(ks, up, Dropping(i)), Find(ks, up).value.kids[i];
    DropHolds(ks, up, i);
    KidIsFound(ks, up, i);
    forall a | 0 <= a < |chain|
      ensures chain[a] !in Ids([kid])
    {
      ChainOutside(ks, chain, kid.id, a);
    }
    assert kid.id in Ids([kid]) by { Headed([kid]); }
    forall a | 0 <= a < |chain| - 1
      ensures IsKid(after, chain[a + 1], chain[a])
    {
      DropKids(ks, up, i, chain[a + 1], chain[a]);
    }
    EditRoot(ks, up, Dropping(i));
    assert At(after, up).Holds? by { HoldsIf(after, up); }
  }

  lemma HoldsIf(ks: seq<Node>, id: nat)
    requires id in Ids(ks)
    ensures At(ks, id).Holds? <==> Find(ks, id).value.Group?
    ensures At(ks, id).Holds? ==> At(ks, id).kids == Names(Find(ks, id).value.kids)
  {}

  lemma AddNames(n: Node, at: nat, m: Node, weight: real, c: nat)
    requires n.Group? && at <= |n.kids| && c in Names(n.kids)
    ensures AddKid(n, at, m, weight).Group? && c in Names(AddKid(n, at, m, weight).kids)
  {
    var n' := AddKid(n, at, m, weight);
    var a: nat :| a < |n.kids| && Names(n.kids)[a] == c;
    var b := if a < at then a else a + 1;
    assert n'.kids[b] == n.kids[a];
    assert Names(n'.kids)[b] == c;
  }

  lemma AddKeepsKids(ks: seq<Node>, into: nat, at: nat, m: Node, weight: real, p: nat, c: nat)
    requires Unique(ks) && into in Ids(ks) && Unique([m]) && Ids(ks) !! Ids([m]) && IsKid(ks, p, c)
    requires var n := Find(ks, into).value; n.Group? && at <= |n.kids|
    ensures IsKid(Edit(ks, into, Adding(at, m, weight)), p, c)
  {
    hide Ids, Unique, Edit, Find, AddKid;
    var n := Find(ks, into).value;
    AddHolds(ks, into, at, m, weight);
    FoundIsInside(ks, into);
    AddKidHolds(n, at, m, weight);
    if p == into {
      AddNames(n, at, m, weight, c);
    } else {
      if p in Ids([n]) {
        FoundAfterAdd(n, at, m, weight, p);
      }
      GrowRow(ks, into, Adding(at, m, weight), p);
    }
  }

  lemma ChainThroughAdd(ks: seq<Node>, chain: seq<nat>, into: nat, at: nat, m: Node, weight: real)
    requires Unique(ks) && IsChain(ks, chain) && into in Ids(ks) && Unique([m]) && Ids(ks) !! Ids([m])
    requires var n := Find(ks, into).value; n.Group? && at <= |n.kids|
    ensures IsChain(Edit(ks, into, Adding(at, m, weight)), chain)
  {
    hide Ids, Unique, Edit, Find, At;
    var after := Edit(ks, into, Adding(at, m, weight));
    AddHolds(ks, into, at, m, weight);
    forall a | 0 <= a < |chain| - 1
      ensures IsKid(after, chain[a + 1], chain[a])
    {
      AddKeepsKids(ks, into, at, m, weight, chain[a + 1], chain[a]);
    }
    EditRoot(ks, into, Adding(at, m, weight));
    AddKeepsGroup(ks, into, at, m, weight, chain[0]);
  }

  lemma AddKeepsGroup(ks: seq<Node>, into: nat, at: nat, m: Node, weight: real, p: nat)
    requires Unique(ks) && into in Ids(ks) && Unique([m]) && Ids(ks) !! Ids([m]) && p in Ids(ks) && At(ks, p).Holds?
    requires var n := Find(ks, into).value; n.Group? && at <= |n.kids|
    ensures p in Ids(Edit(ks, into, Adding(at, m, weight))) && At(Edit(ks, into, Adding(at, m, weight)), p).Holds?
  {
    hide Ids, Unique, Edit, Find;
    var n := Find(ks, into).value;
    AddHolds(ks, into, at, m, weight);
    FoundIsInside(ks, into);
    AddKidHolds(n, at, m, weight);
    if p != into {
      if p in Ids([n]) {
        FoundAfterAdd(n, at, m, weight, p);
      }
      GrowRow(ks, into, Adding(at, m, weight), p);
    }
  }

  /** The wrapped criterion is no group: no ancestor of anything. */
  lemma WrapKeepsKids(ks: seq<Node>, holder: nat, at: nat, newId: nat, m: Node, p: nat, c: nat)
    requires Unique(ks) && holder in Ids(ks) && Unique([m]) && Ids(ks) !! Ids([m]) && newId !in Ids(ks) + Ids([m]) && IsKid(ks, p, c)
    requires var n := Find(ks, holder).value; n.Group? && at < |n.kids| && n.kids[at].id != c
    ensures IsKid(Edit(ks, holder, Wrapping(at, newId, m)), p, c)
  {
    hide Ids, Unique, Edit, Find;
    var n := Find(ks, holder).value;
    var n' := WrapKid(n, at, newId, m);
    WrapHolds(ks, holder, at, newId, m);
    FoundIsInside(ks, holder);
    WrapKidHolds(n, at, newId, m);
    if p == holder {
      var a: nat :| a < |n.kids| && Names(n.kids)[a] == c;
      assert n'.kids[a] == n.kids[a];
      assert Names(n'.kids)[a] == c;
    } else {
      if p in Ids([n]) {
        FoundAfterWrap(n, at, newId, m, p);
      }
      GrowRow(ks, holder, Wrapping(at, newId, m), p);
    }
  }

  lemma WrapKeepsGroup(ks: seq<Node>, holder: nat, at: nat, newId: nat, m: Node, p: nat)
    requires Unique(ks) && holder in Ids(ks) && Unique([m]) && Ids(ks) !! Ids([m]) && newId !in Ids(ks) + Ids([m])
    requires p in Ids(ks) && At(ks, p).Holds?
    requires var n := Find(ks, holder).value; n.Group? && at < |n.kids|
    ensures var after := Edit(ks, holder, Wrapping(at, newId, m)); p in Ids(after) && At(after, p).Holds?
  {
    hide Ids, Unique, Edit, Find;
    var n := Find(ks, holder).value;
    WrapHolds(ks, holder, at, newId, m);
    FoundIsInside(ks, holder);
    WrapKidHolds(n, at, newId, m);
    if p != holder {
      if p in Ids([n]) {
        FoundAfterWrap(n, at, newId, m, p);
      }
      GrowRow(ks, holder, Wrapping(at, newId, m), p);
    }
  }

  lemma ChainThroughWrap(ks: seq<Node>, chain: seq<nat>, holder: nat, at: nat, newId: nat, m: Node)
    requires Unique(ks) && IsChain(ks, chain) && holder in Ids(ks) && Unique([m]) && Ids(ks) !! Ids([m]) && newId !in Ids(ks) + Ids([m])
    requires var n := Find(ks, holder).value; n.Group? && at < |n.kids| && n.kids[at].Leaf?
    ensures IsChain(Edit(ks, holder, Wrapping(at, newId, m)), chain)
  {
    hide Ids, Unique, Edit, Find, At;
    var after, t := Edit(ks, holder, Wrapping(at, newId, m)), Find(ks, holder).value.kids[at];
    WrapHolds(ks, holder, at, newId, m);
    KidIsFound(ks, holder, at);
    HoldsIf(ks, t.id);
    forall a | 0 <= a < |chain| - 1
      ensures IsKid(after, chain[a + 1], chain[a])
    {
      ChainMembers(ks, chain, a);
      WrapKeepsKids(ks, holder, at, newId, m, chain[a + 1], chain[a]);
    }
    EditRoot(ks, holder, Wrapping(at, newId, m));
    WrapKeepsGroup(ks, holder, at, newId, m, chain[0]);
  }

  // ----- well-formed but for the source's group ----------------------------------------------------

  lemma InsertedIs<T>(s: seq<T>, at: nat, x: T)
    requires at <= |s|
    ensures Inserted(s, at, x) == s[..at] + [x] + s[at..] && |Inserted(s, at, x)| == |s| + 1
  {}

  lemma AddWell(n: Node, at: nat, m: Node, weight: real, broken: set<nat>)
    requires n.Group? && at <= |n.kids| && n.comb != Warn
    requires WellBut([n], broken) && WellBut([m], broken)
    ensures WellBut([AddKid(n, at, m, weight)], broken)
  {
    var l, r := n.kids[..at], n.kids[at..];
    var n' := AddKid(n, at, m, weight);
    assert n.kids == l + r;
    WellBeside(l, r, broken);
    WellBeside(l + [m], r, broken);
    WellBeside(l, [m], broken);
    assert n'.kids == l + [m] + r;
    assert [n'][1..] == [];
    assert WellBut(n'.kids, broken);
    assert Loose(n') && (n'.id !in broken ==> Repaired(n'));
  }

  lemma WrapWell(n: Node, at: nat, newId: nat, m: Node, broken: set<nat>)
    requires n.Group? && at < |n.kids|
    requires WellBut([n], broken) && WellBut([m], broken)
    ensures WellBut([WrapKid(n, at, newId, m)], broken)
  {
    var l, t, r := n.kids[..at], n.kids[at], n.kids[at + 1..];
    var both := Pair(newId, t, m);
    var n' := WrapKid(n, at, newId, m);
    SplitAt(n.kids, at);
    WellBeside(l + [t], r, broken);
    WellBeside(l, [t], broken);
    WellBeside(l + [both], r, broken);
    WellBeside(l, [both], broken);
    assert n'.kids == l + [both] + r;
    WellBeside([t], [m], broken);
    assert [t] + [m] == [t, m];
    assert [both][1..] == [] && [n'][1..] == [];
    assert WellBut([both], broken);
    SameShape(n, n');
  }

  /** The moved node, of a well-formed tree, goes into a group that takes one more. */
  lemma AddLeavesWell(ks: seq<Node>, into: nat, at: nat, m: Node, weight: real, broken: set<nat>)
    requires Unique(ks) && into in Ids(ks) && WellBut(ks, broken) && WellBut([m], broken)
    requires var n := Find(ks, into).value; n.Group? && at <= |n.kids| && n.comb != Warn
    ensures WellBut(Edit(ks, into, Adding(at, m, weight)), broken)
  {
    hide *;
    FoundIsWell(ks, into, broken);
    AddWell(Find(ks, into).value, at, m, weight, broken);
    WellElsewhere(ks, broken, broken + {into});
    EditWell(ks, into, Adding(at, m, weight), broken);
  }

  lemma WrapLeavesWell(ks: seq<Node>, holder: nat, at: nat, newId: nat, m: Node, broken: set<nat>)
    requires Unique(ks) && holder in Ids(ks) && WellBut(ks, broken) && WellBut([m], broken)
    requires var n := Find(ks, holder).value; n.Group? && at < |n.kids|
    ensures WellBut(Edit(ks, holder, Wrapping(at, newId, m)), broken)
  {
    hide *;
    FoundIsWell(ks, holder, broken);
    WrapWell(Find(ks, holder).value, at, newId, m, broken);
    WellElsewhere(ks, broken, broken + {holder});
    EditWell(ks, holder, Wrapping(at, newId, m), broken);
  }

  // ----- paths and places --------------------------------------------------------------------------

  type Path = seq<nat>

  const ROOT: Path := [0]

  datatype Dest = InAt(path: Path, index: Option<nat>) | Onto(path: Path)

  function Above(path: Path): Path
    requires path != []
  {
    path[..|path| - 1]
  }

  function Last(path: Path): nat
    requires path != []
  {
    path[|path| - 1]
  }

  /** The last step of a path goes from a group to a child of it. */
  lemma {:induction false} PathAbove(ks: seq<Node>, path: Path)
    requires |path| > 1 && NodeAt(ks, path).Some?
    ensures NodeAt(ks, Above(path)).Some?
    ensures var up := NodeAt(ks, Above(path)).value;
      up.Group? && Last(path) < |up.kids| && up.kids[Last(path)] == NodeAt(ks, path).value
  {
    if |path| > 2 {
      PathAbove(ks[path[0]].kids, path[1..]);
      assert Above(path)[1..] == Above(path[1..]);
    }
  }

  /** A path that goes on from a node. */
  lemma {:induction false} PathOn(ks: seq<Node>, path: Path, on: Path)
    requires NodeAt(ks, path).Some? && on != [] && on[0] == 0
    ensures NodeAt(ks, path + on[1..]) == NodeAt([NodeAt(ks, path).value], on)
  {
    if |path| > 1 {
      PathOn(ks[path[0]].kids, path[1..], on);
      assert (path + on[1..])[1..] == path[1..] + on[1..];
    } else if |on| > 1 {
      assert (path + on[1..])[1..] == on[1..];
    } else {
      assert path + on[1..] == path;
    }
  }

  /** What is inside a node has a path that starts with the node's. */
  lemma InsideHasPrefix(ks: seq<Node>, src: Path, path: Path)
    requires Unique(ks) && NodeAt(ks, src).Some? && NodeAt(ks, path).Some?
    requires NodeAt(ks, path).value.id in Ids([NodeAt(ks, src).value])
    ensures src <= path
  {
    var m, t := NodeAt(ks, src).value, NodeAt(ks, path).value;
    var on := PathOf([m], t.id);
    OnePath(ks, src);
    OnePath(ks, path);
    PathLeads([m], t.id);
    assert on[0] == 0;
    PathOn(ks, src, on);
    FoundInFound(ks, m.id, t.id);
    OnePath(ks, src + on[1..]);
  }

  function IndexIn(dest: Dest): Option<nat>
  {
    if dest.InAt? then dest.index else None
  }

  /** Is `dest` where the node at `src` already is: before itself, before the child after it, or the end when it is last? */
  predicate SamePlace(ks: seq<Node>, src: Path, dest: Dest)
    requires |src| > 1 && NodeAt(ks, src).Some?
  {
    PathAbove(ks, src);
    dest.path == Above(src) &&
    var n, index := |NodeAt(ks, Above(src)).value.kids|, IndexIn(dest);
    if index.None? || index.value >= n then Last(src) == n - 1 else index.value == Last(src) || index.value == Last(src) + 1
  }

  // ----- the move, before its repairs ---------------------------------------------------------------

  /** There is a node to move, and a place it can go. */
  predicate Movable(ks: seq<Node>, src: Path, dest: Dest)
  {
    && |ks| == 1 && |src| > 1 && !(src <= dest.path)
    && NodeAt(ks, src).Some? && NodeAt(ks, dest.path).Some?
    && (dest.InAt? ==> NodeAt(ks, dest.path).value.Group?)
  }

  predicate Wraps(ks: seq<Node>, dest: Dest)
    requires NodeAt(ks, dest.path).Some?
  {
    dest.Onto? && NodeAt(ks, dest.path).value.Leaf?
  }

  /** The child a place is before, as the tree is now. */
  function Anchor(target: Node, dest: Dest): Option<nat>
    requires target.Group?
  {
    var index := IndexIn(dest);
    if index.Some? && index.value < |target.kids| then Some(target.kids[index.value].id) else None
  }

  function PlaceOf(ks: seq<Node>, up: nat, kid: nat): nat
  {
    if up in Ids(ks) && Find(ks, up).value.Group? && kid in Names(Find(ks, up).value.kids) then IndexOf(Find(ks, up).value.kids, kid) else 0
  }

  function EndOf(ks: seq<Node>, up: nat): nat
  {
    if up in Ids(ks) && Find(ks, up).value.Group? then |Find(ks, up).value.kids| else 0
  }

  /** The weight a node brings into a group: its own among one group's children, else 1. */
  function Brings(up: Node, i: nat, target: nat): real
  {
    if target == up.id && WeightAt(up, i).Some? then WeightAt(up, i).value else 1.0
  }

  /** Out, and in. */
  function Relocated(ks: seq<Node>, src: Path, dest: Dest, newId: nat): (r: seq<Node>)
    requires Movable(ks, src, dest)
    ensures |r| == 1
  {
    PathAbove(ks, src);
    var up, i, m, target := NodeAt(ks, Above(src)).value, Last(src), NodeAt(ks, src).value, NodeAt(ks, dest.path).value;
    var out := Edit(ks, up.id, Dropping(i));
    if target.Leaf? then
      var holder := if |dest.path| > 1 then (PathAbove(ks, dest.path); NodeAt(ks, Above(dest.path)).value.id) else 0;
      Edit(out, holder, Wrapping(PlaceOf(out, holder, target.id), newId, m))
    else
      var anchor := Anchor(target, dest);
      var at := if anchor.Some? then PlaceOf(out, target.id, anchor.value) else EndOf(out, target.id);
      Edit(out, target.id, Adding(at, m, Brings(up, i, target.id)))
  }

  /** What the move keeps before it repairs anything; only the source's group may want a repair. */
  ghost predicate Steady(ks: seq<Node>, chain: seq<nat>, m: Node, after: seq<Node>, newId: nat)
  {
    && Unique(after) && |after| == 1 && Ids(ks) <= Ids(after) <= Ids(ks) + {newId}
    && MovedBlock(Leaves(ks), Leaves([m]), Leaves(after))
    && Kinds(after) <= Kinds(ks) + {(newId, IsGroup(And, ""))}
    && IsChain(after, chain)
    && (Well(ks) ==> WellBut(after, {chain[0]}))
  }

  /** A criterion block taken out of one split and put in another. */
  lemma BlockMoves(l: seq<Node>, a: seq<Node>, block: seq<Node>, b: seq<Node>, r: seq<Node>,
                   l': seq<Node>, x: seq<Node>, y: seq<Node>, r': seq<Node>)
    requires l + (a + b) + r == l' + (x + y) + r'
    ensures MovedBlock(l + (a + block + b) + r, block, l' + (x + block + y) + r')
  {
    assert Splits(l + (a + block + b) + r, l + a, block, b + r);
    assert Splits(l' + (x + block + y) + r', l' + x, block, y + r');
    assert (l + a) + (b + r) == l + (a + b) + r;
    assert (l' + x) + (y + r') == l' + (x + y) + r';
  }

  /** What is known once the node is out. */
  lemma OutHolds(ks: seq<Node>, chain: seq<nat>, i: nat, p: nat)
    requires Unique(ks) && IsChain(ks, chain)
    requires var n := Find(ks, chain[0]).value; n.Group? && i < |n.kids|
    requires var m := Find(ks, chain[0]).value.kids[i]; p in Ids(ks) && p !in Ids([m])
    ensures var m := Find(ks, chain[0]).value.kids[i]; var out := Edit(ks, chain[0], Dropping(i));
      && Unique(out) && Unique([m]) && Ids(out) !! Ids([m]) && Ids(out) + Ids([m]) == Ids(ks)
      && p in Ids(out) && KindOf(Find(out, p).value) == KindOf(Find(ks, p).value)
      && Kinds(out) <= Kinds(ks) && Kinds([m]) <= Kinds(ks)
      && IsChain(out, chain)
      && (Well(ks) ==> WellBut(out, {chain[0]}) && WellBut([m], {chain[0]}))
  {
    hide *;
    ChainAt(ks, chain);
    var n := Find(ks, chain[0]).value;
    var m := n.kids[i];
    var out := Edit(ks, chain[0], Dropping(i));
    DropHolds(ks, chain[0], i);
    ChainThroughDrop(ks, chain, i);
    EditKinds(ks, chain[0], Dropping(i));
    DropKinds(n, i);
    KidIsFound(ks, chain[0], i);
    EditKinds(ks, m.id, x => x);
    KindIsKept(out, p, KindOf(Find(out, p).value));
    KindIsKept(ks, p, KindOf(Find(out, p).value));
    if Well(ks) {
      assert WellBut(ks, {}) by { WellMeans(ks); }
      DropLeavesWell(ks, chain[0], i, {});
      FoundIsWell(ks, m.id, {});
      WellElsewhere([m], {}, {chain[0]});
    }
  }

  lemma WellMeans(ks: seq<Node>)
    ensures Well(ks) <==> WellBut(ks, {})
  {}

  lemma PutHolds(ks: seq<Node>, chain: seq<nat>, i: nat, into: nat, at: nat, weight: real, newId: nat)
    requires Unique(ks) && IsChain(ks, chain)
    requires var n := Find(ks, chain[0]).value; n.Group? && i < |n.kids|
    requires var m := Find(ks, chain[0]).value.kids[i]; into in Ids(ks) && into !in Ids([m])
    requires var t := Find(ks, into).value; t.Group? && t.comb != Warn
    requires var out := Edit(ks, chain[0], Dropping(i)); into in Ids(out) && Find(out, into).value.Group? && at <= |Find(out, into).value.kids|
    ensures var m := Find(ks, chain[0]).value.kids[i];
      Steady(ks, chain, m, Edit(Edit(ks, chain[0], Dropping(i)), into, Adding(at, m, weight)), newId)
  {
    hide Ids, Unique, Edit, Find, Leaves, Kinds, WellBut, Well, MovedBlock, IsChain;
    ChainAt(ks, chain);
    var n := Find(ks, chain[0]).value;
    var m := n.kids[i];
    var out := Edit(ks, chain[0], Dropping(i));
    OutHolds(ks, chain, i, into);
    DropHolds(ks, chain[0], i);
    AddHolds(out, into, at, m, weight);
    ChainThroughAdd(out, chain, into, at, m, weight);
    var t := Find(out, into).value;
    BlockMoves(LeftOf(ks, chain[0]), Leaves(n.kids[..i]), Leaves([m]), Leaves(n.kids[i + 1..]), RightOf(ks, chain[0]),
               LeftOf(out, into), Leaves(t.kids[..at]), Leaves(t.kids[at..]), RightOf(out, into));
    if Well(ks) {
      AddLeavesWell(out, into, at, m, weight, {chain[0]});
    }
  }

  lemma WrapOnHolds(ks: seq<Node>, chain: seq<nat>, i: nat, holder: nat, at: nat, newId: nat)
    requires Unique(ks) && IsChain(ks, chain) && newId !in Ids(ks)
    requires var n := Find(ks, chain[0]).value; n.Group? && i < |n.kids|
    requires var m := Find(ks, chain[0]).value.kids[i]; holder in Ids(ks) && holder !in Ids([m])
    requires var out := Edit(ks, chain[0], Dropping(i));
      holder in Ids(out) && var t := Find(out, holder).value; t.Group? && at < |t.kids| && t.kids[at].Leaf?
    ensures var m := Find(ks, chain[0]).value.kids[i];
      Steady(ks, chain, m, Edit(Edit(ks, chain[0], Dropping(i)), holder, Wrapping(at, newId, m)), newId)
  {
    hide Ids, Unique, Edit, Find, Leaves, Kinds, WellBut, Well, MovedBlock, IsChain;
    ChainAt(ks, chain);
    var n := Find(ks, chain[0]).value;
    var m := n.kids[i];
    var out := Edit(ks, chain[0], Dropping(i));
    OutHolds(ks, chain, i, holder);
    DropHolds(ks, chain[0], i);
    WrapHolds(out, holder, at, newId, m);
    ChainThroughWrap(out, chain, holder, at, newId, m);
    var t := Find(out, holder).value;
    BlockMoves(LeftOf(ks, chain[0]), Leaves(n.kids[..i]), Leaves([m]), Leaves(n.kids[i + 1..]), RightOf(ks, chain[0]),
               LeftOf(out, holder), Leaves(t.kids[..at + 1]), Leaves(t.kids[at + 1..]), RightOf(out, holder));
    if Well(ks) {
      WrapLeavesWell(out, holder, at, newId, m, {chain[0]});
    }
  }

  /** The group a path goes through last is the group its node is found in. */
  lemma SourceIs(ks: seq<Node>, src: Path)
    requires Unique(ks) && |src| > 1 && NodeAt(ks, src).Some?
    ensures NodeAt(ks, Above(src)).Some?
    ensures var up, m := NodeAt(ks, Above(src)).value, NodeAt(ks, src).value;
      && up.id in Ids(ks) && Find(ks, up.id) == Some(up) && up.Group? && Last(src) < |up.kids| && up.kids[Last(src)] == m
      && m.id in Ids(ks) && Find(ks, m.id) == Some(m) && IsKid(ks, up.id, m.id)
  {
    PathAbove(ks, src);
    OnePath(ks, src);
    OnePath(ks, Above(src));
    var up := NodeAt(ks, Above(src)).value;
    assert Names(up.kids)[Last(src)] == NodeAt(ks, src).value.id;
  }

  /** The place of a child that stays, in a group that stays, once the node is out. */
  lemma PlaceAfterDrop(ks: seq<Node>, up: nat, i: nat, g: nat, c: nat)
    requires Unique(ks) && up in Ids(ks) && IsKid(ks, g, c)
    requires var n := Find(ks, up).value; n.Group? && i < |n.kids| && g !in Ids([n.kids[i]]) && c != n.kids[i].id
    ensures var out := Edit(ks, up, Dropping(i)); var at := PlaceOf(out, g, c);
      g in Ids(out) && var t := Find(out, g).value; t.Group? && at < |t.kids| && t.kids[at].id == c
  {
    hide Ids, Unique, Edit, Find;
    DropKids(ks, up, i, g, c);
  }

  /** The node moved is the anchor only where the node already is. */
  lemma AnchorIsAnother(ks: seq<Node>, src: Path, dest: Dest)
    requires Unique(ks) && Movable(ks, src, dest) && NodeAt(ks, dest.path).value.Group? && !SamePlace(ks, src, dest)
    ensures var anchor := Anchor(NodeAt(ks, dest.path).value, dest);
      anchor.Some? ==> anchor.value != NodeAt(ks, src).value.id && IsKid(ks, NodeAt(ks, dest.path).value.id, anchor.value)
  {
    hide Unique, Ids, Find;
    var target := NodeAt(ks, dest.path).value;
    var anchor := Anchor(target, dest);
    OnePath(ks, dest.path);
    if anchor.Some? {
      var index := dest.index.value;
      HoldsIf(ks, target.id);
      assert Names(target.kids)[index] == anchor.value;
      PathOn(ks, dest.path, [0, index]);
      assert dest.path + [0, index][1..] == dest.path + [index];
      assert NodeAt([target], [0, index]) == Some(target.kids[index]) by { assert [0, index][1..] == [index]; }
      OnePath(ks, dest.path + [index]);
      OnePath(ks, src);
      PathAbove(ks, src);
      assert Above(dest.path + [index]) == dest.path && Last(dest.path + [index]) == index;
    }
  }

  lemma RelocatedInto(ks: seq<Node>, src: Path, dest: Dest, newId: nat, chain: seq<nat>)
    requires Unique(ks) && Movable(ks, src, dest) && newId !in Ids(ks)
    requires IsChain(ks, chain) && NodeAt(ks, Above(src)).Some? && chain[0] == NodeAt(ks, Above(src)).value.id
    requires var t := NodeAt(ks, dest.path).value; t.Group? && t.comb != Warn && !SamePlace(ks, src, dest)
    ensures Steady(ks, chain, NodeAt(ks, src).value, Relocated(ks, src, dest, newId), newId)
  {
    AnchorIsAnother(ks, src, dest);
    hide Ids, Unique, Edit, Find, IsChain, Steady, NodeAt, SamePlace;
    SourceIs(ks, src);
    var up, i, m, target := NodeAt(ks, Above(src)).value, Last(src), NodeAt(ks, src).value, NodeAt(ks, dest.path).value;
    OnePath(ks, dest.path);
    if target.id in Ids([m]) {
      InsideHasPrefix(ks, src, dest.path);
    }
    OutHolds(ks, chain, i, target.id);
    var out := Edit(ks, up.id, Dropping(i));
    var anchor := Anchor(target, dest);
    var at := if anchor.Some? then PlaceOf(out, target.id, anchor.value) else EndOf(out, target.id);
    if anchor.Some? {
      PlaceAfterDrop(ks, up.id, i, target.id, anchor.value);
    }
    PutHolds(ks, chain, i, target.id, at, Brings(up, i, target.id), newId);
  }

  lemma RelocatedOnto(ks: seq<Node>, src: Path, dest: Dest, newId: nat, chain: seq<nat>)
    requires Unique(ks) && Movable(ks, src, dest) && newId !in Ids(ks)
    requires IsChain(ks, chain) && NodeAt(ks, Above(src)).Some? && chain[0] == NodeAt(ks, Above(src)).value.id
    requires NodeAt(ks, dest.path).value.Leaf?
    ensures Steady(ks, chain, NodeAt(ks, src).value, Relocated(ks, src, dest, newId), newId)
  {
    RootHoldsNoSource(ks, src, dest.path);
    hide Ids, Unique, Edit, Find, IsChain, Steady, NodeAt;
    SourceIs(ks, src);
    SourceIs(ks, dest.path);
    var up, i, m, target := NodeAt(ks, Above(src)).value, Last(src), NodeAt(ks, src).value, NodeAt(ks, dest.path).value;
    var holder := NodeAt(ks, Above(dest.path)).value.id;
    if target.id in Ids([m]) {
      InsideHasPrefix(ks, src, dest.path);
    }
    if holder in Ids([m]) {
      KidInside(ks, m.id, holder, target.id);
    }
    FoundIsInside(ks, m.id);
    OutHolds(ks, chain, i, target.id);
    OutHolds(ks, chain, i, holder);
    var out := Edit(ks, up.id, Dropping(i));
    PlaceAfterDrop(ks, up.id, i, holder, target.id);
    KidIsFound(out, holder, PlaceOf(out, holder, target.id));
    WrapOnHolds(ks, chain, i, holder, PlaceOf(out, holder, target.id), newId);
  }

  /** A criterion at the root holds no source. */
  lemma RootHoldsNoSource(ks: seq<Node>, src: Path, path: Path)
    requires |ks| == 1 && |src| > 1 && NodeAt(ks, src).Some? && NodeAt(ks, path).Some? && NodeAt(ks, path).value.Leaf?
    ensures |path| > 1
  {}

  /** `Relocated` changes the tree as a move may: one block of criteria elsewhere, everything else as it was. */
  lemma RelocatedHolds(ks: seq<Node>, src: Path, dest: Dest, newId: nat, chain: seq<nat>)
    requires Unique(ks) && Movable(ks, src, dest) && newId !in Ids(ks)
    requires IsChain(ks, chain) && NodeAt(ks, Above(src)).Some? && chain[0] == NodeAt(ks, Above(src)).value.id
    requires var t := NodeAt(ks, dest.path).value; t.Group? ==> t.comb != Warn && !SamePlace(ks, src, dest)
    ensures Steady(ks, chain, NodeAt(ks, src).value, Relocated(ks, src, dest, newId), newId)
  {
    hide Ids, Unique, Edit, Find, IsChain, Steady, NodeAt;
    if NodeAt(ks, dest.path).value.Group? {
      RelocatedInto(ks, src, dest, newId, chain);
    } else {
      RelocatedOnto(ks, src, dest, newId, chain);
    }
  }

  // ----- the plan ----------------------------------------------------------------------------------

  datatype Refusal = TheRoot | IntoItself | IntoWarn | WarnUnder | Invalid(message: string)

  datatype Plan =
    | Stays
    | Moved(tree: Node, path: Path, paths: map<Path, Path>)
    | Refused(why: Refusal)
    | NoNode(path: Path)
    | NotAGroup(path: Path)

  /** The same tree to a reader, whichever objects hold it. */
  predicate SameContent(a: seq<Node>, b: seq<Node>)
  {
    |a| == |b| &&
    (a != [] ==>
      && (if a[0].Leaf? then b[0].Leaf? && a[0].rest == b[0].rest
          else b[0].Group? && a[0].(id := b[0].id, kids := b[0].kids) == b[0] && SameContent(a[0].kids, b[0].kids))
      && SameContent(a[1..], b[1..]))
  }

  /** A forest without the identities of its objects. */
  function Bare(ks: seq<Node>): seq<Node>
  {
    if ks == [] then [] else [BareNode(ks[0])] + Bare(ks[1..])
  }

  function BareNode(n: Node): Node
  {
    match n
    case Leaf(_, rest) => Leaf(0, rest)
    case Group(_, comb, k, weights, rest, kids) => Group(0, comb, k, weights, rest, Bare(kids))
  }

  /** Two trees are the same content exactly when nothing but the objects differs. */
  lemma {:induction false} SameContentIff(a: seq<Node>, b: seq<Node>)
    ensures SameContent(a, b) <==> Bare(a) == Bare(b)
  {
    if a != [] && b != [] {
      assert Bare(a)[1..] == Bare(a[1..]) && Bare(b)[1..] == Bare(b[1..]);
      SameContentIff(a[1..], b[1..]);
      if a[0].Group? && b[0].Group? {
        SameContentIff(a[0].kids, b[0].kids);
      }
    }
  }

  /** Was this pair of a parent and a child that can never fail in the tree before? */
  predicate HadPass(ks: seq<Node>, parent: nat, child: nat)
  {
    && parent in Ids(ks) && child in Ids(ks)
    && IsKid(ks, parent, child)
    && AlwaysPasses(Find(ks, child).value)
  }

  /** Each kept node's path before to its path after. */
  function PathsKept(before: seq<Node>, after: seq<Node>): map<Path, Path>
    requires Unique(before)
  {
    PathsDiffer(before);
    map id | id in Ids(before) * Ids(after) :: PathOf(before, id) := PathOf(after, id)
  }

  lemma PathsDiffer(ks: seq<Node>)
    requires Unique(ks)
    ensures forall a, b :: a in Ids(ks) && b in Ids(ks) && PathOf(ks, a) == PathOf(ks, b) ==> a == b
  {
    forall a, b | a in Ids(ks) && b in Ids(ks) && PathOf(ks, a) == PathOf(ks, b)
      ensures a == b
    {
      PathLeads(ks, a);
      PathLeads(ks, b);
    }
  }

  /** The source's ancestors, from its group up to the root. */
  method ChainOf(ks: seq<Node>, path: Path) returns (chain: seq<nat>)
    requires |ks| == 1 && Unique(ks) && NodeAt(ks, path).Some? && NodeAt(ks, path).value.Group?
    ensures IsChain(ks, chain) && chain[0] == NodeAt(ks, path).value.id
  {
    hide Ids, Unique, Find, NodeAt, IsKid, At, PathOf;
    var p := path;
    OnePath(ks, p);
    HoldsIf(ks, NodeAt(ks, p).value.id);
    chain := [NodeAt(ks, path).value.id];
    assert path[..|path| - 0] == path;
    while p != ROOT
      invariant 1 <= |chain| <= |path| && p == path[..|path| + 1 - |chain|]
      invariant NodeAt(ks, p).Some? && NodeAt(ks, p).value.Group?
      invariant chain[|chain| - 1] == NodeAt(ks, p).value.id
      invariant chain[0] == NodeAt(ks, path).value.id && chain[0] in Ids(ks) && At(ks, chain[0]).Holds?
      invariant forall a :: 0 <= a < |chain| ==> chain[a] in Ids(ks) && PathOf(ks, chain[a]) == path[..|path| - a]
      invariant forall a :: 0 <= a < |chain| - 1 ==> IsKid(ks, chain[a + 1], chain[a])
      decreases |p|
    {
      LongerThanRoot(ks, p);
      SourceIs(ks, p);
      p := Above(p);
      OnePath(ks, p);
      chain := chain + [NodeAt(ks, p).value.id];
    }
    OnePath(ks, p);
    RootIs(ks);
    ChainReaches(ks, path, chain);
  }

  /** The ancestors differ, for their paths do. */
  lemma ChainReaches(ks: seq<Node>, path: Path, chain: seq<nat>)
    requires |ks| == 1 && ks[0].Group? && 1 <= |chain| <= |path| && chain[|chain| - 1] == ks[0].id
    requires chain[0] in Ids(ks) && At(ks, chain[0]).Holds?
    requires forall a :: 0 <= a < |chain| ==> chain[a] in Ids(ks) && PathOf(ks, chain[a]) == path[..|path| - a]
    requires forall a :: 0 <= a < |chain| - 1 ==> IsKid(ks, chain[a + 1], chain[a])
    ensures IsChain(ks, chain)
  {
    hide IsKid, At, PathOf, Ids;
    forall a, b | 0 <= a < b < |chain|
      ensures chain[a] != chain[b]
    {
      assert |PathOf(ks, chain[a])| != |PathOf(ks, chain[b])|;
    }
  }

  lemma LongerThanRoot(ks: seq<Node>, path: Path)
    requires |ks| == 1 && NodeAt(ks, path).Some?
    ensures |path| > 1 || path == ROOT
  {
    if |path| == 1 {
      assert path == [path[0]];
    }
  }

  lemma RootIs(ks: seq<Node>)
    requires |ks| == 1
    ensures NodeAt(ks, ROOT) == Some(ks[0])
  {}

  lemma IsKidAt(ks: seq<Node>, up: nat, i: nat)
    requires up in Ids(ks) && Find(ks, up).value.Group? && i < |Find(ks, up).value.kids|
    ensures IsKid(ks, up, Find(ks, up).value.kids[i].id)
  {
    assert Names(Find(ks, up).value.kids)[i] == Find(ks, up).value.kids[i].id;
  }

  /** The pairs the tree had, read off its objects, are its free passes: no kept group changes its combinator. */
  lemma PassIsOld(ks: seq<Node>, after: seq<Node>, newId: nat, parent: nat, child: nat)
    requires Unique(ks) && Unique(after) && newId !in Ids(ks)
    requires Kinds(after) <= Kinds(ks) + {(newId, IsGroup(And, ""))}
    requires (parent, child) in FreePasses(after)
    ensures HadPass(ks, parent, child) <==> (parent, child) in FreePasses(ks)
  {
    hide Unique, Ids, Kinds, FreePasses, AlwaysPasses;
    FreePassIff(after, parent, child);
    FreePassIff(ks, parent, child);
    var p := Find(after, parent).value;
    KindIsKept(after, parent, KindOf(p));
    KindIsKept(ks, parent, KindOf(p));
    if HadPass(ks, parent, child) {
      var was := Find(ks, parent).value;
      var i: nat :| i < |was.kids| && Names(was.kids)[i] == child;
      KidIsFound(ks, parent, i);
    }
    if (parent, child) in FreePasses(ks) {
      var was := Find(ks, parent).value;
      var i: nat :| i < |was.kids| && was.kids[i].id == child && AlwaysPasses(was.kids[i]);
      KidIsFound(ks, parent, i);
      IsKidAt(ks, parent, i);
    }
  }

  /** What is answered before anything is moved, in this order. */
  function Early(ks: seq<Node>, src: Path, dest: Dest): Option<Plan>
  {
    if src == ROOT then Some(Refused(TheRoot))
    else if src <= dest.path then Some(Refused(IntoItself))
    else if NodeAt(ks, src).None? then Some(NoNode(src))
    else if NodeAt(ks, dest.path).None? then Some(NoNode(dest.path))
    else if Wraps(ks, dest) then None
    else
      var target := NodeAt(ks, dest.path).value;
      if target.Leaf? then Some(NotAGroup(dest.path))
      else if |src| > 1 && SamePlace(ks, src, dest) then Some(Stays)
      else if target.comb == Warn then Some(Refused(IntoWarn))
      else None
  }

  /** What is answered for the tree the move made. */
  ghost predicate Answers(ks: seq<Node>, src: Path, dest: Dest, validate: Node -> Option<string>, after: seq<Node>, r: Plan)
    requires Unique(ks) && Movable(ks, src, dest) && |after| == 1
  {
    if !Wraps(ks, dest) && SameContent(after, ks) then r == Stays
    else if !(FreePasses(after) <= FreePasses(ks)) then r == Refused(WarnUnder)
    else if validate(after[0]).Some? then r == Refused(Invalid(validate(after[0]).value))
    else
      var m := NodeAt(ks, src).value;
      m.id in Ids(after) && r == Moved(after[0], PathOf(after, m.id), PathsKept(ks, after))
  }

  /** What the move makes of any tree, and of a well-formed one. */
  ghost predicate Makes(ks: seq<Node>, src: Path, dest: Dest, newId: nat, after: seq<Node>)
    requires Movable(ks, src, dest)
  {
    && |after| == 1 && Unique(after) && Ids(after) <= Ids(ks) + {newId}
    && MovedBlock(Leaves(ks), Leaves([NodeAt(ks, src).value]), Leaves(after))
    && Kinds(after) <= Kinds(ks) + {(newId, IsGroup(And, ""))}
    && Unique(Relocated(ks, src, dest, newId)) && Ids(ks) <= Ids(Relocated(ks, src, dest, newId))
    && (Well(ks) ==> Well(after) && after == Tidy(Relocated(ks, src, dest, newId)))
  }

  /** The loops repair what the move left behind: the tree is then what `Tidy` makes of it. */
  method Repair(moved: seq<Node>, chain: seq<nat>) returns (after: seq<Node>)
    requires Unique(moved) && IsChain(moved, chain)
    ensures SameBut(moved, after)
    ensures forall p :: p in Ids(moved) && p !in chain ==> p in Ids(after)
    ensures WellBut(moved, {chain[0]}) && Leaves(moved) != [] ==> Well(after) && after == Tidy(moved)
  {
    hide Unique, Ids, Leaves, Tidy, Kinds, WellBut, Well, IsChain, Find;
    var pruned, j := Prune(moved, chain);
    ChainAt(pruned, chain[j..]);
    after := LowerKs(pruned, chain, j);
    if WellBut(moved, {chain[0]}) && Leaves(moved) != [] {
      WellIsTidy(after);
    }
  }

  /** The copy, changed in place: out, in, and nothing else yet. */
  method Relocate(ks: seq<Node>, src: Path, dest: Dest, newId: nat) returns (r: seq<Node>)
    requires Unique(ks) && Movable(ks, src, dest)
    ensures r == Relocated(ks, src, dest, newId)
  {
    PathAbove(ks, src);
    var up, m, target := NodeAt(ks, Above(src)).value, NodeAt(ks, src).value, NodeAt(ks, dest.path).value;
    var i := Last(src);
    if Wraps(ks, dest) {
      RootHoldsNoSource(ks, src, dest.path);
      PathAbove(ks, dest.path);
      var holder := NodeAt(ks, Above(dest.path)).value;
      r := Edit(ks, up.id, Dropping(i));
      r := Edit(r, holder.id, Wrapping(PlaceOf(r, holder.id, target.id), newId, m));
    } else {
      var anchor := Anchor(target, dest);
      var weight := WeightAt(up, i);
      r := Edit(ks, up.id, Dropping(i));
      var at := if anchor.Some? then PlaceOf(r, target.id, anchor.value) else EndOf(r, target.id);
      if target.id == up.id && weight.Some? {
        r := Edit(r, target.id, Adding(at, m, weight.value));
      } else {
        r := Edit(r, target.id, Adding(at, m, 1.0));
      }
    }
  }

  lemma ChainHasNoMoved(ks: seq<Node>, src: Path, chain: seq<nat>)
    requires Unique(ks) && |src| > 1 && NodeAt(ks, src).Some? && IsChain(ks, chain)
    requires NodeAt(ks, Above(src)).Some? && chain[0] == NodeAt(ks, Above(src)).value.id
    ensures NodeAt(ks, src).value.id !in chain
  {
    SourceIs(ks, src);
    ChainThroughDrop(ks, chain, Last(src));
    FoundIsInside(ks, NodeAt(ks, src).value.id);
  }

  /** The tree the move makes, from what holds before the repairs and what they keep. */
  lemma MoveMakes(ks: seq<Node>, src: Path, dest: Dest, newId: nat, chain: seq<nat>, after: seq<Node>)
    requires Unique(ks) && Movable(ks, src, dest) && newId !in Ids(ks)
    requires var moved := Relocated(ks, src, dest, newId);
      && chain != [] && Steady(ks, chain, NodeAt(ks, src).value, moved, newId)
      && SameBut(moved, after)
      && (WellBut(moved, {chain[0]}) && Leaves(moved) != [] ==> Well(after) && after == Tidy(moved))
    ensures Makes(ks, src, dest, newId, after)
  {
    hide Unique, Ids, Leaves, Kinds, Tidy, WellBut, Well, Relocated, NodeAt;
    var moved, block := Relocated(ks, src, dest, newId), Leaves([NodeAt(ks, src).value]);
    assert MovedBlock(Leaves(ks), block, Leaves(moved));
    if Well(ks) {
      SourceIs(ks, src);
      WellMeans(ks);
      FoundIsWell(ks, NodeAt(ks, src).value.id, {});
      WellMeans([NodeAt(ks, src).value]);
      WellHoldsCriteria([NodeAt(ks, src).value]);
      var a, b, x, y :| Splits(Leaves(ks), a, block, b) && Splits(Leaves(moved), x, block, y) && a + b == x + y;
      assert |Leaves(moved)| >= |block|;
    }
  }

  /** An answer, and what it says of the tree the move made. */
  ghost predicate Fair(ks: seq<Node>, src: Path, dest: Dest, validate: Node -> Option<string>, after: seq<Node>, r: Plan)
    requires Unique(ks) && Movable(ks, src, dest)
  {
    var target, m := NodeAt(ks, dest.path).value, NodeAt(ks, src).value;
    && (r.Moved? ==>
          && after == [r.tree] && NodeAt(after, r.path).Some? && NodeAt(after, r.path).value.id == m.id
          && validate(r.tree).None? && (target.Group? ==> Bare(after) != Bare(ks))
          && forall parent, child :: (parent, child) in FreePasses(after) ==> (parent, child) in FreePasses(ks))
    && (r == Stays ==> target.Group? && (SamePlace(ks, src, dest) || Bare(after) == Bare(ks)))
    && (r == Refused(WarnUnder) ==> exists p :: p in FreePasses(after) && p !in FreePasses(ks))
    && (r.Refused? && r.why.Invalid? ==> |after| == 1 && validate(after[0]) == Some(r.why.message))
  }

  lemma AnswersAreFair(ks: seq<Node>, src: Path, dest: Dest, validate: Node -> Option<string>, after: seq<Node>, r: Plan)
    requires Unique(ks) && Movable(ks, src, dest) && |after| == 1 && Unique(after) && Answers(ks, src, dest, validate, after, r)
    ensures Fair(ks, src, dest, validate, after, r)
  {
    hide Unique, Ids, NodeAt, FreePasses, SameContent, Bare, Find, SamePlace;
    SameContentIff(after, ks);
    if r.Moved? {
      PathLeads(after, NodeAt(ks, src).value.id);
    }
  }

  /** The move itself, once nothing speaks against it. */
  method Carry(ks: seq<Node>, src: Path, dest: Dest, newId: nat, validate: Node -> Option<string>)
    returns (r: Plan, ghost after: seq<Node>)
    requires Unique(ks) && Movable(ks, src, dest) && newId !in Ids(ks)
    requires var t := NodeAt(ks, dest.path).value; t.Group? ==> t.comb != Warn && !SamePlace(ks, src, dest)
    ensures Makes(ks, src, dest, newId, after)
    ensures Answers(ks, src, dest, validate, after, r)
  {
    hide Unique, Ids, Leaves, Kinds, Tidy, WellBut, Well, Relocated, NodeAt, IsChain, FreePasses, AlwaysPasses, SameContent, Find;
    SourceIs(ks, src);
    var chain := ChainOf(ks, Above(src));
    ChainAt(ks, chain);
    var moved := Relocate(ks, src, dest, newId);
    RelocatedHolds(ks, src, dest, newId, chain);
    var tree := Repair(moved, chain);
    after := tree;
    MoveMakes(ks, src, dest, newId, chain, after);
    ChainHasNoMoved(ks, src, chain);
    var m := NodeAt(ks, src).value;
    if !Wraps(ks, dest) && SameContent(tree, ks) {
      return Stays, tree;
    }
    forall p | p in FreePasses(tree)
      ensures HadPass(ks, p.0, p.1) <==> p in FreePasses(ks)
    {
      assert (p.0, p.1) == p;
      PassIsOld(ks, tree, newId, p.0, p.1);
    }
    if exists p :: p in FreePasses(tree) && !HadPass(ks, p.0, p.1) {
      return Refused(WarnUnder), tree;
    }
    var message := validate(tree[0]);
    if message.Some? {
      return Refused(Invalid(message.value)), tree;
    }
    return Moved(tree[0], PathOf(tree, m.id), PathsKept(ks, tree)), tree;
  }

  /**
   * The whole new tree with the node at `src` moved to `dest`; `newId` is the
   * object a wrap makes.  `after` is the tree as moved and repaired, when it
   * comes to that.
   */
  method PlanMove(tree: Node, src: Path, dest: Dest, newId: nat, validate: Node -> Option<string>)
    returns (r: Plan, ghost after: seq<Node>)
    requires Unique([tree]) && newId !in Ids([tree])
    ensures r == Refused(TheRoot) <==> src == ROOT
    ensures r == Refused(IntoItself) <==> src != ROOT && src <= dest.path
    ensures r.NoNode? <==> src != ROOT && !(src <= dest.path) && (NodeAt([tree], src).None? || NodeAt([tree], dest.path).None?)
    ensures r.NoNode? ==> r.path == if NodeAt([tree], src).None? then src else dest.path
    ensures r.NotAGroup? ==> r.path == dest.path && NodeAt([tree], dest.path).Some? && NodeAt([tree], dest.path).value.Leaf? && dest.InAt?
    ensures r == Refused(IntoWarn) ==> NodeAt([tree], dest.path).Some? && NodeAt([tree], dest.path).value.Group? && NodeAt([tree], dest.path).value.comb == Warn
    ensures Movable([tree], src, dest) ==> Fair([tree], src, dest, validate, after, r)
    ensures Early([tree], src, dest).Some? ==> r == Early([tree], src, dest).value
    ensures Early([tree], src, dest).None? ==>
              && Movable([tree], src, dest)
              && Makes([tree], src, dest, newId, after)
              && Answers([tree], src, dest, validate, after, r)
  {
    after := [];
    r := Stays;
    if src == ROOT {
      return Refused(TheRoot), [];
    }
    if src <= dest.path {
      return Refused(IntoItself), [];
    }
    if NodeAt([tree], src).None? {
      return NoNode(src), [];
    }
    if NodeAt([tree], dest.path).None? {
      return NoNode(dest.path), [];
    }
    LongerThanRoot([tree], src);
    var target := NodeAt([tree], dest.path).value;
    var wrap := dest.Onto? && target.Leaf?;
    if !wrap && target.Leaf? {
      return NotAGroup(dest.path), [];
    }
    if !wrap && SamePlace([tree], src, dest) {
      return Stays, [];
    }
    if !wrap && target.comb == Warn {
      return Refused(IntoWarn), [];
    }
    r, after := Carry([tree], src, dest, newId, validate);
    AnswersAreFair([tree], src, dest, validate, after, r);
  }
}
