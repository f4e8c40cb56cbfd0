/** What a move promises its reader: where the node is, what is gone, and which path is now which. */
module MoveTheorems {
  import opened Common
  import opened Tree
  import opened TreeEdits
  import opened TreeMove

  // ----- what the repairs make of each object ------------------------------------------------------

  /** The object stays exactly when it holds a criterion, and is then tidy. */
  ghost predicate StaysTidy(ks: seq<Node>, id: nat)
  {
    && (id in Ids(Tidy(ks)) <==> id in Ids(ks) && Leaves([Find(ks, id).value]) != [])
    && (id in Ids(Tidy(ks)) ==> Find(Tidy(ks), id) == Some(TidyNode(Find(ks, id).value)))
  }

  lemma {:induction false} TidyFind(ks: seq<Node>, id: nat)
    requires Unique(ks)
    ensures StaysTidy(ks, id)
  {
    if ks != [] {
      Headed(ks);
      TidyFind(ks[1..], id);
      if ks[0].Group? {
        TidyFind(ks[0].kids, id);
      }
      if Leaves([ks[0]]) == [] {
        TidyFindBare(ks, id);
      } else {
        TidyFindKept(ks, id);
      }
    }
  }

  lemma TidyFindBare(ks: seq<Node>, id: nat)
    requires ks != [] && Unique(ks) && Leaves([ks[0]]) == [] && StaysTidy(ks[1..], id)
    ensures StaysTidy(ks, id)
  {
    var head, rest := ks[0], ks[1..];
    hide Leaves, Unique, Ids, Find, TidyNode;
    Headed(ks);
    FindHeaded(ks, id);
    assert Tidy(ks) == Tidy(rest);
    if id in Ids([head]) {
      BareHasNone([head], id);
    }
  }

  lemma TidyFindKept(ks: seq<Node>, id: nat)
    requires ks != [] && Unique(ks) && Leaves([ks[0]]) != [] && StaysTidy(ks[1..], id)
    requires ks[0].Group? ==> StaysTidy(ks[0].kids, id)
    ensures StaysTidy(ks, id)
  {
    var head, rest := ks[0], ks[1..];
    var tidied := [TidyNode(head)] + Tidy(rest);
    assert Tidy(ks) == tidied;
    hide Leaves, Unique, Ids, Find, TidyNode, Tidy;
    Headed(ks);
    FindHeaded(ks, id);
    FindHeaded(tidied, id);
    Headed(tidied);
    TidyNodeFind(head, id);
    assert tidied[1..] == Tidy(rest);
  }

  lemma TidyNodeFind(n: Node, id: nat)
    ensures Ids([TidyNode(n)]) == {n.id} + (if n.Group? then Ids(Tidy(n.kids)) else {})
    ensures Find([TidyNode(n)], id) == if id == n.id then Some(TidyNode(n)) else if n.Group? then Find(Tidy(n.kids), id) else None
  {
    Headed([TidyNode(n)]);
    FindHeaded([TidyNode(n)], id);
  }

  /** In what holds no criterion, nothing does. */
  lemma {:induction false} BareHasNone(ks: seq<Node>, id: nat)
    requires id in Ids(ks) && Leaves(ks) == []
    ensures Leaves([Find(ks, id).value]) == []
  {
    Headed(ks);
    FindHeaded(ks, id);
    if id == ks[0].id {
    } else if id in Ids([ks[0]]) {
      BareHasNone(ks[0].kids, id);
    } else {
      BareHasNone(ks[1..], id);
    }
  }

  // ----- where the node is --------------------------------------------------------------------------

  /** A move of a well-formed tree, before its repairs. */
  predicate Planned(ks: seq<Node>, src: Path, dest: Dest, newId: nat)
  {
    && Unique(ks) && Well(ks) && Movable(ks, src, dest) && newId !in Ids(ks)
    && var t := NodeAt(ks, dest.path).value;
       t.Group? ==> t.comb != Warn && !SamePlace(ks, src, dest)
  }

  /** A group's children by name, once the node at `src` is out. */
  function NamesLeft(ks: seq<Node>, src: Path, g: Node): seq<nat>
    requires |src| > 1 && NodeAt(ks, src).Some? && g.Group?
  {
    PathAbove(ks, src);
    if g == NodeAt(ks, Above(src)).value then Without(Names(g.kids), Last(src)) else Names(g.kids)
  }

  /** What a place says of the children right of it: the first is the one its index has now; without one there is none. */
  predicate Before(dest: Dest, target: Node, r: seq<Node>)
    requires target.Group?
  {
    if dest.InAt? && dest.index.Some? && dest.index.value < |target.kids|
    then r != [] && r[0].id == target.kids[dest.index.value].id
    else r == []
  }

  /** `kids` are the children named `names`, tidied, with the node among them at its place. */
  ghost predicate Lands(kids: seq<Node>, names: seq<nat>, m: Node, dest: Dest, target: Node)
    requires target.Group?
  {
    exists l, r :: LandsBetween(kids, names, m, l, r) && Before(dest, target, r)
  }

  ghost predicate LandsBetween(kids: seq<Node>, names: seq<nat>, m: Node, l: seq<Node>, r: seq<Node>)
  {
    kids == Tidy(l) + [m] + Tidy(r) && Names(l) + Names(r) == names
  }

  lemma {:induction false} NamesBeside(a: seq<Node>, b: seq<Node>)
    ensures Names(a + b) == Names(a) + Names(b)
  {
    if a == [] {
      assert a + b == b;
    } else {
      assert (a + b)[1..] == a[1..] + b;
      NamesBeside(a[1..], b);
    }
  }

  lemma OutNames(ks: seq<Node>, src: Path, g: Node)
    requires Unique(ks) && |src| > 1 && NodeAt(ks, src).Some? && g.Group? && g.id in Ids(ks) && Find(ks, g.id) == Some(g)
    requires g.id !in Ids([NodeAt(ks, src).value])
    ensures NodeAt(ks, Above(src)).Some?
    ensures var out := Edit(ks, NodeAt(ks, Above(src)).value.id, Dropping(Last(src)));
      && Unique(out) && g.id in Ids(out) && Find(out, g.id).value.Group? && Names(Find(out, g.id).value.kids) == NamesLeft(ks, src, g)
      && Ids(out) !! Ids([NodeAt(ks, src).value]) && Ids(out) + Ids([NodeAt(ks, src).value]) == Ids(ks) && Unique([NodeAt(ks, src).value])
  {
    hide Unique, Find, Ids, Edit, NodeAt, DropKid, Without;
    SourceIs(ks, src);
    var up, i := NodeAt(ks, Above(src)).value, Last(src);
    var out := Edit(ks, up.id, Dropping(i));
    DropHolds(ks, up.id, i);
    if g.id == up.id {
      DropNames(up, i);
    } else {
      DropRow(ks, up.id, i, g.id);
      HoldsIf(ks, g.id);
      HoldsIf(out, g.id);
    }
  }

  predicate AtAnchor(kids: seq<Node>, at: nat, anchor: Option<nat>)
  {
    if anchor.Some? then at < |kids| && kids[at].id == anchor.value else at == |kids|
  }

  lemma LandsAt(kids: seq<Node>, at: nat, names: seq<nat>, m: Node, dest: Dest, target: Node)
    requires target.Group? && at <= |kids| && AtAnchor(kids, at, Anchor(target, dest)) && Names(kids) == names
    ensures Lands(Tidy(kids[..at]) + [m] + Tidy(kids[at..]), names, m, dest, target)
  {
    hide Tidy, Names;
    var l, r := kids[..at], kids[at..];
    NamesBeside(l, r);
    assert kids == l + r;
    assert LandsBetween(Tidy(l) + [m] + Tidy(r), names, m, l, r) && Before(dest, target, r);
  }

  /** Where in its group the node goes in. */
  function PutAt(ks: seq<Node>, src: Path, dest: Dest): nat
    requires Movable(ks, src, dest) && NodeAt(ks, dest.path).value.Group?
  {
    PathAbove(ks, src);
    var out, target := Edit(ks, NodeAt(ks, Above(src)).value.id, Dropping(Last(src))), NodeAt(ks, dest.path).value;
    var anchor := Anchor(target, dest);
    if anchor.Some? then PlaceOf(out, target.id, anchor.value) else EndOf(out, target.id)
  }

  lemma PutIsBeforeTheAnchor(ks: seq<Node>, src: Path, dest: Dest, newId: nat)
    requires Planned(ks, src, dest, newId) && NodeAt(ks, dest.path).value.Group?
    ensures NodeAt(ks, Above(src)).Some?
    ensures var out := Edit(ks, NodeAt(ks, Above(src)).value.id, Dropping(Last(src)));
      var target, at, m := NodeAt(ks, dest.path).value, PutAt(ks, src, dest), NodeAt(ks, src).value;
      && target.id in Ids(ks) && Find(ks, target.id) == Some(target) && target.id !in Ids([m])
      && target.id in Ids(out)
      && (var t := Find(out, target.id).value;
          t.Group? && at <= |t.kids| && AtAnchor(t.kids, at, Anchor(target, dest)))
      && Relocated(ks, src, dest, newId) == Edit(out, target.id, Adding(at, m, Brings(NodeAt(ks, Above(src)).value, Last(src), target.id)))
  {
    AnchorIsAnother(ks, src, dest);
    var target, m := NodeAt(ks, dest.path).value, NodeAt(ks, src).value;
    hide Unique, Find, Ids, Edit, NodeAt, SamePlace;
    SourceIs(ks, src);
    OnePath(ks, dest.path);
    if target.id in Ids([m]) {
      InsideHasPrefix(ks, src, dest.path);
    }
    OutNames(ks, src, target);
    var up, i, anchor := NodeAt(ks, Above(src)).value, Last(src), Anchor(target, dest);
    if anchor.Some? {
      PlaceAfterDrop(ks, up.id, i, target.id, anchor.value);
    }
    var out := Edit(ks, up.id, Dropping(i));
    assert Relocated(ks, src, dest, newId) == Edit(out, target.id, Adding(PutAt(ks, src, dest), m, Brings(up, i, target.id)));
  }

  lemma TidyLandsInto(ks: seq<Node>, src: Path, dest: Dest, newId: nat)
    requires Planned(ks, src, dest, newId) && NodeAt(ks, dest.path).value.Group?
    ensures var after := Tidy(Relocated(ks, src, dest, newId));
      var target := NodeAt(ks, dest.path).value;
      && target.id in Ids(after) && Find(after, target.id).value.Group?
      && Lands(Find(after, target.id).value.kids, NamesLeft(ks, src, target), NodeAt(ks, src).value, dest, target)
  {
    PutIsBeforeTheAnchor(ks, src, dest, newId);
    var target, m, at := NodeAt(ks, dest.path).value, NodeAt(ks, src).value, PutAt(ks, src, dest);
    hide Unique, Find, Ids, Edit, NodeAt, SamePlace, Tidy, TidyNode, Leaves, Relocated, PutAt, Well, AddKid, NamesLeft, AtAnchor, Anchor, Lands;
    SourceIs(ks, src);
    OutNames(ks, src, target);
    var out := Edit(ks, NodeAt(ks, Above(src)).value.id, Dropping(Last(src)));
    var weight := Brings(NodeAt(ks, Above(src)).value, Last(src), target.id);
    var t := Find(out, target.id).value;
    AddHolds(out, target.id, at, m, weight);
    MovedIsWell(ks, m);
    AddedLands(Edit(out, target.id, Adding(at, m, weight)), t, at, m, weight);
    LandsAt(t.kids, at, NamesLeft(ks, src, target), m, dest, target);
  }

  /** Into a group: the node is there whole, among the children the group had, before the one the place's index had. */
  lemma MovedLandsInto(ks: seq<Node>, src: Path, dest: Dest, newId: nat, after: seq<Node>)
    requires Planned(ks, src, dest, newId) && NodeAt(ks, dest.path).value.Group? && Makes(ks, src, dest, newId, after)
    ensures var target := NodeAt(ks, dest.path).value;
      && target.id in Ids(after) && Find(after, target.id).value.Group?
      && Lands(Find(after, target.id).value.kids, NamesLeft(ks, src, target), NodeAt(ks, src).value, dest, target)
  {
    hide Unique, Find, Ids, NodeAt, SamePlace, Tidy, Relocated, Well, NamesLeft, Lands;
    TidyLandsInto(ks, src, dest, newId);
  }

  lemma MovedIsWell(ks: seq<Node>, m: Node)
    requires Unique(ks) && Well(ks) && m.id in Ids(ks) && Find(ks, m.id) == Some(m)
    ensures Leaves([m]) != [] && Tidy([m]) == [m]
  {
    FoundIsWell(ks, m.id, {});
    WellHoldsCriteria([m]);
    WellIsTidy([m]);
  }

  lemma TidyAround(l: seq<Node>, x: Node, r: seq<Node>)
    requires Tidy([x]) == [x]
    ensures Tidy(l + [x] + r) == Tidy(l) + [x] + Tidy(r)
  {
    hide Tidy;
    TidyBeside(l + [x], r);
    TidyBeside(l, [x]);
  }

  /** A group that gained a child is tidied around it. */
  lemma AddedLands(moved: seq<Node>, t: Node, at: nat, m: Node, weight: real)
    requires Unique(moved) && t.Group? && at <= |t.kids| && t.id in Ids(moved) && Find(moved, t.id) == Some(AddKid(t, at, m, weight))
    requires Leaves([m]) != [] && Tidy([m]) == [m]
    ensures t.id in Ids(Tidy(moved)) && Find(Tidy(moved), t.id).value.Group?
    ensures Find(Tidy(moved), t.id).value.kids == Tidy(t.kids[..at]) + [m] + Tidy(t.kids[at..])
  {
    var l, r := t.kids[..at], t.kids[at..];
    var n := AddKid(t, at, m, weight);
    AddKidIs(t, at, m, weight);
    hide Unique, Find, Ids, Tidy, Leaves, AddKid;
    Headed([n]);
    Apart(l, m, r);
    assert |Leaves(l) + Leaves([m]) + Leaves(r)| > 0;
    TidyFind(moved, t.id);
    TidyAround(l, m, r);
  }

  /** The `and` of both, among the group's other children, in the criterion's place. */
  ghost predicate LandsOn(kids: seq<Node>, names: seq<nat>, target: nat, both: Node)
  {
    exists l, r :: LandsOnBetween(kids, names, target, both, l, r)
  }

  ghost predicate LandsOnBetween(kids: seq<Node>, names: seq<nat>, target: nat, both: Node, l: seq<Node>, r: seq<Node>)
  {
    kids == Tidy(l) + [both] + Tidy(r) && Names(l) + [target] + Names(r) == names
  }

  lemma TidyLandsOnto(ks: seq<Node>, src: Path, dest: Dest, newId: nat)
    requires Planned(ks, src, dest, newId) && NodeAt(ks, dest.path).value.Leaf?
    ensures |dest.path| > 1 && NodeAt(ks, Above(dest.path)).Some? && NodeAt(ks, Above(dest.path)).value.Group?
    ensures var after, holder := Tidy(Relocated(ks, src, dest, newId)), NodeAt(ks, Above(dest.path)).value;
      var both := Pair(newId, NodeAt(ks, dest.path).value, NodeAt(ks, src).value);
      && Find(after, newId) == Some(both)
      && holder.id in Ids(after) && Find(after, holder.id).value.Group?
      && LandsOn(Find(after, holder.id).value.kids, NamesLeft(ks, src, holder), NodeAt(ks, dest.path).value.id, both)
  {
    RootHoldsNoSource(ks, src, dest.path);
    hide Unique, Find, Ids, Edit, NodeAt, Tidy, TidyNode, Leaves, Well, IsKid, NamesLeft, LandsOn;
    SourceIs(ks, src);
    SourceIs(ks, dest.path);
    var up, i, m, target := NodeAt(ks, Above(src)).value, Last(src), NodeAt(ks, src).value, NodeAt(ks, dest.path).value;
    var holder := NodeAt(ks, Above(dest.path)).value;
    var out := Edit(ks, up.id, Dropping(i));
    if target.id in Ids([m]) {
      InsideHasPrefix(ks, src, dest.path);
    }
    if holder.id in Ids([m]) {
      KidInside(ks, m.id, holder.id, target.id);
    }
    FoundIsInside(ks, m.id);
    OutNames(ks, src, holder);
    PlaceAfterDrop(ks, up.id, i, holder.id, target.id);
    var at := PlaceOf(out, holder.id, target.id);
    KidIsFound(out, holder.id, at);
    StillACriterion(ks, src, target);
    MovedIsWell(ks, m);
    var t := Find(out, holder.id).value;
    WrapHolds(out, holder.id, at, newId, m);
    WrappedLands(Edit(out, holder.id, Wrapping(at, newId, m)), t, at, newId, m);
  }

  /** Onto a criterion: both are there whole, in an `and` that is new, in the criterion's place. */
  lemma MovedLandsOnto(ks: seq<Node>, src: Path, dest: Dest, newId: nat, after: seq<Node>)
    requires Planned(ks, src, dest, newId) && NodeAt(ks, dest.path).value.Leaf? && Makes(ks, src, dest, newId, after)
    ensures |dest.path| > 1 && NodeAt(ks, Above(dest.path)).Some? && NodeAt(ks, Above(dest.path)).value.Group?
    ensures var holder, target, m := NodeAt(ks, Above(dest.path)).value, NodeAt(ks, dest.path).value, NodeAt(ks, src).value;
      var both := Group(newId, And, None, None, "", [target, m]);
      && Find(after, newId) == Some(both)
      && holder.id in Ids(after) && Find(after, holder.id).value.Group?
      && LandsOn(Find(after, holder.id).value.kids, NamesLeft(ks, src, holder), target.id, both)
  {
    hide Unique, Find, Ids, NodeAt, SamePlace, Tidy, Relocated, Well, NamesLeft, LandsOn;
    TidyLandsOnto(ks, src, dest, newId);
  }

  lemma StillACriterion(ks: seq<Node>, src: Path, target: Node)
    requires Unique(ks) && |src| > 1 && NodeAt(ks, src).Some? && NodeAt(ks, Above(src)).Some? && target.Leaf?
    requires target.id in Ids(ks) && Find(ks, target.id) == Some(target) && target.id !in Ids([NodeAt(ks, src).value])
    ensures var out := Edit(ks, NodeAt(ks, Above(src)).value.id, Dropping(Last(src)));
      target.id in Ids(out) && Find(out, target.id) == Some(target)
  {
    SourceIs(ks, src);
    DropRow(ks, NodeAt(ks, Above(src)).value.id, Last(src), target.id);
  }

  lemma NamesOne(n: Node)
    ensures Names([n]) == [n.id]
  {}

  lemma NamesAround(kids: seq<Node>, at: nat)
    requires at < |kids|
    ensures Names(kids) == Names(kids[..at]) + [kids[at].id] + Names(kids[at + 1..])
  {
    NamesOne(kids[at]);
    hide Names;
    assert kids == kids[..at] + [kids[at]] + kids[at + 1..];
    NamesBeside(kids[..at] + [kids[at]], kids[at + 1..]);
    NamesBeside(kids[..at], [kids[at]]);
  }

  lemma WrappedLands(moved: seq<Node>, t: Node, at: nat, newId: nat, m: Node)
    requires Unique(moved) && t.Group? && at < |t.kids| && t.kids[at].Leaf?
    requires t.id in Ids(moved) && Find(moved, t.id) == Some(WrapKid(t, at, newId, m))
    requires Leaves([m]) != [] && Tidy([m]) == [m]
    ensures Find(Tidy(moved), newId) == Some(Pair(newId, t.kids[at], m))
    ensures t.id in Ids(Tidy(moved)) && Find(Tidy(moved), t.id).value.Group?
    ensures LandsOn(Find(Tidy(moved), t.id).value.kids, Names(t.kids), t.kids[at].id, Pair(newId, t.kids[at], m))
  {
    var n, both := WrapKid(t, at, newId, m), Pair(newId, t.kids[at], m);
    WrapKidIs(t, at, newId, m);
    PairIsTidy(newId, t.kids[at], m);
    hide Unique, Find, Ids, Tidy, Leaves, WrapKid, Pair, TidyNode, Names, LandsOn;
    KidIsFound(moved, t.id, at);
    TidyFind(moved, t.id);
    TidyFind(moved, newId);
    WrappedKids(t, at, both, n);
    TidyNodeIs(n);
  }

  lemma HoldsTheOne(n: Node, l: seq<Node>, x: Node, r: seq<Node>)
    requires n.Group? && n.kids == l + [x] + r && Leaves([x]) != []
    ensures Leaves([n]) != []
  {
    hide Leaves;
    Headed([n]);
    Apart(l, x, r);
    assert |Leaves(l) + Leaves([x]) + Leaves(r)| > 0;
  }

  lemma WrappedKids(t: Node, at: nat, both: Node, n: Node)
    requires t.Group? && at < |t.kids| && n.Group? && n.kids == t.kids[..at] + [both] + t.kids[at + 1..]
    requires Leaves([both]) != [] && Tidy([both]) == [both]
    ensures Leaves([n]) != [] && LandsOn(Tidy(n.kids), Names(t.kids), t.kids[at].id, both)
  {
    var l, r := t.kids[..at], t.kids[at + 1..];
    hide Tidy, Leaves, Names;
    HoldsTheOne(n, l, both, r);
    TidyAround(l, both, r);
    NamesAround(t.kids, at);
    assert LandsOnBetween(Tidy(n.kids), Names(t.kids), t.kids[at].id, both, l, r);
  }

  lemma TidyNodeIs(n: Node)
    requires n.Group?
    ensures TidyNode(n).Group? && TidyNode(n).kids == Tidy(n.kids)
  {}

  lemma PairIsTidy(newId: nat, t: Node, m: Node)
    requires t.Leaf? && Leaves([m]) != [] && Tidy([m]) == [m]
    ensures var both := Pair(newId, t, m); both.id == newId && Leaves([both]) != [] && TidyNode(both) == both && Tidy([both]) == [both]
  {
    Headed([Pair(newId, t, m)]);
    TidyHead([t, m]);
    assert [t, m][1..] == [m];
    Headed([t, m]);
    Headed([t]);
  }

  // ----- what is gone, and which path is which -------------------------------------------------------

  /** Gone are exactly the groups the move left without a criterion; new is only the `and` of a wrap. */
  lemma GoneAreTheEmptied(ks: seq<Node>, src: Path, dest: Dest, newId: nat, after: seq<Node>, id: nat)
    requires Planned(ks, src, dest, newId) && Makes(ks, src, dest, newId, after)
    ensures id in Ids(after) && id !in Ids(ks) ==> id == newId
    ensures id in Ids(ks) ==>
              && id in Ids(Relocated(ks, src, dest, newId))
              && (id !in Ids(after) <==> Leaves([Find(Relocated(ks, src, dest, newId), id).value]) == [])
  {
    hide Unique, Ids, Leaves, Kinds, Tidy, WellBut, Relocated, NodeAt, MovedBlock, Find;
    TidyFind(Relocated(ks, src, dest, newId), id);
  }

  /** The map of a move: each path leads after it to the object it led to before. */
  lemma KeptPathsLead(before: seq<Node>, after: seq<Node>, p: Path)
    requires Unique(before) && Unique(after) && p in PathsKept(before, after)
    ensures var q := PathsKept(before, after)[p];
      && NodeAt(before, p).Some? && NodeAt(after, q).Some?
      && NodeAt(before, p).value.id == NodeAt(after, q).value.id
  {
    PathsDiffer(before);
    var id :| id in Ids(before) * Ids(after) && PathOf(before, id) == p;
    PathLeads(before, id);
    PathLeads(after, id);
  }

  /** No node is missing from it but those removed, no place but those newly made, and no two paths meet. */
  lemma KeptPathsAreAll(before: seq<Node>, after: seq<Node>, p: Path)
    requires Unique(before) && Unique(after)
    ensures p in PathsKept(before, after) <==> NodeAt(before, p).Some? && NodeAt(before, p).value.id in Ids(after)
    ensures p in PathsKept(before, after).Values <==> NodeAt(after, p).Some? && NodeAt(after, p).value.id in Ids(before)
    ensures forall q, r :: (q in PathsKept(before, after) && r in PathsKept(before, after)
                            && PathsKept(before, after)[q] == PathsKept(before, after)[r]) ==> q == r
  {
    var kept := PathsKept(before, after);
    PathsDiffer(before);
    PathsDiffer(after);
    if NodeAt(before, p).Some? {
      OnePath(before, p);
    }
    if p in kept {
      KeptPathsLead(before, after, p);
    }
    if NodeAt(after, p).Some? {
      OnePath(after, p);
      var id := NodeAt(after, p).value.id;
      if id in Ids(before) {
        assert kept[PathOf(before, id)] == p;
      }
    }
    if p in kept.Values {
      var q :| q in kept && kept[q] == p;
      KeptPathsLead(before, after, q);
      OnePath(before, q);
    }
    forall q, r | q in kept && r in kept && kept[q] == kept[r]
      ensures q == r
    {
      KeptPathsLead(before, after, q);
      KeptPathsLead(before, after, r);
      OnePath(before, q);
      OnePath(before, r);
    }
  }

  // ----- what stays ------------------------------------------------------------------------------------

  /** Every criterion is kept exactly once, and unchanged. */
  lemma MoveKeepsEveryCriterion(ks: seq<Node>, src: Path, dest: Dest, newId: nat, after: seq<Node>)
    requires Movable(ks, src, dest) && Makes(ks, src, dest, newId, after)
    ensures multiset(Leaves(after)) == multiset(Leaves(ks))
  {
    var block := Leaves([NodeAt(ks, src).value]);
    var a, b, x, y :| Splits(Leaves(ks), a, block, b) && Splits(Leaves(after), x, block, y) && a + b == x + y;
    assert multiset(a + b) == multiset(x + y);
    assert multiset(a + block + b) == multiset(a + b) + multiset(block);
    assert multiset(x + block + y) == multiset(x + y) + multiset(block);
  }

  /** The place before child `index` of `n` children, counted without child `i`; the end for none. */
  function PlaceWithout(n: nat, i: nat, index: Option<nat>): nat
    requires i < n
  {
    if index.None? || index.value >= n then n - 1 else if index.value > i then index.value - 1 else index.value
  }

  lemma PutThere<T>(s: seq<T>, i: nat, at: nat)
    requires i < |s| && at < |s|
    ensures var put := Inserted(Without(s, i), at, s[i]);
      |put| == |s| && put[at] == s[i] && (at == i ==> put == s)
  {}

  /** `SamePlace` says exactly that the place is in the node's own group, and that out and in there its children are what they were. */
  lemma SamePlaceIff(ks: seq<Node>, src: Path, dest: Dest)
    requires Unique(ks) && |src| > 1 && NodeAt(ks, src).Some?
    ensures NodeAt(ks, Above(src)).Some? && NodeAt(ks, Above(src)).value.Group? && Last(src) < |NodeAt(ks, Above(src)).value.kids|
    ensures var kids, i := NodeAt(ks, Above(src)).value.kids, Last(src);
      SamePlace(ks, src, dest) <==>
      dest.path == Above(src) && Inserted(Without(kids, i), PlaceWithout(|kids|, i, IndexIn(dest)), kids[i]) == kids
  {
    hide Unique, Find, Ids, NodeAt, Inserted, Without;
    SourceIs(ks, src);
    var kids, i := NodeAt(ks, Above(src)).value.kids, Last(src);
    var at := PlaceWithout(|kids|, i, IndexIn(dest));
    PutThere(kids, i, at);
    if at != i {
      GroupUnique(ks, Above(src));
      KidsDiffer(kids, i, at);
    }
  }

  lemma GroupUnique(ks: seq<Node>, path: Path)
    requires Unique(ks) && NodeAt(ks, path).Some? && NodeAt(ks, path).value.Group?
    ensures Unique(NodeAt(ks, path).value.kids)
  {
    OnePath(ks, path);
    FoundIsInside(ks, NodeAt(ks, path).value.id);
    Headed([NodeAt(ks, path).value]);
  }

  lemma KidsDiffer(kids: seq<Node>, i: nat, j: nat)
    requires Unique(kids) && i < |kids| && j < |kids| && i != j
    ensures kids[i].id != kids[j].id
  {
    OnePath(kids, [i]);
    OnePath(kids, [j]);
  }
}
