/**
 * The edits a move makes, one object at a time - a child leaves, a child comes,
 * a criterion is wrapped - and the two loops that repair what is left behind.
 */
module TreeEdits {
  import opened Common
  import opened Tree

  // ----- one group's children --------------------------------------------------------------------

  function Without<T>(s: seq<T>, i: nat): (r: seq<T>)
    requires i < |s|
  {
    s[..i] + s[i + 1..]
  }

  function Inserted<T>(s: seq<T>, at: nat, x: T): seq<T>
  {
    if at <= |s| then s[..at] + [x] + s[at..] else s + [x]
  }

  /** The weight a child of a `weighted` has. */
  function WeightAt(n: Node, i: nat): Option<real>
  {
    if n.Group? && n.comb == Weighted && n.weights.Some? && i < |n.weights.value| then Some(n.weights.value[i]) else None
  }

  /** A child leaves its group, and its weight with it. */
  function DropKid(n: Node, i: nat): (r: Node)
    ensures r.id == n.id
  {
    if n.Group? && i < |n.kids| then
      n.(kids := Without(n.kids, i),
         weights := if WeightAt(n, i).Some? then Some(Without(n.weights.value, i)) else n.weights)
    else n
  }

  function AddKid(n: Node, at: nat, m: Node, weight: real): (r: Node)
    ensures r.id == n.id
  {
    if n.Group? then
      n.(kids := Inserted(n.kids, at, m),
         weights := if n.comb == Weighted && n.weights.Some? then Some(Inserted(n.weights.value, at, weight)) else n.weights)
    else n
  }

  function Pair(newId: nat, target: Node, m: Node): Node
  {
    Group(newId, And, None, None, "", [target, m])
  }

  function WrapKid(n: Node, at: nat, newId: nat, m: Node): (r: Node)
    ensures r.id == n.id
  {
    if n.Group? && at < |n.kids| then n.(kids := n.kids[at := Pair(newId, n.kids[at], m)]) else n
  }

  lemma Apart(l: seq<Node>, x: Node, r: seq<Node>)
    ensures Ids(l + [x] + r) == Ids(l) + Ids([x]) + Ids(r)
    ensures Leaves(l + [x] + r) == Leaves(l) + Leaves([x]) + Leaves(r)
    ensures Unique(l + [x] + r) <==>
            && Unique(l) && Unique([x]) && Unique(r)
            && Ids(l) !! Ids([x]) && Ids(l) !! Ids(r) && Ids([x]) !! Ids(r)
  {
    hide Ids, Unique, Leaves;
    Beside(l + [x], r);
    Beside(l, [x]);
  }

  lemma SplitAt<T>(s: seq<T>, i: nat)
    requires i < |s|
    ensures s == s[..i] + [s[i]] + s[i + 1..]
  {}

  /** A group's children, taken apart at one of them. */
  lemma KidsApart(kids: seq<Node>, i: nat)
    requires i < |kids|
    ensures kids == kids[..i] + [kids[i]] + kids[i + 1..]
    ensures Ids(kids) == Ids(kids[..i]) + Ids([kids[i]]) + Ids(kids[i + 1..])
    ensures Leaves(kids) == Leaves(kids[..i]) + Leaves([kids[i]]) + Leaves(kids[i + 1..])
    ensures Unique(kids) <==>
            && Unique(kids[..i]) && Unique([kids[i]]) && Unique(kids[i + 1..])
            && Ids(kids[..i]) !! Ids([kids[i]]) && Ids(kids[..i]) !! Ids(kids[i + 1..]) && Ids([kids[i]]) !! Ids(kids[i + 1..])
  {
    hide *;
    var l, x, r := kids[..i], kids[i], kids[i + 1..];
    Apart(l, x, r);
    SplitAt(kids, i);
    assert kids == l + [x] + r;
  }

  lemma DropKidHolds(n: Node, i: nat)
    requires n.Group? && i < |n.kids| && Unique([n])
    ensures Ids([DropKid(n, i)]) == Ids([n]) - Ids([n.kids[i]])
    ensures Unique([DropKid(n, i)]) && Ids([n.kids[i]]) <= Ids([n])
    ensures n.id !in Ids([n.kids[i]])
    ensures Leaves([n]) == Leaves(n.kids[..i]) + Leaves([n.kids[i]]) + Leaves(n.kids[i + 1..])
    ensures Leaves([DropKid(n, i)]) == Leaves(n.kids[..i]) + Leaves(n.kids[i + 1..])
  {
    hide Ids, Unique, Leaves;
    var n' := DropKid(n, i);
    Headed([n]);
    Headed([n']);
    KidsApart(n.kids, i);
    Beside(n.kids[..i], n.kids[i + 1..]);
    Beside(n.kids[..i], [n.kids[i]]);
    assert n'.kids == n.kids[..i] + n.kids[i + 1..];
  }

  lemma AddKidHolds(n: Node, at: nat, m: Node, weight: real)
    requires n.Group? && at <= |n.kids| && Unique([n]) && Unique([m]) && Ids([n]) !! Ids([m])
    ensures Ids([AddKid(n, at, m, weight)]) == Ids([n]) + Ids([m])
    ensures Unique([AddKid(n, at, m, weight)])
    ensures Leaves([n]) == Leaves(n.kids[..at]) + Leaves(n.kids[at..])
    ensures Leaves([AddKid(n, at, m, weight)]) == Leaves(n.kids[..at]) + Leaves([m]) + Leaves(n.kids[at..])
  {
    hide Ids, Unique, Leaves;
    var n' := AddKid(n, at, m, weight);
    Headed([n]);
    Headed([n']);
    assert n.kids == n.kids[..at] + n.kids[at..];
    Beside(n.kids[..at], n.kids[at..]);
    KidsApart(n'.kids, at);
    assert n'.kids[..at] == n.kids[..at] && n'.kids[at] == m && n'.kids[at + 1..] == n.kids[at..];
    Beside(n.kids[..at], [m]);
  }

  lemma PairHolds(newId: nat, target: Node, m: Node)
    requires Unique([target]) && Unique([m]) && Ids([target]) !! Ids([m]) && newId !in Ids([target]) + Ids([m])
    ensures Ids([Pair(newId, target, m)]) == {newId} + Ids([target]) + Ids([m])
    ensures Unique([Pair(newId, target, m)])
    ensures Leaves([Pair(newId, target, m)]) == Leaves([target]) + Leaves([m])
  {
    hide Ids, Unique, Leaves;
    Headed([Pair(newId, target, m)]);
    Beside([target], [m]);
    assert [target] + [m] == [target, m];
  }

  lemma WrapKidHolds(n: Node, at: nat, newId: nat, m: Node)
    requires n.Group? && at < |n.kids| && Unique([n]) && Unique([m]) && Ids([n]) !! Ids([m]) && newId !in Ids([n]) + Ids([m])
    ensures Ids([WrapKid(n, at, newId, m)]) == Ids([n]) + {newId} + Ids([m])
    ensures Unique([WrapKid(n, at, newId, m)])
    ensures Leaves([n]) == Leaves(n.kids[..at + 1]) + Leaves(n.kids[at + 1..])
    ensures Leaves([WrapKid(n, at, newId, m)]) == Leaves(n.kids[..at + 1]) + Leaves([m]) + Leaves(n.kids[at + 1..])
  {
    hide Ids, Unique, Leaves, WrapKid;
    var n' := WrapKid(n, at, newId, m);
    var l, t, r := n.kids[..at], n.kids[at], n.kids[at + 1..];
    WrapParts(n, at, newId, m);
    Headed([n]);
    Headed([n']);
    KidsApart(n.kids, at);
    KidsApart(n'.kids, at);
    PairHolds(newId, t, m);
    Beside(l, [t]);
    Beside(l, [n'.kids[at]]);
    Associates(Leaves(l), Leaves([t]), Leaves([m]));
  }

  lemma WrapParts(n: Node, at: nat, newId: nat, m: Node)
    requires n.Group? && at < |n.kids|
    ensures var n' := WrapKid(n, at, newId, m);
      && n'.Group? && n'.id == n.id && |n'.kids| == |n.kids|
      && n'.kids[..at] == n.kids[..at] && n'.kids[at] == Pair(newId, n.kids[at], m) && n'.kids[at + 1..] == n.kids[at + 1..]
    ensures n.kids[..at + 1] == n.kids[..at] + [n.kids[at]]
  {}

  // ----- the repairs along the source's ancestors ------------------------------------------------

  /** `kid` is a child of the group `up`. */
  predicate IsKid(ks: seq<Node>, up: nat, kid: nat)
  {
    up in Ids(ks) && At(ks, up).Holds? && kid in At(ks, up).kids
  }

  /** The ancestors of one place, from its group to the root. */
  predicate IsChain(ks: seq<Node>, chain: seq<nat>)
  {
    && |ks| == 1 && ks[0].Group? && chain != [] && chain[|chain| - 1] == ks[0].id
    && (forall a :: 0 <= a < |chain| - 1 ==> IsKid(ks, chain[a + 1], chain[a]))
    && (forall a, b :: 0 <= a < b < |chain| ==> chain[a] != chain[b])
    && chain[0] in Ids(ks) && At(ks, chain[0]).Holds?
  }

  function IndexOf(kids: seq<Node>, id: nat): (i: nat)
    requires id in Names(kids)
    ensures i < |kids| && kids[i].id == id
  {
    assert Names(kids) == [kids[0].id] + Names(kids[1..]);
    if kids[0].id == id then 0 else IndexOf(kids[1..], id) + 1
  }

  /** The child a group names is the object the forest finds. */
  lemma {:induction false} KidIsFound(ks: seq<Node>, up: nat, i: nat)
    requires Unique(ks) && up in Ids(ks)
    requires var n := Find(ks, up).value; n.Group? && i < |n.kids|
    ensures var kid := Find(ks, up).value.kids[i];
      kid.id in Ids(ks) && Find(ks, kid.id) == Some(kid)
  {
    var n := Find(ks, up).value;
    FoundIsInside(ks, up);
    Headed([n]);
    OnePath(n.kids, [i]);
    FoundInFound(ks, up, n.kids[i].id);
  }

  /** What a node holds is found in it. */
  lemma {:induction false} FoundInFound(ks: seq<Node>, id: nat, p: nat)
    requires Unique(ks) && id in Ids(ks) && p in Ids([Find(ks, id).value])
    ensures Find(ks, p) == Find([Find(ks, id).value], p)
  {
    var n := Find(ks, id).value;
    EditNothing(ks, id, x => x);
    EditFind(ks, id, x => x, p);
  }

  /** An empty group dropped from its parent: no criterion, no repair and no other object is lost. */
  lemma DropEmptyNode(n: Node, i: nat)
    requires n.Group? && i < |n.kids| && n.kids[i].Group? && n.kids[i].kids == [] && Unique([n])
    ensures Leaves([DropKid(n, i)]) == Leaves([n])
    ensures Tidy([DropKid(n, i)]) == Tidy([n])
    ensures Ids([DropKid(n, i)]) == Ids([n]) - {n.kids[i].id}
  {
    DropKidHolds(n, i);
    Headed([n.kids[i]]);
    assert Leaves([n.kids[i]]) == [] && Ids([n.kids[i]]) == {n.kids[i].id};
    TidyWithout(n, i);
    TidyOne(n);
    TidyOne(DropKid(n, i));
    hide *;
    NothingBetween(Leaves(n.kids[..i]), Leaves(n.kids[i + 1..]));
  }

  lemma NothingBetween<T>(a: seq<T>, b: seq<T>)
    ensures a + [] + b == a + b
  {}

  lemma TidyOne(n: Node)
    ensures Tidy([n]) == if Leaves([n]) == [] then [] else [TidyNode(n)]
  {
    assert [n][1..] == [];
  }

  lemma TidyWithout(n: Node, i: nat)
    requires n.Group? && i < |n.kids| && Leaves([n.kids[i]]) == []
    ensures TidyNode(DropKid(n, i)) == TidyNode(n)
  {
    var l, r := n.kids[..i], n.kids[i + 1..];
    assert Tidy(l + r) == Tidy(n.kids) by {
      assert Tidy([n.kids[i]]) == [];
      hide *;
      TidyBeside(l, r);
      TidyBeside(l, [n.kids[i]]);
      TidyBeside(l + [n.kids[i]], r);
      SplitAt(n.kids, i);
      assert Tidy(l) + [] == Tidy(l);
    }
    if n.weights.Some? {
      KeptWithout(n.kids, n.weights.value, i);
    }
  }

  lemma {:induction false} TidyBeside(a: seq<Node>, b: seq<Node>)
    ensures Tidy(a + b) == Tidy(a) + Tidy(b)
  {
    if a == [] {
      assert a + b == b;
    } else {
      assert (a + b)[1..] == a[1..] + b;
      TidyBeside(a[1..], b);
    }
  }

  lemma {:induction false} KeptWithout(kids: seq<Node>, weights: seq<real>, i: nat)
    requires i < |kids| && Leaves([kids[i]]) == []
    ensures KeptWeights(kids, weights) == KeptWeights(Without(kids, i), if i < |weights| then Without(weights, i) else weights)
  {
    if weights == [] {
    } else if i == 0 {
      assert Without(kids, 0) == kids[1..] && Without(weights, 0) == weights[1..];
    } else {
      assert Without(kids, i)[1..] == Without(kids[1..], i - 1);
      if i < |weights| {
        assert Without(weights, i)[1..] == Without(weights[1..], i - 1);
      }
      KeptWithout(kids[1..], weights[1..], i - 1);
    }
  }

  lemma LowerKNode(n: Node)
    ensures Leaves([LowerK(n)]) == Leaves([n]) && Ids([LowerK(n)]) == Ids([n]) && (Unique([n]) ==> Unique([LowerK(n)]))
    ensures Tidy([LowerK(n)]) == Tidy([n])
  {
    Headed([n]);
    Headed([LowerK(n)]);
    if n.Group? {
      TidyLeaves(n.kids);
      TidyShrinks(n.kids);
    }
  }

  lemma {:induction false} TidyShrinks(ks: seq<Node>)
    ensures |Tidy(ks)| <= |ks|
  {
    if ks != [] {
      TidyShrinks(ks[1..]);
    }
  }

  // ----- the edits of a move ---------------------------------------------------------------------

  function Dropping(i: nat): (f: Node -> Node)
    ensures forall n :: f(n) == DropKid(n, i)
  {
    n => DropKid(n, i)
  }

  function Adding(at: nat, m: Node, weight: real): (f: Node -> Node)
    ensures forall n :: f(n) == AddKid(n, at, m, weight)
  {
    n => AddKid(n, at, m, weight)
  }

  function Wrapping(at: nat, newId: nat, m: Node): (f: Node -> Node)
    ensures forall n :: f(n) == WrapKid(n, at, newId, m)
  {
    n => WrapKid(n, at, newId, m)
  }

  lemma KidIsUnique(n: Node, i: nat)
    requires Unique([n]) && n.Group? && i < |n.kids|
    ensures Unique([n.kids[i]])
  {
    Headed([n]);
    KidsApart(n.kids, i);
  }

  /** A child leaves: exactly what it holds is gone, and no other criterion moves. */
  lemma DropHolds(ks: seq<Node>, up: nat, i: nat)
    requires Unique(ks) && up in Ids(ks)
    requires var n := Find(ks, up).value; n.Group? && i < |n.kids|
    ensures var n := Find(ks, up).value; var kid := n.kids[i]; var after := Edit(ks, up, Dropping(i));
      && Ids(after) == Ids(ks) - Ids([kid]) && Unique(after)
      && Unique([kid]) && up !in Ids([kid]) && Ids([kid]) <= Ids(ks)
      && Leaves(ks) == LeftOf(ks, up) + (Leaves(n.kids[..i]) + Leaves([kid]) + Leaves(n.kids[i + 1..])) + RightOf(ks, up)
      && Leaves(after) == LeftOf(ks, up) + (Leaves(n.kids[..i]) + Leaves(n.kids[i + 1..])) + RightOf(ks, up)
      && Find(after, up) == Some(DropKid(n, i))
  {
    hide *;
    var f := Dropping(i);
    var n := Find(ks, up).value;
    FoundIsInside(ks, up);
    DropKidHolds(n, i);
    KidIsUnique(n, i);
    EditIds(ks, up, f);
    EditUnique(ks, up, f);
    LeavesAround(ks, up);
    EditLeaves(ks, up, f);
    EditFind(ks, up, f, up);
    FindHeaded([DropKid(n, i)], up);
  }

  /** Every object that stays is as it was, but the one that lost a child. */
  lemma DropRow(ks: seq<Node>, up: nat, i: nat, p: nat)
    requires Unique(ks) && up in Ids(ks) && p in Ids(ks) && p != up
    requires var n := Find(ks, up).value; n.Group? && i < |n.kids| && p !in Ids([n.kids[i]])
    ensures var after := Edit(ks, up, Dropping(i)); p in Ids(after) && At(after, p) == At(ks, p)
  {
    hide *;
    var n := Find(ks, up).value;
    DropHolds(ks, up, i);
    FoundIsInside(ks, up);
    DropKidHolds(n, i);
    EditFind(ks, up, Dropping(i), p);
    if p in Ids([n]) {
      FoundInFound(ks, up, p);
      FoundAfterDrop(n, i, p);
      SameAt(ks, Edit(ks, up, Dropping(i)), p);
    }
  }

  lemma SameAt(a: seq<Node>, b: seq<Node>, p: nat)
    requires p in Ids(a) && p in Ids(b) && Find(a, p) == Find(b, p)
    ensures At(a, p) == At(b, p)
  {}

  /** Who is whose child, for the objects that stay. */
  lemma DropKids(ks: seq<Node>, up: nat, i: nat, p: nat, c: nat)
    requires Unique(ks) && up in Ids(ks) && IsKid(ks, p, c)
    requires var n := Find(ks, up).value; n.Group? && i < |n.kids| && p !in Ids([n.kids[i]]) && c != n.kids[i].id
    ensures IsKid(Edit(ks, up, Dropping(i)), p, c)
  {
    hide Ids, Unique, Edit, Find, DropKid;
    var n := Find(ks, up).value;
    DropHolds(ks, up, i);
    if p == up {
      DropNames(n, i);
      WithoutKeeps(Names(n.kids), i, c);
    } else {
      DropRow(ks, up, i, p);
    }
  }

  /** The names of a group's children, one of them gone. */
  lemma DropNames(n: Node, i: nat)
    requires n.Group? && i < |n.kids|
    ensures DropKid(n, i).Group? && Names(DropKid(n, i).kids) == Without(Names(n.kids), i)
  {
    var kids := DropKid(n, i).kids;
    assert |Names(kids)| == |Without(Names(n.kids), i)|;
    forall k | 0 <= k < |kids|
      ensures Names(kids)[k] == Without(Names(n.kids), i)[k]
    {
      assert kids[k] == n.kids[if k < i then k else k + 1];
    }
  }

  lemma WithoutKeeps<T>(s: seq<T>, i: nat, x: T)
    requires i < |s| && x in s && x != s[i]
    ensures x in Without(s, i)
  {
    var a :| 0 <= a < |s| && s[a] == x;
    assert Without(s, i)[if a < i then a else a - 1] == x;
  }

  /** What stays in a group that lost a child is found as it was. */
  lemma FoundAfterDrop(n: Node, i: nat, p: nat)
    requires Unique([n]) && n.Group? && i < |n.kids| && p in Ids([n]) && p !in Ids([n.kids[i]]) && p != n.id
    ensures Find([DropKid(n, i)], p) == Find([n], p)
  {
    hide *;
    var l, x, r := n.kids[..i], n.kids[i], n.kids[i + 1..];
    FindHeaded([n], p);
    FindHeaded([DropKid(n, i)], p);
    assert DropKid(n, i).kids == l + r by { DropKidIs(n, i); }
    SplitAt(n.kids, i);
    FindBeside(l, r, p);
    FindBeside(l + [x], r, p);
    FindBeside(l, [x], p);
  }

  lemma DropKidIs(n: Node, i: nat)
    requires n.Group? && i < |n.kids|
    ensures DropKid(n, i).Group? && DropKid(n, i).kids == n.kids[..i] + n.kids[i + 1..]
  {}

  lemma {:induction false} FindBeside(a: seq<Node>, b: seq<Node>, p: nat)
    ensures Find(a + b, p) == if p in Ids(a) then Find(a, p) else Find(b, p)
  {
    if a == [] {
      assert a + b == b;
    } else {
      assert (a + b)[1..] == a[1..] + b;
      FindHeaded(a, p);
      FindHeaded(a + b, p);
      Headed(a);
      FindBeside(a[1..], b, p);
    }
  }

  lemma ChainAt(ks: seq<Node>, chain: seq<nat>)
    requires IsChain(ks, chain)
    ensures |ks| == 1 && chain != [] && chain[0] in Ids(ks) && Find(ks, chain[0]).value.Group?
    ensures |chain| > 1 ==> chain[1] in Ids(ks) && Find(ks, chain[1]).value.Group? && chain[0] in Names(Find(ks, chain[1]).value.kids)
  {
    if |chain| > 1 {
      assert IsKid(ks, chain[0 + 1], chain[0]);
    }
  }

  /** The root never empties: it holds every criterion there is. */
  lemma RootHolds(ks: seq<Node>, chain: seq<nat>)
    requires IsChain(ks, chain) && |chain| == 1
    ensures Leaves(ks) != [] ==> Find(ks, chain[0]).value.kids != []
  {
    assert [ks[0]] == ks;
    Headed(ks);
    FindHeaded(ks, ks[0].id);
  }

  // ----- what the repairs keep ---------------------------------------------------------------------

  /** What every repair keeps of the tree. */
  ghost predicate SameBut(ks: seq<Node>, after: seq<Node>)
  {
    && Unique(after) && |after| == |ks| && Ids(after) <= Ids(ks)
    && Leaves(after) == Leaves(ks) && Tidy(after) == Tidy(ks) && Kinds(after) <= Kinds(ks)
  }

  lemma DropEmptySameBut(ks: seq<Node>, up: nat, i: nat)
    requires Unique(ks) && up in Ids(ks)
    requires var n := Find(ks, up).value; n.Group? && i < |n.kids| && n.kids[i].Group? && n.kids[i].kids == []
    ensures SameBut(ks, Edit(ks, up, Dropping(i)))
  {
    hide Ids, Unique, Edit, Find, Leaves, Tidy, Kinds, DropKid;
    var n := Find(ks, up).value;
    DropHolds(ks, up, i);
    FoundIsInside(ks, up);
    DropEmptyNode(n, i);
    LeavesAround(ks, up);
    EditLeaves(ks, up, Dropping(i));
    EditTidy(ks, up, Dropping(i));
    EditKinds(ks, up, Dropping(i));
    DropKinds(n, i);
  }

  lemma DropKinds(n: Node, i: nat)
    requires n.Group? && i < |n.kids|
    ensures Kinds([DropKid(n, i)]) <= Kinds([n])
  {
    hide Kinds;
    var l, x, r := n.kids[..i], n.kids[i], n.kids[i + 1..];
    KindsOne(n);
    KindsOne(DropKid(n, i));
    SplitAt(n.kids, i);
    KindsBeside(l + [x], r);
    KindsBeside(l, [x]);
    KindsBeside(l, r);
    assert DropKid(n, i).kids == l + r;
  }

  /** The root stays the root. */
  lemma EditRoot(ks: seq<Node>, id: nat, f: Node -> Node)
    requires |ks| == 1 && Unique(ks) && id in Ids(ks)
    requires var n := Find(ks, id).value; f(n).id == id && (n.Group? ==> f(n).Group?)
    ensures Edit(ks, id, f)[0].id == ks[0].id && (ks[0].Group? ==> Edit(ks, id, f)[0].Group?)
  {
    EditHead(ks, id, f);
  }

  lemma DropWell(n: Node, i: nat, broken: set<nat>)
    requires n.Group? && i < |n.kids| && WellBut([n], broken) && n.id in broken
    ensures WellBut([DropKid(n, i)], broken)
  {
    var l, x, r := n.kids[..i], n.kids[i], n.kids[i + 1..];
    SplitAt(n.kids, i);
    WellBeside(l + [x], r, broken);
    WellBeside(l, [x], broken);
    WellBeside(l, r, broken);
    assert DropKid(n, i).kids == l + r;
    assert [DropKid(n, i)][1..] == [];
  }

  /** The group that lost a child is the only one that may want a repair now. */
  lemma DropLeavesWell(ks: seq<Node>, up: nat, i: nat, broken: set<nat>)
    requires Unique(ks) && up in Ids(ks) && WellBut(ks, broken)
    requires var n := Find(ks, up).value; n.Group? && i < |n.kids| && broken <= Ids([n.kids[i]])
    ensures WellBut(Edit(ks, up, Dropping(i)), {up})
  {
    hide *;
    var n := Find(ks, up).value;
    var after := Edit(ks, up, Dropping(i));
    WellElsewhere(ks, broken, broken + {up});
    FoundIsWell(ks, up, broken + {up});
    DropWell(n, i, broken + {up});
    assert broken + {up} + {up} == broken + {up};
    EditWell(ks, up, Dropping(i), broken + {up});
    DropHolds(ks, up, i);
    WellElsewhere(after, broken + {up}, {up});
  }

  lemma PruneChain(ks: seq<Node>, chain: seq<nat>, i: nat)
    requires Unique(ks) && IsChain(ks, chain) && |chain| > 1
    requires var n := Find(ks, chain[1]).value; n.Group? && i < |n.kids| && Ids([n.kids[i]]) == {chain[0]} && n.kids[i].id == chain[0]
    ensures IsChain(Edit(ks, chain[1], Dropping(i)), chain[1..])
  {
    hide Ids, Unique, Edit, Find;
    var after, rest := Edit(ks, chain[1], Dropping(i)), chain[1..];
    DropHolds(ks, chain[1], i);
    forall a | 0 <= a < |rest| - 1
      ensures IsKid(after, rest[a + 1], rest[a])
    {
      assert IsKid(ks, chain[a + 2], chain[a + 1]);
      DropKids(ks, chain[1], i, chain[a + 2], chain[a + 1]);
    }
    EditRoot(ks, chain[1], Dropping(i));
  }

  /** One step up: the empty group is gone, its parent is the next that may want a repair. */
  lemma PruneStep(ks: seq<Node>, chain: seq<nat>, i: nat)
    requires Unique(ks) && IsChain(ks, chain) && |chain| > 1
    requires var e := Find(ks, chain[0]).value; e.Group? && e.kids == []
    requires var n := Find(ks, chain[1]).value; n.Group? && i < |n.kids| && n.kids[i].id == chain[0]
    ensures SameBut(ks, Edit(ks, chain[1], Dropping(i)))
    ensures IsChain(Edit(ks, chain[1], Dropping(i)), chain[1..])
    ensures Ids(Edit(ks, chain[1], Dropping(i))) == Ids(ks) - {chain[0]}
    ensures WellBut(ks, {chain[0]}) ==> WellBut(Edit(ks, chain[1], Dropping(i)), {chain[1]})
  {
    hide Unique, Edit, Find, IsChain, SameBut, WellBut;
    assert chain[1] in Ids(ks) by { assert IsKid(ks, chain[0 + 1], chain[0]) by { ChainLink(ks, chain, 0); } }
    KidIsFound(ks, chain[1], i);
    Headed([Find(ks, chain[0]).value]);
    DropEmptySameBut(ks, chain[1], i);
    DropHolds(ks, chain[1], i);
    PruneChain(ks, chain, i);
    if WellBut(ks, {chain[0]}) {
      DropLeavesWell(ks, chain[1], i, {chain[0]});
    }
  }

  lemma ChainLink(ks: seq<Node>, chain: seq<nat>, a: nat)
    requires IsChain(ks, chain) && a < |chain| - 1
    ensures IsKid(ks, chain[a + 1], chain[a])
  {}

  /** Loop one: a combinator the move emptied goes, up the tree. */
  method Prune(ks: seq<Node>, chain: seq<nat>) returns (cur: seq<Node>, j: nat)
    requires Unique(ks) && IsChain(ks, chain)
    ensures SameBut(ks, cur) && j < |chain| && IsChain(cur, chain[j..])
    ensures forall p :: p in Ids(ks) && p !in chain ==> p in Ids(cur)
    ensures WellBut(ks, {chain[0]}) ==> WellBut(cur, {chain[j]})
    ensures Leaves(ks) != [] ==> Find(cur, chain[j]).value.kids != []
  {
    hide Unique, Find, Ids, Leaves, IsChain, WellBut, IndexOf, Edit;
    cur, j := ks, 0;
    ChainAt(ks, chain);
    assert chain[0..] == chain;
    while j + 1 < |chain|
      invariant j < |chain| && SameBut(ks, cur) && IsChain(cur, chain[j..])
      invariant forall p :: p in Ids(ks) && p !in chain ==> p in Ids(cur)
      invariant WellBut(ks, {chain[0]}) ==> WellBut(cur, {chain[j]})
    {
      ChainAt(cur, chain[j..]);
      var node := Find(cur, chain[j]).value;
      if node.kids != [] {
        break;
      }
      ChainLink(cur, chain[j..], 0);
      var up := Find(cur, chain[j + 1]).value;
      var i := IndexOf(up.kids, chain[j]);
      PruneStep(cur, chain[j..], i);
      cur, j := Edit(cur, up.id, Dropping(i)), j + 1;
      assert chain[j - 1..][1..] == chain[j..];
    }
    ChainAt(cur, chain[j..]);
    if j + 1 == |chain| {
      RootHolds(cur, chain[j..]);
    }
  }

  lemma LowerSameBut(ks: seq<Node>, id: nat)
    requires Unique(ks) && id in Ids(ks)
    ensures SameBut(ks, Edit(ks, id, LowerK)) && Ids(Edit(ks, id, LowerK)) == Ids(ks)
  {
    hide Ids, Unique, Edit, Find, Leaves, Tidy, Kinds, LowerK;
    var n := Find(ks, id).value;
    FoundIsInside(ks, id);
    LowerKNode(n);
    EditIds(ks, id, LowerK);
    EditUnique(ks, id, LowerK);
    LeavesAround(ks, id);
    EditLeaves(ks, id, LowerK);
    EditTidy(ks, id, LowerK);
    EditKinds(ks, id, LowerK);
    assert Kinds([LowerK(n)]) == Kinds([n]) by { LowerKinds(n); }
  }

  lemma LowerKinds(n: Node)
    ensures Kinds([LowerK(n)]) == Kinds([n])
  {
    KindsOne(n);
    KindsOne(LowerK(n));
  }

  /** Only the group that lost a child has its `k` lowered, and then nothing is left to repair. */
  lemma LowerStep(ks: seq<Node>, id: nat, broken: nat)
    requires Unique(ks) && id in Ids(ks) && broken in Ids(ks)
    requires WellBut(ks, {broken}) && (Find(ks, broken).value.Group? ==> Find(ks, broken).value.kids != [])
    ensures if id == broken then Well(Edit(ks, id, LowerK)) else Edit(ks, id, LowerK) == ks
  {
    var n := Find(ks, id).value;
    FoundIsWell(ks, id, {broken});
    FoundIsInside(ks, id);
    Headed([n]);
    if id == broken {
      if n.Group? {
        WellElsewhere(n.kids, {broken}, {});
      }
      assert [LowerK(n)][1..] == [];
      assert WellBut([LowerK(n)], {});
      assert {} + {id} == {broken};
      EditWell(ks, id, LowerK, {});
    } else {
      EditNothing(ks, id, LowerK);
    }
  }

  lemma LowerNothing(ks: seq<Node>, id: nat)
    requires Unique(ks) && id in Ids(ks) && Well(ks)
    ensures Edit(ks, id, LowerK) == ks
  {
    FoundIsWell(ks, id, {});
    EditNothing(ks, id, LowerK);
  }

  /** Loop two: every `k-of-n` above the source has its `k` lowered to its criteria. */
  method LowerKs(ks: seq<Node>, chain: seq<nat>, ghost j: nat) returns (cur: seq<Node>)
    requires Unique(ks) && j < |chain| && chain[j] in Ids(ks)
    ensures SameBut(ks, cur) && Ids(cur) == Ids(ks)
    ensures WellBut(ks, {chain[j]}) && (Find(ks, chain[j]).value.Group? ==> Find(ks, chain[j]).value.kids != []) ==> Well(cur)
  {
    hide Unique, Edit, Find, WellBut, Ids;
    ghost var broken := chain[j];
    ghost var repairs := WellBut(ks, {broken}) && (Find(ks, broken).value.Group? ==> Find(ks, broken).value.kids != []);
    cur := ks;
    for a := 0 to |chain|
      invariant SameBut(ks, cur) && Ids(cur) == Ids(ks)
      invariant repairs ==> Well(cur) || (cur == ks && a <= j)
    {
      if chain[a] in Ids(cur) {
        LowerSameBut(cur, chain[a]);
        if repairs {
          if Well(cur) {
            LowerNothing(cur, chain[a]);
          } else {
            LowerStep(cur, chain[a], broken);
          }
        }
        cur := Edit(cur, chain[a], LowerK);
      }
    }
  }

  // ----- the moved node goes in --------------------------------------------------------------------

  ghost predicate Splits(s: seq<Node>, a: seq<Node>, block: seq<Node>, b: seq<Node>)
  {
    s == a + block + b
  }

  /** `after` is `before` with the block of criteria taken out and put back in one place. */
  ghost predicate MovedBlock(before: seq<Node>, block: seq<Node>, after: seq<Node>)
  {
    exists a, b, x, y :: Splits(before, a, block, b) && Splits(after, x, block, y) && a + b == x + y
  }

  /** A group that gains: what it held is found as it was, and so is every other object. */
  lemma GrowRow(ks: seq<Node>, g: nat, f: Node -> Node, p: nat)
    requires Unique(ks) && g in Ids(ks) && p in Ids(ks) && p != g
    requires var n := Find(ks, g).value;
      && f(n).id == g && (Ids([f(n)]) - Ids([n])) !! Ids(ks) && Ids([n]) <= Ids([f(n)])
      && (p in Ids([n]) ==> Find([f(n)], p) == Find([n], p))
    ensures p in Ids(Edit(ks, g, f)) && At(Edit(ks, g, f), p) == At(ks, p)
  {
    hide *;
    var n := Find(ks, g).value;
    EditIds(ks, g, f);
    EditFind(ks, g, f, p);
    if p in Ids([n]) {
      FoundInFound(ks, g, p);
      SameAt(ks, Edit(ks, g, f), p);
    }
  }

  lemma FoundAfterAdd(n: Node, at: nat, m: Node, weight: real, p: nat)
    requires n.Group? && at <= |n.kids| && p in Ids([n]) && p !in Ids([m])
    ensures Find([AddKid(n, at, m, weight)], p) == if p == n.id then Some(AddKid(n, at, m, weight)) else Find([n], p)
  {
    hide *;
    var l, r := n.kids[..at], n.kids[at..];
    assert AddKid(n, at, m, weight).Group? && AddKid(n, at, m, weight).kids == l + [m] + r by { AddKidIs(n, at, m, weight); }
    FindHeaded([n], p);
    FindHeaded([AddKid(n, at, m, weight)], p);
    assert n.kids == l + r;
    FindBeside(l, r, p);
    FindBeside(l + [m], r, p);
    FindBeside(l, [m], p);
    Beside(l, [m]);
  }

  lemma AddKidIs(n: Node, at: nat, m: Node, weight: real)
    requires n.Group? && at <= |n.kids|
    ensures AddKid(n, at, m, weight).Group? && AddKid(n, at, m, weight).kids == n.kids[..at] + [m] + n.kids[at..]
  {}

  lemma FoundAfterWrap(n: Node, at: nat, newId: nat, m: Node, p: nat)
    requires n.Group? && at < |n.kids| && p in Ids([n]) && p !in Ids([m]) && p != newId
    ensures Find([WrapKid(n, at, newId, m)], p) == if p == n.id then Some(WrapKid(n, at, newId, m)) else Find([n], p)
  {
    hide *;
    var l, t, r := n.kids[..at], n.kids[at], n.kids[at + 1..];
    var both := Pair(newId, t, m);
    assert WrapKid(n, at, newId, m).Group? && WrapKid(n, at, newId, m).kids == l + [both] + r by { WrapKidIs(n, at, newId, m); }
    FindHeaded([n], p);
    FindHeaded([WrapKid(n, at, newId, m)], p);
    SplitAt(n.kids, at);
    FindBeside(l + [t], r, p);
    FindBeside(l, [t], p);
    FindBeside(l + [both], r, p);
    FindBeside(l, [both], p);
    Beside(l, [t]);
    Beside(l, [both]);
    FindInPair(newId, t, m, p);
  }

  lemma WrapKidIs(n: Node, at: nat, newId: nat, m: Node)
    requires n.Group? && at < |n.kids|
    ensures WrapKid(n, at, newId, m).Group?
    ensures WrapKid(n, at, newId, m).kids == n.kids[..at] + [Pair(newId, n.kids[at], m)] + n.kids[at + 1..]
  {}

  lemma FindInPair(newId: nat, t: Node, m: Node, p: nat)
    requires p != newId && p !in Ids([m])
    ensures p in Ids([Pair(newId, t, m)]) <==> p in Ids([t])
    ensures Find([Pair(newId, t, m)], p) == Find([t], p)
  {
    FindHeaded([Pair(newId, t, m)], p);
    Headed([Pair(newId, t, m)]);
    assert [t] + [m] == [t, m];
    FindBeside([t], [m], p);
    Beside([t], [m]);
  }

  /** The moved node goes into a group: beside it nothing moves, and nothing else changes. */
  lemma AddHolds(ks: seq<Node>, into: nat, at: nat, m: Node, weight: real)
    requires Unique(ks) && into in Ids(ks) && Unique([m]) && Ids(ks) !! Ids([m])
    requires var n := Find(ks, into).value; n.Group? && at <= |n.kids|
    ensures var n := Find(ks, into).value; var after := Edit(ks, into, Adding(at, m, weight));
      && Ids(after) == Ids(ks) + Ids([m]) && Unique(after)
      && Leaves(ks) == LeftOf(ks, into) + (Leaves(n.kids[..at]) + Leaves(n.kids[at..])) + RightOf(ks, into)
      && Leaves(after) == LeftOf(ks, into) + (Leaves(n.kids[..at]) + Leaves([m]) + Leaves(n.kids[at..])) + RightOf(ks, into)
      && Find(after, into) == Some(AddKid(n, at, m, weight))
      && Kinds(after) <= Kinds(ks) + Kinds([m])
  {
    hide *;
    var f := Adding(at, m, weight);
    var n := Find(ks, into).value;
    FoundIsInside(ks, into);
    AddKidHolds(n, at, m, weight);
    EditIds(ks, into, f);
    EditUnique(ks, into, f);
    LeavesAround(ks, into);
    EditLeaves(ks, into, f);
    EditFind(ks, into, f, into);
    FindHeaded([AddKid(n, at, m, weight)], into);
    EditKinds(ks, into, f);
    AddKinds(n, at, m, weight);
  }

  lemma AddKinds(n: Node, at: nat, m: Node, weight: real)
    requires n.Group? && at <= |n.kids|
    ensures Kinds([AddKid(n, at, m, weight)]) <= Kinds([n]) + Kinds([m])
  {
    hide Kinds;
    var l, r := n.kids[..at], n.kids[at..];
    KindsOne(n);
    KindsOne(AddKid(n, at, m, weight));
    assert n.kids == l + r;
    KindsBeside(l, r);
    KindsBeside(l + [m], r);
    KindsBeside(l, [m]);
    assert AddKid(n, at, m, weight).kids == l + [m] + r;
  }

  lemma WrapHolds(ks: seq<Node>, holder: nat, at: nat, newId: nat, m: Node)
    requires Unique(ks) && holder in Ids(ks) && Unique([m]) && Ids(ks) !! Ids([m]) && newId !in Ids(ks) + Ids([m])
    requires var n := Find(ks, holder).value; n.Group? && at < |n.kids|
    ensures var n := Find(ks, holder).value; var after := Edit(ks, holder, Wrapping(at, newId, m));
      && Ids(after) == Ids(ks) + {newId} + Ids([m]) && Unique(after)
      && Leaves(ks) == LeftOf(ks, holder) + (Leaves(n.kids[..at + 1]) + Leaves(n.kids[at + 1..])) + RightOf(ks, holder)
      && Leaves(after) == LeftOf(ks, holder) + (Leaves(n.kids[..at + 1]) + Leaves([m]) + Leaves(n.kids[at + 1..])) + RightOf(ks, holder)
      && Find(after, holder) == Some(WrapKid(n, at, newId, m))
      && Kinds(after) <= Kinds(ks) + Kinds([m]) + {(newId, IsGroup(And, ""))}
  {
    hide *;
    var f := Wrapping(at, newId, m);
    var n := Find(ks, holder).value;
    FoundIsInside(ks, holder);
    WrapKidHolds(n, at, newId, m);
    EditIds(ks, holder, f);
    EditUnique(ks, holder, f);
    LeavesAround(ks, holder);
    EditLeaves(ks, holder, f);
    EditFind(ks, holder, f, holder);
    FindHeaded([WrapKid(n, at, newId, m)], holder);
    EditKinds(ks, holder, f);
    WrapKinds(n, at, newId, m);
  }

  lemma WrapKinds(n: Node, at: nat, newId: nat, m: Node)
    requires n.Group? && at < |n.kids|
    ensures Kinds([WrapKid(n, at, newId, m)]) <= Kinds([n]) + Kinds([m]) + {(newId, IsGroup(And, ""))}
  {
    hide Kinds;
    var l, t, r := n.kids[..at], n.kids[at], n.kids[at + 1..];
    var both := Pair(newId, t, m);
    KindsOne(n);
    KindsOne(WrapKid(n, at, newId, m));
    KindsOne(both);
    assert [t] + [m] == [t, m];
    KindsBeside([t], [m]);
    SplitAt(n.kids, at);
    KindsBeside(l + [t], r);
    KindsBeside(l, [t]);
    KindsBeside(l + [both], r);
    KindsBeside(l, [both]);
    assert WrapKid(n, at, newId, m).kids == l + [both] + r;
  }
}
