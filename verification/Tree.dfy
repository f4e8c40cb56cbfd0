/**
 * A criteria tree: criteria under `and`, `or`, `k-of-n`, `warn` and `weighted` groups.
 *
 * Every function is over a forest, the list of the nodes beside each other; a
 * tree is a forest of one.  A node's `id` stands for the identity of the
 * object that holds it.
 */
module Tree {
  import opened Common

  datatype Comb = And | Or | KOfN | Warn | Weighted

  /** `rest` is what else the raw node holds: a threshold, a direction, a criterion's parameters. */
  datatype Node =
    | Leaf(id: nat, rest: string)
    | Group(id: nat, comb: Comb, k: Option<int>, weights: Option<seq<real>>, rest: string, kids: seq<Node>)

  function Ids(ks: seq<Node>): set<nat>
  {
    if ks == [] then {}
    else {ks[0].id} + (if ks[0].Group? then Ids(ks[0].kids) else {}) + Ids(ks[1..])
  }

  /** No object is in the forest twice. */
  predicate Unique(ks: seq<Node>)
  {
    ks != [] ==>
      && (ks[0].Group? ==> Unique(ks[0].kids) && ks[0].id !in Ids(ks[0].kids))
      && Unique(ks[1..])
      && Ids([ks[0]]) !! Ids(ks[1..])
  }

  /** The criteria, left to right. */
  function Leaves(ks: seq<Node>): seq<Node>
  {
    if ks == [] then []
    else (if ks[0].Leaf? then [ks[0]] else Leaves(ks[0].kids)) + Leaves(ks[1..])
  }

  function Find(ks: seq<Node>, id: nat): (n: Option<Node>)
    ensures n.Some? ==> n.value.id == id
    ensures n.Some? <==> id in Ids(ks)
  {
    if ks == [] then None
    else if ks[0].id == id then Some(ks[0])
    else
      var inside := if ks[0].Group? then Find(ks[0].kids, id) else None;
      if inside.Some? then inside else Find(ks[1..], id)
  }

  /** Change in place the object `id`, wherever it is. */
  function Edit(ks: seq<Node>, id: nat, f: Node -> Node): (r: seq<Node>)
    ensures |r| == |ks|
  {
    if ks == [] then []
    else
      var head := ks[0];
      [if head.id == id then f(head) else if head.Group? then head.(kids := Edit(head.kids, id, f)) else head]
      + Edit(ks[1..], id, f)
  }

  // ----- forests beside each other -------------------------------------------------------------

  function OwnLeaves(n: Node): seq<Node>
  {
    if n.Leaf? then [n] else Leaves(n.kids)
  }

  lemma Unfolded(ks: seq<Node>)
    requires ks != []
    ensures Leaves(ks) == OwnLeaves(ks[0]) + Leaves(ks[1..])
  {}

  lemma Associates<T>(a: seq<T>, b: seq<T>, c: seq<T>)
    ensures a + (b + c) == (a + b) + c
  {}

  lemma LeavesStep(a: seq<Node>, b: seq<Node>)
    requires a != [] && Leaves(a[1..] + b) == Leaves(a[1..]) + Leaves(b)
    ensures Leaves(a + b) == Leaves(a) + Leaves(b)
  {
    hide Leaves, OwnLeaves;
    Unfolded(a);
    Unfolded(a + b);
    assert (a + b)[1..] == a[1..] + b && (a + b)[0] == a[0];
    Associates(OwnLeaves(a[0]), Leaves(a[1..]), Leaves(b));
  }

  lemma {:induction false} Beside(a: seq<Node>, b: seq<Node>)
    ensures Ids(a + b) == Ids(a) + Ids(b)
    ensures Leaves(a + b) == Leaves(a) + Leaves(b)
    ensures Unique(a + b) <==> Unique(a) && Unique(b) && Ids(a) !! Ids(b)
  {
    if a == [] {
      assert a + b == b;
    } else {
      assert (a + b)[1..] == a[1..] + b;
      assert [(a + b)[0]] == [a[0]];
      assert Ids(a) == Ids([a[0]]) + Ids(a[1..]) by {
        assert [a[0]][1..] == [];
      }
      Beside(a[1..], b);
      LeavesStep(a, b);
    }
  }

  // ----- one object changed in place -----------------------------------------------------------

  lemma {:induction false} EditAbsent(ks: seq<Node>, id: nat, f: Node -> Node)
    requires id !in Ids(ks)
    ensures Edit(ks, id, f) == ks
  {
    if ks != [] {
      if ks[0].Group? {
        EditAbsent(ks[0].kids, id, f);
      }
      EditAbsent(ks[1..], id, f);
    }
  }

  /** Where `id` is: at the head, inside the head, or further right; the other two parts stay. */
  lemma EditHead(ks: seq<Node>, id: nat, f: Node -> Node)
    requires Unique(ks) && id in Ids(ks)
    ensures var head := ks[0];
      if head.id == id then Edit(ks, id, f) == [f(head)] + ks[1..] && Find(ks, id) == Some(head)
      else if head.Group? && id in Ids(head.kids) then
        Edit(ks, id, f) == [head.(kids := Edit(head.kids, id, f))] + ks[1..] && Find(ks, id) == Find(head.kids, id)
      else Edit(ks, id, f) == [head] + Edit(ks[1..], id, f) && Find(ks, id) == Find(ks[1..], id) && id in Ids(ks[1..])
  {
    var head := ks[0];
    assert [head][0] == head && [head][1..] == [];
    if head.id == id || (head.Group? && id in Ids(head.kids)) {
      assert id in Ids([head]);
      EditAbsent(ks[1..], id, f);
    } else if head.Group? {
      EditAbsent(head.kids, id, f);
    }
  }

  lemma {:induction false} FoundIsInside(ks: seq<Node>, id: nat)
    requires Unique(ks) && id in Ids(ks)
    ensures var n := Find(ks, id).value;
      Unique([n]) && Ids([n]) <= Ids(ks) && n.id in Ids([n])
  {
    var head := ks[0];
    assert [head][0] == head && [head][1..] == [];
    EditHead(ks, id, x => x);
    if head.id == id {
    } else if head.Group? && id in Ids(head.kids) {
      FoundIsInside(head.kids, id);
    } else {
      FoundIsInside(ks[1..], id);
    }
  }

  /** What a node and those right of it hold. */
  lemma Headed(ks: seq<Node>)
    requires ks != []
    ensures var head := ks[0];
      && Ids([head]) == {head.id} + (if head.Group? then Ids(head.kids) else {})
      && (Unique([head]) <==> head.Group? ==> Unique(head.kids) && head.id !in Ids(head.kids))
      && Leaves([head]) == (if head.Leaf? then [head] else Leaves(head.kids))
      && Ids(ks) == Ids([head]) + Ids(ks[1..])
      && Leaves(ks) == Leaves([head]) + Leaves(ks[1..])
      && (Unique(ks) <==> Unique([head]) && Unique(ks[1..]) && Ids([head]) !! Ids(ks[1..]))
  {
    assert ks == [ks[0]] + ks[1..];
    Beside([ks[0]], ks[1..]);
    assert [ks[0]][1..] == [];
  }

  /** The objects after an edit: those of the changed node in the place of what it held. */
  lemma {:induction false} EditIds(ks: seq<Node>, id: nat, f: Node -> Node)
    requires Unique(ks) && id in Ids(ks)
    ensures Ids(Edit(ks, id, f)) == (Ids(ks) - Ids([Find(ks, id).value])) + Ids([f(Find(ks, id).value)])
  {
    var head, rest, edited := ks[0], ks[1..], Edit(ks, id, f);
    hide Ids, Unique, Edit, Find;
    Headed(ks);
    EditHead(ks, id, f);
    FoundIsInside(ks, id);
    Headed(edited);
    assert edited[1..] == if head.id == id || (head.Group? && id in Ids(head.kids)) then rest else Edit(rest, id, f);
    if head.id == id {
    } else if head.Group? && id in Ids(head.kids) {
      FoundIsInside(head.kids, id);
      EditIds(head.kids, id, f);
    } else {
      FoundIsInside(rest, id);
      EditIds(rest, id, f);
    }
  }

  lemma {:induction false} EditUnique(ks: seq<Node>, id: nat, f: Node -> Node)
    requires Unique(ks) && id in Ids(ks)
    requires var n := Find(ks, id).value;
      Unique([f(n)]) && (Ids([f(n)]) - Ids([n])) !! Ids(ks)
    ensures Unique(Edit(ks, id, f))
  {
    var head, rest, edited := ks[0], ks[1..], Edit(ks, id, f);
    hide Ids, Unique, Edit, Find;
    Headed(ks);
    EditHead(ks, id, f);
    FoundIsInside(ks, id);
    Headed(edited);
    assert edited[1..] == if head.id == id || (head.Group? && id in Ids(head.kids)) then rest else Edit(rest, id, f);
    if head.id == id {
    } else if head.Group? && id in Ids(head.kids) {
      FoundIsInside(head.kids, id);
      EditIds(head.kids, id, f);
      EditUnique(head.kids, id, f);
    } else {
      FoundIsInside(rest, id);
      EditIds(rest, id, f);
      EditUnique(rest, id, f);
    }
  }

  // ----- the criteria around a node --------------------------------------------------------------

  function LeftOf(ks: seq<Node>, id: nat): seq<Node>
    requires id in Ids(ks)
  {
    if ks[0].id == id then []
    else if ks[0].Group? && id in Ids(ks[0].kids) then LeftOf(ks[0].kids, id)
    else Leaves([ks[0]]) + LeftOf(ks[1..], id)
  }

  function RightOf(ks: seq<Node>, id: nat): seq<Node>
    requires id in Ids(ks)
  {
    if ks[0].id == id then Leaves(ks[1..])
    else if ks[0].Group? && id in Ids(ks[0].kids) then RightOf(ks[0].kids, id) + Leaves(ks[1..])
    else RightOf(ks[1..], id)
  }

  lemma Regroup(a: seq<Node>, b: seq<Node>, c: seq<Node>, d: seq<Node>)
    ensures a + (b + c + d) == (a + b) + c + d
    ensures (a + b + c) + d == a + b + (c + d)
  {}

  /** An edit changes the criteria of the changed node alone: those left and right of it stay, in their order. */
  lemma {:induction false} EditLeaves(ks: seq<Node>, id: nat, f: Node -> Node)
    requires Unique(ks) && id in Ids(ks)
    ensures Leaves(Edit(ks, id, f)) == LeftOf(ks, id) + Leaves([f(Find(ks, id).value)]) + RightOf(ks, id)
  {
    var head, rest, edited := ks[0], ks[1..], Edit(ks, id, f);
    Sides(ks, id);
    EditHead(ks, id, f);
    hide Ids, Unique, Edit, Find, Leaves, LeftOf, RightOf;
    Headed(ks);
    Headed(edited);
    var mid := Leaves([f(Find(ks, id).value)]);
    assert edited[1..] == if head.id == id || (head.Group? && id in Ids(head.kids)) then rest else Edit(rest, id, f);
    if head.id == id {
      EmptyLeft(mid + Leaves(rest), mid, Leaves(rest));
    } else if head.Group? && id in Ids(head.kids) {
      EditLeaves(head.kids, id, f);
      Regroup(LeftOf(head.kids, id), mid, RightOf(head.kids, id), Leaves(rest));
    } else {
      EditLeaves(rest, id, f);
      Regroup(Leaves([head]), LeftOf(rest, id), mid, RightOf(rest, id));
    }
  }

  lemma EmptyLeft(whole: seq<Node>, mid: seq<Node>, right: seq<Node>)
    requires whole == mid + right
    ensures whole == [] + mid + right
  {}

  lemma Sides(ks: seq<Node>, id: nat)
    requires id in Ids(ks)
    ensures var head, rest := ks[0], ks[1..];
      if head.id == id then LeftOf(ks, id) == [] && RightOf(ks, id) == Leaves(rest)
      else if head.Group? && id in Ids(head.kids) then LeftOf(ks, id) == LeftOf(head.kids, id) && RightOf(ks, id) == RightOf(head.kids, id) + Leaves(rest)
      else id in Ids(rest) && LeftOf(ks, id) == Leaves([head]) + LeftOf(rest, id) && RightOf(ks, id) == RightOf(rest, id)
  {}

  lemma {:induction false} EditNothing(ks: seq<Node>, id: nat, f: Node -> Node)
    requires Unique(ks) && id in Ids(ks) && f(Find(ks, id).value) == Find(ks, id).value
    ensures Edit(ks, id, f) == ks
  {
    EditHead(ks, id, f);
    if ks[0].id == id {
    } else if ks[0].Group? && id in Ids(ks[0].kids) {
      EditNothing(ks[0].kids, id, f);
    } else {
      EditNothing(ks[1..], id, f);
    }
  }

  lemma LeavesAround(ks: seq<Node>, id: nat)
    requires Unique(ks) && id in Ids(ks)
    ensures Leaves(ks) == LeftOf(ks, id) + Leaves([Find(ks, id).value]) + RightOf(ks, id)
  {
    EditNothing(ks, id, n => n);
    EditLeaves(ks, id, n => n);
  }

  // ----- well-formed trees -----------------------------------------------------------------------

  /** What the parser asks of one group, but for what a move repairs: an empty group, a `k` too high. */
  predicate Loose(n: Node)
  {
    n.Group? ==>
      && (n.comb == Warn ==> |n.kids| <= 1)
      && (n.comb == KOfN ==> n.k.Some? && n.k.value >= 1)
      && (n.comb == Weighted ==> n.weights.Some? && |n.weights.value| == |n.kids|)
  }

  predicate Repaired(n: Node)
  {
    n.Group? ==> |n.kids| > 0 && (n.comb == KOfN && n.k.Some? ==> n.k.value <= |n.kids|)
  }

  /** Well-formed, except that the objects in `broken` may want a repair. */
  predicate WellBut(ks: seq<Node>, broken: set<nat>)
  {
    ks != [] ==>
      && Loose(ks[0])
      && (ks[0].id !in broken ==> Repaired(ks[0]))
      && (ks[0].Group? ==> WellBut(ks[0].kids, broken))
      && WellBut(ks[1..], broken)
  }

  predicate Well(ks: seq<Node>)
  {
    WellBut(ks, {})
  }

  lemma {:induction false} WellBeside(a: seq<Node>, b: seq<Node>, broken: set<nat>)
    ensures WellBut(a + b, broken) <==> WellBut(a, broken) && WellBut(b, broken)
  {
    if a == [] {
      assert a + b == b;
    } else {
      assert (a + b)[1..] == a[1..] + b;
      WellBeside(a[1..], b, broken);
    }
  }

  /** Only the objects that are there can want a repair. */
  lemma {:induction false} WellElsewhere(ks: seq<Node>, broken: set<nat>, broken': set<nat>)
    requires WellBut(ks, broken) && Ids(ks) * broken <= broken'
    ensures WellBut(ks, broken')
  {
    if ks != [] {
      if ks[0].Group? {
        WellElsewhere(ks[0].kids, broken, broken');
      }
      WellElsewhere(ks[1..], broken, broken');
    }
  }

  lemma {:induction false} FoundIsWell(ks: seq<Node>, id: nat, broken: set<nat>)
    requires WellBut(ks, broken) && id in Ids(ks)
    ensures WellBut([Find(ks, id).value], broken)
  {
    if ks[0].id == id {
    } else if ks[0].Group? && id in Ids(ks[0].kids) {
      FoundIsWell(ks[0].kids, id, broken);
    } else {
      FoundIsWell(ks[1..], id, broken);
    }
  }

  /** A change that leaves its own node well leaves the tree well. */
  lemma {:induction false} EditWell(ks: seq<Node>, id: nat, f: Node -> Node, broken: set<nat>)
    requires Unique(ks) && id in Ids(ks)
    requires WellBut(ks, broken + {id}) && WellBut([f(Find(ks, id).value)], broken)
    ensures WellBut(Edit(ks, id, f), broken)
  {
    var head, rest, edited := ks[0], ks[1..], Edit(ks, id, f);
    hide Ids, Unique, Edit, Find, Loose, Repaired;
    Headed(ks);
    EditHead(ks, id, f);
    assert edited[1..] == if head.id == id || (head.Group? && id in Ids(head.kids)) then rest else Edit(rest, id, f);
    if head.id == id {
      WellElsewhere(rest, broken + {id}, broken);
    } else if head.Group? && id in Ids(head.kids) {
      EditWell(head.kids, id, f, broken);
      WellElsewhere(rest, broken + {id}, broken);
      assert Loose(edited[0]) by { assert |edited[0].kids| == |head.kids|; SameShape(head, edited[0]); }
      assert head.id !in broken ==> Repaired(edited[0]) by { SameShape(head, edited[0]); }
    } else {
      EditWell(rest, id, f, broken);
      if head.Group? {
        WellElsewhere(head.kids, broken + {id}, broken);
      }
    }
  }

  lemma SameShape(a: Node, b: Node)
    requires a.Group? && b.Group? && b == a.(kids := b.kids) && |a.kids| == |b.kids|
    ensures Loose(a) == Loose(b) && Repaired(a) == Repaired(b)
  {}

  // ----- the repairs, as one function over the whole tree ----------------------------------------

  /** A `k-of-n` whose `k` is more than its children has it lowered to them. */
  function LowerK(n: Node): (r: Node)
    ensures r.id == n.id && (Repaired(n) ==> r == n)
  {
    if n.Group? && n.comb == KOfN && n.k.Some? && |n.kids| > 0 && n.k.value > |n.kids| then n.(k := Some(|n.kids|))
    else n
  }

  /** The weights of the children that hold a criterion. */
  function KeptWeights(kids: seq<Node>, weights: seq<real>): seq<real>
  {
    if kids == [] || weights == [] then weights
    else (if Leaves([kids[0]]) == [] then [] else [weights[0]]) + KeptWeights(kids[1..], weights[1..])
  }

  /** What is left when every group that holds no criterion goes, with its weight, and every `k` fits. */
  function Tidy(ks: seq<Node>): seq<Node>
  {
    if ks == [] then []
    else (if Leaves([ks[0]]) == [] then [] else [TidyNode(ks[0])]) + Tidy(ks[1..])
  }

  function TidyNode(n: Node): (r: Node)
    ensures r.id == n.id
  {
    if n.Leaf? then n
    else
      var weights := if n.comb == Weighted && n.weights.Some? then Some(KeptWeights(n.kids, n.weights.value)) else n.weights;
      LowerK(n.(kids := Tidy(n.kids), weights := weights))
  }

  /** The repairs keep every criterion, in its order. */
  lemma {:induction false} TidyLeaves(ks: seq<Node>)
    ensures Leaves(Tidy(ks)) == Leaves(ks)
  {
    if ks != [] {
      var head, rest := ks[0], ks[1..];
      Headed(ks);
      TidyLeaves(rest);
      if Leaves([head]) == [] {
        assert Tidy(ks) == Tidy(rest);
        assert [] + Leaves(rest) == Leaves(rest);
      } else {
        assert Leaves([TidyNode(head)]) == Leaves([head]) by {
          if head.Group? {
            TidyLeaves(head.kids);
          }
          Headed([head]);
          Headed([TidyNode(head)]);
        }
        assert Tidy(ks) == [TidyNode(head)] + Tidy(rest);
        hide Leaves, Tidy, TidyNode;
        Beside([TidyNode(head)], Tidy(rest));
      }
    }
  }

  /** Nothing to repair in a well-formed tree. */
  lemma {:induction false} WellIsTidy(ks: seq<Node>)
    requires Well(ks)
    ensures Tidy(ks) == ks
  {
    if ks != [] {
      var head := ks[0];
      WellBeside([head], ks[1..], {});
      assert [head] + ks[1..] == ks;
      WellHoldsCriteria([head]);
      WellIsTidy(ks[1..]);
      if head.Group? {
        WellIsTidy(head.kids);
        if head.weights.Some? {
          AllWeightsKept(head.kids, head.weights.value);
        }
      }
    }
  }

  lemma {:induction false} WellHoldsCriteria(ks: seq<Node>)
    requires Well(ks) && ks != []
    ensures Leaves(ks) != []
  {
    if ks[0].Group? {
      WellHoldsCriteria(ks[0].kids);
    }
  }

  lemma {:induction false} AllWeightsKept(kids: seq<Node>, weights: seq<real>)
    requires Well(kids)
    ensures KeptWeights(kids, weights) == weights
  {
    if kids != [] && weights != [] {
      WellBeside([kids[0]], kids[1..], {});
      assert [kids[0]] + kids[1..] == kids;
      WellHoldsCriteria([kids[0]]);
      AllWeightsKept(kids[1..], weights[1..]);
    }
  }

  /** A change that leaves the criteria alone makes nobody bare, and nobody less so. */
  lemma {:induction false} EditBare(ks: seq<Node>, id: nat, f: Node -> Node, j: nat)
    requires Unique(ks) && id in Ids(ks) && j < |ks|
    requires var n := Find(ks, id).value; Leaves([f(n)]) == Leaves([n])
    ensures Leaves([Edit(ks, id, f)[j]]) == Leaves([ks[j]])
  {
    var head, rest := ks[0], ks[1..];
    EditHead(ks, id, f);
    if head.id == id {
    } else if head.Group? && id in Ids(head.kids) {
      LeavesAround(head.kids, id);
      EditLeaves(head.kids, id, f);
      Headed([head]);
      Headed([Edit(ks, id, f)[0]]);
    } else if j > 0 {
      EditBare(rest, id, f, j - 1);
    }
  }

  /** A repair of one node is part of the repair of the tree. */
  lemma {:induction false} EditTidy(ks: seq<Node>, id: nat, f: Node -> Node)
    requires Unique(ks) && id in Ids(ks)
    requires var n := Find(ks, id).value;
      Tidy([f(n)]) == Tidy([n]) && Leaves([f(n)]) == Leaves([n])
    ensures Tidy(Edit(ks, id, f)) == Tidy(ks)
  {
    var head, rest, edited := ks[0], ks[1..], Edit(ks, id, f);
    hide Ids, Unique, Find, Leaves, Edit;
    EditHead(ks, id, f);
    assert edited[1..] == if head.id == id || (head.Group? && id in Ids(head.kids)) then rest else Edit(rest, id, f);
    assert Leaves([edited[0]]) == Leaves([head]) by {
      EditBare(ks, id, f, 0);
    }
    if head.id == id {
      TidyHead(edited);
      TidyHead(ks);
    } else if head.Group? && id in Ids(head.kids) {
      EditTidy(head.kids, id, f);
      if head.weights.Some? {
        forall j | 0 <= j < |head.kids|
          ensures Leaves([head.kids[j]]) == Leaves([edited[0].kids[j]])
        {
          EditBare(head.kids, id, f, j);
        }
        SameKept(head.kids, edited[0].kids, head.weights.value);
      }
    } else {
      EditTidy(rest, id, f);
    }
  }

  lemma TidyHead(ks: seq<Node>)
    requires ks != []
    ensures Tidy(ks) == Tidy([ks[0]]) + Tidy(ks[1..])
  {
    assert [ks[0]][1..] == [];
  }

  lemma {:induction false} SameKept(a: seq<Node>, b: seq<Node>, weights: seq<real>)
    requires |a| == |b|
    requires forall j :: 0 <= j < |a| ==> Leaves([a[j]]) == Leaves([b[j]])
    ensures KeptWeights(a, weights) == KeptWeights(b, weights)
  {
    if a != [] && weights != [] {
      SameKept(a[1..], b[1..], weights[1..]);
    }
  }

  // ----- the forest as its objects hold it -------------------------------------------------------

  /** What one object holds: its own fields, and which objects are its children. */
  datatype Row =
    | Criterion(rest: string)
    | Holds(comb: Comb, k: Option<int>, weights: Option<seq<real>>, rest: string, kids: seq<nat>)

  function Names(ks: seq<Node>): (r: seq<nat>)
    ensures |r| == |ks| && forall i :: 0 <= i < |ks| ==> r[i] == ks[i].id
  {
    if ks == [] then [] else [ks[0].id] + Names(ks[1..])
  }

  function RowOf(n: Node): Row
  {
    if n.Leaf? then Criterion(n.rest) else Holds(n.comb, n.k, n.weights, n.rest, Names(n.kids))
  }

  function At(ks: seq<Node>, id: nat): Row
    requires id in Ids(ks)
  {
    RowOf(Find(ks, id).value)
  }

  lemma FindHeaded(ks: seq<Node>, p: nat)
    requires ks != []
    ensures Find(ks, p) == if p in Ids([ks[0]]) then Find([ks[0]], p) else Find(ks[1..], p)
    ensures var head := ks[0];
      Find([head], p) == if p == head.id then Some(head) else if head.Group? then Find(head.kids, p) else None
  {
    Headed(ks);
    assert [ks[0]][1..] == [];
  }

  /** In place means: no other object than the changed one, and what it now holds, is another. */
  lemma {:induction false} EditFind(ks: seq<Node>, id: nat, f: Node -> Node, p: nat)
    requires Unique(ks) && id in Ids(ks)
    requires var n := Find(ks, id).value; f(n).id == id
    ensures var n := Find(ks, id).value;
      && (p in Ids([f(n)]) && (p in Ids([n]) || p !in Ids(ks)) ==> Find(Edit(ks, id, f), p) == Find([f(n)], p))
      && (p in Ids(ks) && p !in Ids([n]) && p !in Ids([f(n)]) ==> p in Ids(Edit(ks, id, f)) && At(Edit(ks, id, f), p) == At(ks, p))
  {
    var head, rest, edited := ks[0], ks[1..], Edit(ks, id, f);
    hide Ids, Unique, Edit, Find, RowOf;
    Headed(ks);
    EditHead(ks, id, f);
    FoundIsInside(ks, id);
    EditIds(ks, id, f);
    FindHeaded(ks, p);
    FindHeaded(edited, p);
    Headed(edited);
    assert edited[1..] == if head.id == id || (head.Group? && id in Ids(head.kids)) then rest else Edit(rest, id, f);
    if head.id == id {
    } else if head.Group? && id in Ids(head.kids) {
      FoundIsInside(head.kids, id);
      EditIds(head.kids, id, f);
      EditFind(head.kids, id, f, p);
      if p == head.id {
        SameRow(head, Edit(head.kids, id, f), id, f);
      }
    } else {
      FoundIsInside(rest, id);
      EditIds(rest, id, f);
      EditFind(rest, id, f, p);
    }
  }

  lemma SameRow(head: Node, kids: seq<Node>, id: nat, f: Node -> Node)
    requires head.Group? && Unique(head.kids) && id in Ids(head.kids) && kids == Edit(head.kids, id, f)
    requires f(Find(head.kids, id).value).id == id
    ensures RowOf(head.(kids := kids)) == RowOf(head)
  {
    EditNames(head.kids, id, f);
    assert Names(kids) == Names(head.kids);
  }

  lemma {:induction false} EditNames(ks: seq<Node>, id: nat, f: Node -> Node)
    requires Unique(ks) && id in Ids(ks) && f(Find(ks, id).value).id == id
    ensures Names(Edit(ks, id, f)) == Names(ks)
  {
    EditHead(ks, id, f);
    if ks[0].id != id && !(ks[0].Group? && id in Ids(ks[0].kids)) {
      EditNames(ks[1..], id, f);
    }
  }

  /** What of an object no move changes. */
  datatype Kind = IsCriterion(rest: string) | IsGroup(comb: Comb, rest: string)

  function KindOf(n: Node): Kind
  {
    if n.Leaf? then IsCriterion(n.rest) else IsGroup(n.comb, n.rest)
  }

  function Kinds(ks: seq<Node>): set<(nat, Kind)>
  {
    if ks == [] then {}
    else {(ks[0].id, KindOf(ks[0]))} + (if ks[0].Group? then Kinds(ks[0].kids) else {}) + Kinds(ks[1..])
  }

  lemma {:induction false} KindsBeside(a: seq<Node>, b: seq<Node>)
    ensures Kinds(a + b) == Kinds(a) + Kinds(b)
  {
    if a == [] {
      assert a + b == b;
    } else {
      assert (a + b)[1..] == a[1..] + b;
      KindsBeside(a[1..], b);
    }
  }

  lemma KindsOne(n: Node)
    ensures Kinds([n]) == {(n.id, KindOf(n))} + (if n.Group? then Kinds(n.kids) else {})
  {
    assert [n][1..] == [];
  }

  lemma {:induction false} EditKinds(ks: seq<Node>, id: nat, f: Node -> Node)
    requires Unique(ks) && id in Ids(ks)
    ensures Kinds(Edit(ks, id, f)) <= Kinds(ks) + Kinds([f(Find(ks, id).value)])
    ensures Kinds([Find(ks, id).value]) <= Kinds(ks)
  {
    var head, rest, edited := ks[0], ks[1..], Edit(ks, id, f);
    EditHead(ks, id, f);
    KindsOne(head);
    KindsOne(edited[0]);
    assert edited[1..] == if head.id == id || (head.Group? && id in Ids(head.kids)) then rest else Edit(rest, id, f);
    if head.id == id {
    } else if head.Group? && id in Ids(head.kids) {
      EditKinds(head.kids, id, f);
    } else {
      EditKinds(rest, id, f);
    }
  }

  /** An object has one kind: what it was found to be. */
  lemma {:induction false} KindIsKept(ks: seq<Node>, id: nat, kind: Kind)
    requires Unique(ks)
    ensures (id, kind) in Kinds(ks) <==> id in Ids(ks) && KindOf(Find(ks, id).value) == kind
  {
    if ks != [] {
      Headed(ks);
      FindHeaded(ks, id);
      KindIsKept(ks[1..], id, kind);
      if ks[0].Group? {
        KindIsKept(ks[0].kids, id, kind);
      }
    }
  }

  // ----- paths -----------------------------------------------------------------------------------

  /** The node a path names; its first index is in the forest itself. */
  function NodeAt(ks: seq<Node>, path: seq<nat>): Option<Node>
  {
    if path == [] || path[0] >= |ks| then None
    else
      var n := ks[path[0]];
      if |path| == 1 then Some(n)
      else if n.Group? then NodeAt(n.kids, path[1..])
      else None
  }

  /** Read token by token from the root, which the first index names. */
  method NodeOrNone(tree: Node, path: seq<nat>) returns (r: Option<Node>)
    ensures r == NodeAt([tree], path)
  {
    if path == [] || path[0] != 0 {
      return None;
    }
    var node, i := tree, 1;
    assert path == [0] + path[1..];
    while i < |path|
      invariant 1 <= i <= |path|
      invariant NodeAt([tree], path) == NodeAt([node], [0] + path[i..])
    {
      OneDown(node, path[i..]);
      if node.Leaf? || path[i] >= |node.kids| {
        return None;
      }
      assert path[i..][1..] == path[i + 1..];
      node, i := node.kids[path[i]], i + 1;
    }
    return Some(node);
  }

  lemma OneDown(node: Node, rest: seq<nat>)
    requires rest != []
    ensures NodeAt([node], [0] + rest) ==
            if node.Leaf? || rest[0] >= |node.kids| then None else NodeAt([node.kids[rest[0]]], [0] + rest[1..])
  {
    assert ([0] + rest)[1..] == rest;
    if node.Group? && rest[0] < |node.kids| {
      assert ([0] + rest[1..])[1..] == rest[1..];
    }
  }

  function PathOf(ks: seq<Node>, id: nat): (p: seq<nat>)
    requires id in Ids(ks)
    ensures p != []
  {
    if ks[0].id == id then [0]
    else if ks[0].Group? && id in Ids(ks[0].kids) then [0] + PathOf(ks[0].kids, id)
    else
      var p := PathOf(ks[1..], id);
      [p[0] + 1] + p[1..]
  }

  /** The path of an object leads to it. */
  lemma {:induction false} PathLeads(ks: seq<Node>, id: nat)
    requires id in Ids(ks)
    ensures NodeAt(ks, PathOf(ks, id)) == Find(ks, id)
  {
    if ks[0].id == id {
    } else if ks[0].Group? && id in Ids(ks[0].kids) {
      PathLeads(ks[0].kids, id);
      assert PathOf(ks, id)[1..] == PathOf(ks[0].kids, id);
    } else {
      PathLeads(ks[1..], id);
    }
  }

  /** And no other path does. */
  lemma {:induction false} OnePath(ks: seq<Node>, path: seq<nat>)
    requires Unique(ks) && NodeAt(ks, path).Some?
    ensures var n := NodeAt(ks, path).value; n.id in Ids(ks) && PathOf(ks, n.id) == path && Find(ks, n.id) == Some(n)
    decreases |path|, path[0]
  {
    hide Unique, Ids, Find;
    Headed(ks);
    FindHeaded(ks, NodeAt(ks, path).value.id);
    if path[0] == 0 {
      if |path| > 1 {
        OnePath(ks[0].kids, path[1..]);
      }
    } else {
      var shifted := [path[0] - 1] + path[1..];
      PathShifted(ks, path);
      OnePath(ks[1..], shifted);
    }
  }

  lemma PathShifted(ks: seq<Node>, path: seq<nat>)
    requires path != [] && path[0] > 0
    ensures var shifted := [path[0] - 1] + path[1..];
      (ks != [] ==> NodeAt(ks[1..], shifted) == NodeAt(ks, path)) && [shifted[0] + 1] + shifted[1..] == path
  {
    var shifted := [path[0] - 1] + path[1..];
    assert shifted[1..] == path[1..];
  }
}
