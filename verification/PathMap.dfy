/**
 * Which path became which, read off the JSON Patch of a tree edit (RFC 6902):
 * a shadow of the tree, holding of each node only the path it had, is patched
 * instead of the tree.
 */
module PathMap {
  import opened Common
  import opened Tree
  import opened TreeEdits
  import opened TreeMove

  datatype Verb = Add | Remove | Replace

  datatype Slot = Index(i: nat) | End

  /** A change of a node's own fields. */
  datatype Change = SetComb(comb: Comb) | SetK(k: Option<int>) | SetWeights(weights: Option<seq<real>>) | SetRest(rest: string)

  /** One op under `/metrics`; the `value` of a `remove` is not read. */
  datatype TreeOp =
    | OnRoot(verb: Verb, value: Node)
    | OnChild(verb: Verb, parent: Path, slot: Slot, value: Node)
    | OnField(path: Path, change: Change)

  // ----- the ops, applied to the tree ---------------------------------------------------------

  /** RFC 6902 on one list: an `add` shifts what is after it, `-` is its end, nothing past the end exists. */
  function OnList<T>(list: seq<T>, verb: Verb, slot: Slot, value: T): Option<seq<T>>
  {
    var at := if slot.End? then |list| else slot.i;
    match verb
    case Add => if at <= |list| then Some(Inserted(list, at, value)) else None
    case Remove => if at < |list| then Some(Without(list, at)) else None
    case Replace => if at < |list| then Some(list[at := value]) else None
  }

  /** What RFC 6902 says of an item of a list, item by item: sections 4.1 (add), 4.2 (remove) and 4.3 (replace). */
  lemma ListOp<T>(list: seq<T>, verb: Verb, slot: Slot, value: T)
    ensures var at, r := if slot.End? then |list| else slot.i, OnList(list, verb, slot, value);
      && (r.Some? <==> if verb.Add? then at <= |list| else at < |list|)
      && (r.Some? ==> |r.value| == |list| + (if verb.Add? then 1 else if verb.Remove? then -1 else 0))
      && (r.Some? ==> forall k :: 0 <= k < at ==> r.value[k] == list[k])
      && (r.Some? && !verb.Remove? ==> r.value[at] == value)
      && (r.Some? && verb.Add? ==> forall k :: at < k < |r.value| ==> r.value[k] == list[k - 1])
      && (r.Some? && verb.Remove? ==> forall k :: at <= k < |r.value| ==> r.value[k] == list[k + 1])
      && (r.Some? && verb.Replace? ==> forall k :: at < k < |r.value| ==> r.value[k] == list[k])
  {}

  function OnKids(ks: seq<Node>, parent: Path, verb: Verb, slot: Slot, value: Node): Option<seq<Node>>
  {
    if parent == [] || parent[0] >= |ks| || ks[parent[0]].Leaf? then None
    else
      var n := ks[parent[0]];
      var kids := if |parent| == 1 then OnList(n.kids, verb, slot, value) else OnKids(n.kids, parent[1..], verb, slot, value);
      if kids.None? then None else Some(ks[parent[0] := n.(kids := kids.value)])
  }

  /**
   * The op is on the children of the node its path names, and on nothing else:
   * that node keeps its fields, every node on the way its own, and every path
   * beside the way leads where it led.
   */
  lemma {:induction false} OnKidsIs(ks: seq<Node>, parent: Path, verb: Verb, slot: Slot, value: Node, q: Path)
    ensures var r, n := OnKids(ks, parent, verb, slot, value), NodeAt(ks, parent);
      && (r.Some? <==> n.Some? && n.value.Group? && OnList(n.value.kids, verb, slot, value).Some?)
      && (r.Some? ==> NodeAt(r.value, parent) == Some(n.value.(kids := OnList(n.value.kids, verb, slot, value).value)))
      && (r.Some? && !(parent <= q) ==>
            (NodeAt(r.value, q).Some? <==> NodeAt(ks, q).Some?)
            && (NodeAt(ks, q).Some? && !(q <= parent) ==> NodeAt(r.value, q) == NodeAt(ks, q))
            && (NodeAt(ks, q).Some? && q <= parent ==>
              NodeAt(ks, q).value.Group? && NodeAt(r.value, q).value.Group? && NodeAt(r.value, q).value == NodeAt(ks, q).value.(kids := NodeAt(r.value, q).value.kids)))
  {
    if parent != [] && parent[0] < |ks| && ks[parent[0]].Group? {
      var kids := ks[parent[0]].kids;
      var r := OnKids(ks, parent, verb, slot, value);
      if |parent| > 1 {
        OnKidsIs(kids, parent[1..], verb, slot, value, if q == [] then [] else q[1..]);
      }
    }
  }

  function Changed(n: Node, change: Change): (r: Node)
    ensures r.id == n.id && r.Group? == n.Group? && (n.Group? ==> r.kids == n.kids)
  {
    match change
    case SetComb(comb) => if n.Group? then n.(comb := comb) else n
    case SetK(k) => if n.Group? then n.(k := k) else n
    case SetWeights(weights) => if n.Group? then n.(weights := weights) else n
    case SetRest(rest) => n.(rest := rest)
  }

  function OnNode(ks: seq<Node>, path: Path, change: Change): Option<seq<Node>>
  {
    if path == [] || path[0] >= |ks| then None
    else
      var n := ks[path[0]];
      if |path| == 1 then Some(ks[path[0] := Changed(n, change)])
      else if n.Leaf? then None
      else
        var kids := OnNode(n.kids, path[1..], change);
        if kids.None? then None else Some(ks[path[0] := n.(kids := kids.value)])
  }

  datatype Document = Bad | Entry(tree: Option<Node>)

  /** One op on the entry's tree, or its refusal. */
  function Apply(doc: Document, op: TreeOp): Document
  {
    if doc.Bad? then Bad
    else
      match op
      case OnRoot(verb, value) =>
        (match verb
         case Add => Entry(Some(value))
         case Replace => if doc.tree.Some? then Entry(Some(value)) else Bad
         case Remove => if doc.tree.Some? then Entry(None) else Bad)
      case OnChild(verb, parent, slot, value) =>
        if doc.tree.None? then Bad else Kept(OnKids([doc.tree.value], parent, verb, slot, value))
      case OnField(path, change) =>
        if doc.tree.None? then Bad else Kept(OnNode([doc.tree.value], path, change))
  }

  function Kept(ks: Option<seq<Node>>): Document
  {
    if ks.Some? && |ks.value| == 1 then Entry(Some(ks.value[0])) else Bad
  }

  /** A field op is on the node its path names: the field has the value, and no other field, node or place is touched. */
  lemma {:induction false} OnNodeIs(ks: seq<Node>, path: Path, change: Change)
    ensures var r := OnNode(ks, path, change);
      && (r.Some? <==> NodeAt(ks, path).Some?)
      && (r.Some? ==> |r.value| == |ks| && Ids(r.value) == Ids(ks) && NodeAt(r.value, path) == Some(Changed(NodeAt(ks, path).value, change)))
  {
    if path != [] && path[0] < |ks| {
      var i, r := path[0], OnNode(ks, path, change);
      if |path| > 1 && ks[i].Group? {
        OnNodeIs(ks[i].kids, path[1..], change);
      }
      if r.Some? {
        SameIdsAt(ks, i, r.value[i]);
      }
    }
  }

  lemma SameIdsAt(ks: seq<Node>, i: nat, n: Node)
    requires i < |ks| && n.id == ks[i].id && n.Group? == ks[i].Group? && (n.Group? ==> Ids(n.kids) == Ids(ks[i].kids))
    ensures Ids(ks[i := n]) == Ids(ks)
  {
    assert [n][1..] == [] && [ks[i]][1..] == [];
    SplitAt(ks, i);
    Beside(ks[..i] + [ks[i]], ks[i + 1..]);
    Beside(ks[..i], [ks[i]]);
    Beside(ks[..i] + [n], ks[i + 1..]);
    Beside(ks[..i], [n]);
    assert ks[i := n] == ks[..i] + [n] + ks[i + 1..];
  }

  lemma ChangedIs(n: Node, change: Change)
    requires n.Group?
    ensures Changed(n, change) ==
            match change {
              case SetComb(comb) => Group(n.id, comb, n.k, n.weights, n.rest, n.kids)
              case SetK(k) => Group(n.id, n.comb, k, n.weights, n.rest, n.kids)
              case SetWeights(weights) => Group(n.id, n.comb, n.k, weights, n.rest, n.kids)
              case SetRest(rest) => Group(n.id, n.comb, n.k, n.weights, rest, n.kids)
            }
  {}

  /** An op on the entry's whole tree: a value may always be added, and is replaced or removed where there is one. */
  lemma RootOp(tree: Option<Node>, verb: Verb, value: Node)
    ensures var r := Apply(Entry(tree), OnRoot(verb, value));
      && (r.Bad? <==> !verb.Add? && tree.None?)
      && (r.Entry? ==> r.tree == if verb.Remove? then None else Some(value))
    ensures Apply(Bad, OnRoot(verb, value)) == Bad
  {}

  /** An op below it applies where there is a tree with the place it names, and leaves what it leaves of that place. */
  lemma BelowRoot(tree: Option<Node>, op: TreeOp)
    requires !op.OnRoot?
    ensures var r := Apply(Entry(tree), op);
      var done := if tree.None? then None else if op.OnChild? then OnKids([tree.value], op.parent, op.verb, op.slot, op.value)
                  else OnNode([tree.value], op.path, op.change);
      && (r.Bad? <==> done.None?) && (r.Entry? ==> r.tree.Some? && [r.tree.value] == done.value)
  {
    if tree.Some? && op.OnField? {
      OnNodeIs([tree.value], op.path, op.change);
    }
  }

  function ApplyAll(doc: Document, ops: seq<TreeOp>): Document
  {
    if ops == [] then doc else Apply(ApplyAll(doc, ops[..|ops| - 1]), ops[|ops| - 1])
  }

  // ----- the shadow ---------------------------------------------------------------------------------

  datatype Shadow = Shadow(was: Option<Path>, kids: seq<Shadow>)

  function ShadowsOf(ks: seq<Node>, original: seq<Node>): (r: seq<Shadow>)
    ensures |r| == |ks|
  {
    if ks == [] then []
    else
      [Shadow(if ks[0].id in Ids(original) then Some(PathOf(original, ks[0].id)) else None,
              if ks[0].Group? then ShadowsOf(ks[0].kids, original) else [])]
      + ShadowsOf(ks[1..], original)
  }

  /** The children of the shadow a path leads to, patched as the list they are. */
  function OnShadows(ss: seq<Shadow>, parent: Path, verb: Verb, slot: Slot, value: Shadow): Option<seq<Shadow>>
  {
    if parent == [] || parent[0] >= |ss| then None
    else
      var s := ss[parent[0]];
      var kids := if |parent| == 1 then OnList(s.kids, verb, slot, value) else OnShadows(s.kids, parent[1..], verb, slot, value);
      if kids.None? then None else Some(ss[parent[0] := s.(kids := kids.value)])
  }

  lemma {:induction false} ShadowsBeside(a: seq<Node>, b: seq<Node>, original: seq<Node>)
    ensures ShadowsOf(a + b, original) == ShadowsOf(a, original) + ShadowsOf(b, original)
  {
    if a == [] {
      assert a + b == b;
    } else {
      assert (a + b)[1..] == a[1..] + b;
      ShadowsBeside(a[1..], b, original);
    }
  }

  lemma ShadowsApart(ks: seq<Node>, i: nat, original: seq<Node>)
    requires i < |ks|
    ensures ShadowsOf(ks, original) == ShadowsOf(ks[..i], original) + ShadowsOf([ks[i]], original) + ShadowsOf(ks[i + 1..], original)
    ensures ShadowsOf(ks, original)[i] == ShadowsOf([ks[i]], original)[0]
  {
    hide ShadowsOf;
    ShadowsBeside(ks[..i] + [ks[i]], ks[i + 1..], original);
    ShadowsBeside(ks[..i], [ks[i]], original);
    SplitAt(ks, i);
  }

  /** One node put in another's place. */
  lemma ShadowsReplace(ks: seq<Node>, i: nat, n: Node, original: seq<Node>)
    requires i < |ks|
    ensures ShadowsOf(ks[i := n], original) == ShadowsOf(ks, original)[i := ShadowsOf([n], original)[0]]
  {
    hide ShadowsOf;
    var after := ks[i := n];
    ShadowsApart(ks, i, original);
    ShadowsApart(after, i, original);
    assert after[..i] == ks[..i] && after[i + 1..] == ks[i + 1..];
  }

  /** The shadow of a patched list is the patched shadow. */
  lemma ListCommutes(kids: seq<Node>, verb: Verb, slot: Slot, value: Node, original: seq<Node>)
    requires OnList(kids, verb, slot, value).Some?
    ensures OnList(ShadowsOf(kids, original), verb, slot, ShadowsOf([value], original)[0])
            == Some(ShadowsOf(OnList(kids, verb, slot, value).value, original))
  {
    hide ShadowsOf;
    var at := if slot.End? then |kids| else slot.i;
    var s := ShadowsOf([value], original);
    assert s == [s[0]];
    match verb
    case Add =>
      assert kids == kids[..at] + kids[at..];
      ShadowsBeside(kids[..at], kids[at..], original);
      ShadowsBeside(kids[..at] + [value], kids[at..], original);
      ShadowsBeside(kids[..at], [value], original);
      InsertedIs(kids, at, value);
    case Remove =>
      ShadowsApart(kids, at, original);
      ShadowsBeside(kids[..at], kids[at + 1..], original);
      var l, r := ShadowsOf(kids[..at], original), ShadowsOf(kids[at + 1..], original);
      assert Without(ShadowsOf(kids, original), at) == l + r;
    case Replace =>
      ShadowsReplace(kids, at, value, original);
  }

  /** And so all the way up. */
  lemma {:induction false} KidsCommute(ks: seq<Node>, parent: Path, verb: Verb, slot: Slot, value: Node, original: seq<Node>)
    requires OnKids(ks, parent, verb, slot, value).Some?
    ensures OnShadows(ShadowsOf(ks, original), parent, verb, slot, ShadowsOf([value], original)[0])
            == Some(ShadowsOf(OnKids(ks, parent, verb, slot, value).value, original))
  {
    var n := ks[parent[0]];
    if |parent| == 1 {
      ListCommutes(n.kids, verb, slot, value, original);
    } else {
      KidsCommute(n.kids, parent[1..], verb, slot, value, original);
    }
    var after := OnKids(ks, parent, verb, slot, value).value;
    assert after == ks[parent[0] := after[parent[0]]];
    hide ShadowsOf, OnList;
    ShadowAt(ks, parent[0], original);
    ShadowAt(after, parent[0], original);
    ShadowsReplace(ks, parent[0], after[parent[0]], original);
    ShadowsApart(after, parent[0], original);
  }

  /** The shadow of a node that holds others: its path, and theirs. */
  lemma ShadowAt(ks: seq<Node>, i: nat, original: seq<Node>)
    requires i < |ks| && ks[i].Group?
    ensures ShadowsOf(ks, original)[i] ==
            Shadow(if ks[i].id in Ids(original) then Some(PathOf(original, ks[i].id)) else None, ShadowsOf(ks[i].kids, original))
  {
    ShadowsApart(ks, i, original);
  }

  /** A change of a field moves no node. */
  lemma {:induction false} FieldMovesNothing(ks: seq<Node>, path: Path, change: Change, original: seq<Node>)
    requires OnNode(ks, path, change).Some?
    ensures ShadowsOf(OnNode(ks, path, change).value, original) == ShadowsOf(ks, original)
  {
    var n := ks[path[0]];
    if |path| > 1 {
      FieldMovesNothing(n.kids, path[1..], change, original);
    }
    var after := OnNode(ks, path, change).value;
    ShadowsApart(ks, path[0], original);
    ShadowsReplace(ks, path[0], after[path[0]], original);
    assert after == ks[path[0] := after[path[0]]];
    assert ShadowsOf([after[path[0]]], original) == ShadowsOf([n], original);
  }

  // ----- the map ------------------------------------------------------------------------------------

  /** Each node that had a path, with the path it has: the later of two places of one node wins. */
  function Walk(ss: seq<Shadow>, above: Path, from: nat): map<Path, Path>
  {
    if ss == [] then map[]
    else
      var here := above + [from];
      (if ss[0].was.Some? then map[ss[0].was.value := here] else map[]) + Walk(ss[0].kids, here, 0) + Walk(ss[1..], above, from + 1)
  }

  /** The path of a node, of a forest that stands at `from` under `above`. */
  function PathUnder(ks: seq<Node>, id: nat, above: Path, from: nat): Path
    requires id in Ids(ks)
  {
    Under(PathOf(ks, id), above, from)
  }

  function Under(p: Path, above: Path, from: nat): Path
    requires p != []
  {
    above + [p[0] + from] + p[1..]
  }

  /** The walk finds no path but those of the original's nodes that are there. */
  lemma {:induction false} WalkOnly(ks: seq<Node>, original: seq<Node>, above: Path, from: nat, p: Path)
    requires p in Walk(ShadowsOf(ks, original), above, from)
    ensures exists id :: id in Ids(ks) && id in Ids(original) && PathOf(original, id) == p
  {
    var head, rest, here := ks[0], ks[1..], above + [from];
    var kids := if head.Group? then head.kids else [];
    var ss := ShadowsOf(ks, original);
    assert ss[0].kids == ShadowsOf(kids, original) && ss[1..] == ShadowsOf(rest, original);
    Headed(ks);
    if p in Walk(ss[1..], above, from + 1) {
      WalkOnly(rest, original, above, from + 1, p);
    } else if p in Walk(ss[0].kids, here, 0) {
      WalkOnly(kids, original, here, 0, p);
    }
  }

  /** It is not found in a forest that does not hold the node. */
  lemma WalkNot(ks: seq<Node>, original: seq<Node>, above: Path, from: nat, id: nat)
    requires Unique(original) && id in Ids(original) && id !in Ids(ks)
    ensures PathOf(original, id) !in Walk(ShadowsOf(ks, original), above, from)
  {
    if PathOf(original, id) in Walk(ShadowsOf(ks, original), above, from) {
      WalkOnly(ks, original, above, from, PathOf(original, id));
      PathsDiffer(original);
    }
  }

  /** The walk, taken apart: the head, what is in it, what is right of it. */
  lemma WalkApart(ks: seq<Node>, original: seq<Node>, above: Path, from: nat)
    requires ks != []
    ensures var kids := if ks[0].Group? then ks[0].kids else [];
      Walk(ShadowsOf(ks, original), above, from)
      == (if ks[0].id in Ids(original) then map[PathOf(original, ks[0].id) := above + [from]] else map[])
         + Walk(ShadowsOf(kids, original), above + [from], 0) + Walk(ShadowsOf(ks[1..], original), above, from + 1)
  {
    assert ShadowsOf(ks, original)[1..] == ShadowsOf(ks[1..], original);
  }

  /** And each of them at the path it has. */
  lemma {:induction false} WalkFinds(ks: seq<Node>, original: seq<Node>, above: Path, from: nat, id: nat)
    requires Unique(ks) && Unique(original) && id in Ids(ks) && id in Ids(original)
    ensures PathOf(original, id) in Walk(ShadowsOf(ks, original), above, from)
    ensures Walk(ShadowsOf(ks, original), above, from)[PathOf(original, id)] == PathUnder(ks, id, above, from)
  {
    var head, rest, here := ks[0], ks[1..], above + [from];
    var kids := if head.Group? then head.kids else [];
    PathUnderIs(ks, id, above, from);
    hide Walk, ShadowsOf, Ids, Unique, PathOf, PathUnder;
    WalkApart(ks, original, above, from);
    Headed(ks);
    if id == head.id {
      WalkNot(kids, original, here, 0, id);
      WalkNot(rest, original, above, from + 1, id);
    } else if id in Ids(kids) {
      WalkNot(rest, original, above, from + 1, id);
      WalkFinds(kids, original, here, 0, id);
    } else {
      WalkFinds(rest, original, above, from + 1, id);
    }
  }

  lemma PathUnderIs(ks: seq<Node>, id: nat, above: Path, from: nat)
    requires id in Ids(ks)
    ensures PathUnder(ks, id, above, from)
            == if id == ks[0].id then above + [from]
               else if ks[0].Group? && id in Ids(ks[0].kids) then PathUnder(ks[0].kids, id, above + [from], 0)
               else PathUnder(ks[1..], id, above, from + 1)
  {
    PathOfIs(ks, id);
    hide PathOf, Ids, Under;
    if id == ks[0].id {
      UnderHead(above, from);
    } else if ks[0].Group? && id in Ids(ks[0].kids) {
      UnderInside(PathOf(ks[0].kids, id), above, from);
    } else {
      UnderRight(PathOf(ks[1..], id), above, from);
    }
  }

  lemma PathOfIs(ks: seq<Node>, id: nat)
    requires id in Ids(ks)
    ensures id == ks[0].id ==> PathOf(ks, id) == [0]
    ensures id != ks[0].id && ks[0].Group? && id in Ids(ks[0].kids) ==> PathOf(ks, id) == [0] + PathOf(ks[0].kids, id)
    ensures id != ks[0].id && !(ks[0].Group? && id in Ids(ks[0].kids)) ==>
              id in Ids(ks[1..]) && PathOf(ks, id) == [PathOf(ks[1..], id)[0] + 1] + PathOf(ks[1..], id)[1..]
  {}

  lemma UnderHead(above: Path, from: nat)
    ensures Under([0], above, from) == above + [from]
  {}

  lemma UnderRight(p: Path, above: Path, from: nat)
    requires p != []
    ensures Under([p[0] + 1] + p[1..], above, from) == Under(p, above, from + 1)
  {
    assert ([p[0] + 1] + p[1..])[1..] == p[1..];
  }

  lemma UnderInside(p: Path, above: Path, from: nat)
    requires p != []
    ensures Under([0] + p, above, from) == Under(p, above + [from], 0)
  {
    assert ([0] + p)[1..] == p;
    assert p == [p[0]] + p[1..];
  }

  lemma UnderNothing(ks: seq<Node>, id: nat)
    requires id in Ids(ks)
    ensures PathUnder(ks, id, [], 0) == PathOf(ks, id)
  {}

  /** The walk of the patched tree's shadow is the map of the nodes kept. */
  lemma WalkIsPathsKept(tree: Node, after: Node)
    requires Unique([tree]) && Unique([after])
    ensures Walk(ShadowsOf([after], [tree]), [], 0) == PathsKept([tree], [after])
  {
    hide Ids, Unique, Walk, ShadowsOf, PathOf;
    var walk, kept := Walk(ShadowsOf([after], [tree]), [], 0), PathsKept([tree], [after]);
    PathsDiffer([tree]);
    forall p | p in walk
      ensures p in kept
    {
      WalkOnly([after], [tree], [], 0, p);
    }
    forall p | p in kept
      ensures p in walk && walk[p] == kept[p]
    {
      var id :| id in Ids([tree]) * Ids([after]) && PathOf([tree], id) == p;
      WalkFinds([after], [tree], [], 0, id);
      assert PathUnder([after], id, [], 0) == PathOf([after], id) by { UnderNothing([after], id); }
    }
  }

  // ----- the loop -----------------------------------------------------------------------------------

  /** The tree the shadow is of: the entry's own, or the one it had before it was removed. */
  function Shadowed(tree: Node, ops: seq<TreeOp>): Node
    requires ApplyAll(Entry(Some(tree)), ops).Entry?
  {
    if ops == [] then tree
    else
      var doc := ApplyAll(Entry(Some(tree)), ops);
      if doc.tree.Some? then doc.tree.value else Shadowed(tree, ops[..|ops| - 1])
  }

  lemma OneIs(ks: Option<seq<Node>>)
    ensures Kept(ks).Entry? ==> Kept(ks).tree.Some? && ks.value == [Kept(ks).tree.value]
  {}

  lemma ShadowedIs(tree: Node, ops: seq<TreeOp>)
    requires ApplyAll(Entry(Some(tree)), ops).Entry?
    ensures var doc := ApplyAll(Entry(Some(tree)), ops);
      Shadowed(tree, ops) == if doc.tree.Some? then doc.tree.value else Shadowed(tree, ops[..|ops| - 1])
  {}

  /** The map from each path before to the path after, by the ops alone. */
  method PathMap(tree: Node, ops: seq<TreeOp>) returns (out: map<Path, Path>)
    requires Unique([tree]) && ApplyAll(Entry(Some(tree)), ops).Entry?
    ensures out == Walk(ShadowsOf([Shadowed(tree, ops)], [tree]), [], 0)
    ensures var doc := ApplyAll(Entry(Some(tree)), ops);
      doc.tree.Some? && Unique([doc.tree.value]) ==> out == PathsKept([tree], [doc.tree.value])
  {
    hide Ids, Unique, Walk, ShadowsOf, OnShadows, OnKids, OnNode, OnList;
    var root := ShadowsOf([tree], [tree]);
    assert ops[..0] == [];
    for k := 0 to |ops|
      invariant ApplyAll(Entry(Some(tree)), ops[..k]).Entry?
      invariant root == ShadowsOf([Shadowed(tree, ops[..k])], [tree])
    {
      Prefixes(tree, ops, k);
      assert ops[..k + 1][..k] == ops[..k];
      ghost var before := ApplyAll(Entry(Some(tree)), ops[..k]);
      ShadowedIs(tree, ops[..k]);
      ShadowedIs(tree, ops[..k + 1]);
      match ops[k]
      case OnField(path, change) =>
        FieldMovesNothing([before.tree.value], path, change, [tree]);
        OneIs(OnNode([before.tree.value], path, change));
      case OnRoot(verb, value) =>
        if !verb.Remove? {
          root := ShadowsOf([value], [tree]);
        }
      case OnChild(verb, parent, slot, value) =>
        KidsCommute([before.tree.value], parent, verb, slot, value, [tree]);
        OneIs(OnKids([before.tree.value], parent, verb, slot, value));
        var patched := OnShadows(root, parent, verb, slot, ShadowsOf([value], [tree])[0]);
        root := patched.value;
    }
    assert ops[..|ops|] == ops;
    out := Walk(root, [], 0);
    ghost var doc := ApplyAll(Entry(Some(tree)), ops);
    if doc.tree.Some? && Unique([doc.tree.value]) {
      MapIsRight(tree, ops);
    }
  }

  /** What was applied at the end was applied all the way. */
  lemma {:induction false} Prefixes(tree: Node, ops: seq<TreeOp>, k: nat)
    requires ApplyAll(Entry(Some(tree)), ops).Entry? && k < |ops|
    ensures ApplyAll(Entry(Some(tree)), ops[..k]).Entry? && ApplyAll(Entry(Some(tree)), ops[..k + 1]).Entry?
  {
    if k + 1 == |ops| {
      assert ops[..k + 1] == ops;
    } else {
      var most := ops[..|ops| - 1];
      assert most[..k] == ops[..k] && most[..k + 1] == ops[..k + 1];
      Prefixes(tree, most, k);
    }
  }

  /** The map is right whenever the entry still has a tree, no node of it twice. */
  lemma MapIsRight(tree: Node, ops: seq<TreeOp>)
    requires Unique([tree]) && ApplyAll(Entry(Some(tree)), ops).Entry?
    requires var doc := ApplyAll(Entry(Some(tree)), ops); doc.tree.Some? && Unique([doc.tree.value])
    ensures Walk(ShadowsOf([Shadowed(tree, ops)], [tree]), [], 0) == PathsKept([tree], [ApplyAll(Entry(Some(tree)), ops).tree.value])
  {
    WalkIsPathsKept(tree, Shadowed(tree, ops));
  }

  /** When the tree is gone the map should be empty: it is only when the last tree held none of the nodes. */
  lemma MapOfNoTree(tree: Node, ops: seq<TreeOp>)
    requires Unique([tree]) && ApplyAll(Entry(Some(tree)), ops) == Entry(None) && Unique([Shadowed(tree, ops)])
    ensures Walk(ShadowsOf([Shadowed(tree, ops)], [tree]), [], 0) == map[] <==> Ids([tree]) !! Ids([Shadowed(tree, ops)])
  {
    var last := Shadowed(tree, ops);
    WalkIsPathsKept(tree, last);
    PathsDiffer([tree]);
    var kept := PathsKept([tree], [last]);
    if id :| id in Ids([tree]) && id in Ids([last]) {
      assert PathOf([tree], id) in kept;
    }
  }

  /** A `remove` of the whole tree leaves the map as if it had not been: it still names nodes, and there are none. */
  lemma RemovedTreeIsStillMapped(tree: Node, value: Node)
    requires Unique([tree])
    ensures var ops := [OnRoot(Remove, value)];
      && ApplyAll(Entry(Some(tree)), ops) == Entry(None)
      && Walk(ShadowsOf([Shadowed(tree, ops)], [tree]), [], 0) == PathsKept([tree], [tree])
      && ROOT in PathsKept([tree], [tree])
  {
    var ops := [OnRoot(Remove, value)];
    assert ops[..0] == [];
    WalkIsPathsKept(tree, tree);
    PathsDiffer([tree]);
    Headed([tree]);
    assert PathOf([tree], tree.id) == ROOT;
  }
}
