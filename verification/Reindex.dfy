/**
 * A fold of criteria made to hold exactly the elements a text names: the edit
 * script, and the list of children it leaves.
 *
 * `order` is the parent's children as the ops so far leave them, a child that
 * stands by its old place, a new leaf by its variable.
 */
module Reindex {
  import opened Common
  import Json

  /** One child of the fold's parent: a criterion on a variable, or a group. */
  datatype Child =
    | Leaf(variable: string, fields: map<string, Json.Value>)
    | Group(combinator: string, kids: seq<Child>, rest: string)

  datatype Token = Old(at: nat) | New(name: string)

  datatype Op = Remove(at: nat) | Add(at: nat, child: Child)

  /** The parent's children, and the index a name has in its array (none: after every index). */
  datatype Parent = Parent(children: seq<Child>, index: string -> Option<nat>)

  datatype State = State(order: seq<Token>, members: map<Token, string>)

  // ----- one criterion -------------------------------------------------------------------------------

  const WINDOW := "window "

  /** An end of a window as a field of its own. */
  function WindowKeys(ends: map<string, Json.Value>): (r: set<string>)
    ensures forall key :: key in r <==> |key| >= |WINDOW| && key[..|WINDOW|] == WINDOW && key[|WINDOW|..] in ends
  {
    var r := set k | k in ends :: WINDOW + k;
    assert forall key :: |key| >= |WINDOW| && key[..|WINDOW|] == WINDOW && key[|WINDOW|..] in ends ==> key in r by {
      forall key: string | |key| >= |WINDOW| && key[..|WINDOW|] == WINDOW && key[|WINDOW|..] in ends
        ensures key in r
      {
        assert key == WINDOW + key[|WINDOW|..];
      }
    }
    r
  }

  /** A leaf as the fields an editor shows: no baseline named is the primary one, no window the whole run. */
  function Fields(leaf: map<string, Json.Value>): map<string, Json.Value>
  {
    var ends := if "window" in leaf && leaf["window"].Obj? then leaf["window"].members else map[];
    (map k | k in leaf && k !in {"metric", "window", "against"} :: leaf[k])
    + (map key | key in WindowKeys(ends) :: ends[key[|WINDOW|..]])
    + (if "against" in leaf && leaf["against"] != Json.Null && leaf["against"] != Json.Str("primary") then map["against" := leaf["against"]] else map[])
  }

  function Metric(leaf: map<string, Json.Value>): Json.Value
  {
    if "metric" in leaf then leaf["metric"] else Json.Null
  }

  /** Whether two leaves are one criterion apart from their variable. */
  predicate OneCriterion(a: map<string, Json.Value>, b: map<string, Json.Value>)
  {
    Json.Equal(Json.Obj(Fields(a)["metric" := Metric(a)]), Json.Obj(Fields(b)["metric" := Metric(b)]))
  }

  /** What an editor shows of a leaf under one key. */
  function Shown(leaf: map<string, Json.Value>, key: string): Option<Json.Value>
  {
    if key == "against" then
      if key in leaf && leaf[key] !in {Json.Null, Json.Str("primary")} then Some(leaf[key]) else None
    else if |key| >= |WINDOW| && key[..|WINDOW|] == WINDOW && "window" in leaf && leaf["window"].Obj? && key[|WINDOW|..] in leaf["window"].members then
      Some(leaf["window"].members[key[|WINDOW|..]])
    else if key in leaf && key != "metric" && key != "window" then Some(leaf[key])
    else None
  }

  lemma FieldsShow(leaf: map<string, Json.Value>, key: string)
    ensures Shown(leaf, key) == if key in Fields(leaf) then Some(Fields(leaf)[key]) else None
  {
    var ends := if "window" in leaf && leaf["window"].Obj? then leaf["window"].members else map[];
    assert key in WindowKeys(ends) ==> key != "against" && key != "metric" && key != "window" by {
      if key in WindowKeys(ends) {
        assert key[6] == ' ' && "against"[6] == 't';
      }
    }
  }

  predicate OneValue(a: Option<Json.Value>, b: Option<Json.Value>)
  {
    if a.Some? && b.Some? then Json.Equal(a.value, b.value) else a == b
  }

  function Look(m: map<string, Json.Value>, key: string): Option<Json.Value>
  {
    if key in m then Some(m[key]) else None
  }

  lemma ObjectsEqualIff(x: map<string, Json.Value>, y: map<string, Json.Value>)
    ensures Json.Equal(Json.Obj(x), Json.Obj(y)) <==> forall key :: OneValue(Look(x, key), Look(y, key))
  {
    if forall key :: OneValue(Look(x, key), Look(y, key)) {
      forall key
        ensures key in x.Keys <==> key in y.Keys
        ensures key in x.Keys ==> Json.Equal(x[key], y[key])
      {
        assert OneValue(Look(x, key), Look(y, key));
      }
    }
  }

  /** What is compared of a leaf, key by key. */
  lemma Compared(leaf: map<string, Json.Value>, key: string)
    ensures Shown(leaf, "metric") == None
    ensures Look(Fields(leaf)["metric" := Metric(leaf)], key) == if key == "metric" then Some(Metric(leaf)) else Shown(leaf, key)
  {
    hide Fields, Metric;
    FieldsShow(leaf, key);
  }

  /** Two leaves are one criterion exactly when they have one metric and show one value, or none, under every key. */
  lemma OneCriterionIff(a: map<string, Json.Value>, b: map<string, Json.Value>)
    ensures OneCriterion(a, b) <==> Json.Equal(Metric(a), Metric(b)) && forall key :: OneValue(Shown(a, key), Shown(b, key))
  {
    hide Fields, Shown, Metric, Look;
    var x, y := Fields(a)["metric" := Metric(a)], Fields(b)["metric" := Metric(b)];
    ObjectsEqualIff(x, y);
    Compared(a, "metric");
    Compared(b, "metric");
    forall key
      ensures key != "metric" ==> Look(x, key) == Shown(a, key) && Look(y, key) == Shown(b, key)
    {
      Compared(a, key);
      Compared(b, key);
    }
    assert OneValue(Look(x, "metric"), Look(y, "metric")) <==> Json.Equal(Metric(a), Metric(b));
  }

  /** The criterion a child is, or holds as a warning of its own. */
  function OwnLeaf(c: Child): Option<Child>
  {
    if c.Leaf? then Some(c)
    else if c.combinator == "warn" && |c.kids| == 1 && c.kids[0].Leaf? then Some(c.kids[0])
    else None
  }

  // ----- the elements already there ------------------------------------------------------------------

  /** A criterion of the fold's metric on `name`, of the leaf `child` is or warns with. */
  predicate Rivals(child: Child, template: Child, name: string)
    requires template.Leaf?
  {
    var own := OwnLeaf(child);
    own.Some? && own.value.variable == name && Metric(own.value.fields) == Metric(template.fields)
  }

  /** A criterion of a metric on a name: a leaf, or what a `warn` holds alone. */
  predicate StandsOn(c: Child, metric: Json.Value, name: string)
  {
    || (c.Leaf? && c.variable == name && Metric(c.fields) == metric)
    || (c.Group? && c.combinator == "warn" && |c.kids| == 1 && c.kids[0].Leaf?
        && c.kids[0].variable == name && Metric(c.kids[0].fields) == metric)
  }

  lemma RivalsStand(child: Child, template: Child, name: string)
    requires template.Leaf?
    ensures Rivals(child, template, name) <==> StandsOn(child, Metric(template.fields), name)
  {}

  /** The first child from `at` on, not a member, with a criterion of the fold's metric on `name`. */
  function FirstRival(children: seq<Child>, member: map<nat, string>, template: Child, name: string, at: nat): (r: Option<nat>)
    requires template.Leaf? && at <= |children|
    ensures r.Some? ==> at <= r.value < |children| && r.value !in member && StandsOn(children[r.value], Metric(template.fields), name)
    ensures forall k :: at <= k < (if r.Some? then r.value else |children|) && k !in member ==> !StandsOn(children[k], Metric(template.fields), name)
    decreases |children| - at
  {
    if at == |children| then None
    else if at !in member && Rivals(children[at], template, name) then Some(at)
    else FirstRival(children, member, template, name, at + 1)
  }

  /** That very criterion, as a leaf of its own: it is taken as a member. */
  predicate IsTheFolds(child: Child, template: Child)
    requires template.Leaf?
  {
    child.Leaf? && OneCriterion(child.fields, template.fields)
  }

  // ----- the places of a new element -----------------------------------------------------------------

  predicate Less(a: Option<nat>, b: Option<nat>)
  {
    a.Some? && (b.None? || a.value < b.value)
  }

  function IndexAt(p: Parent, s: State, k: nat): Option<nat>
    requires k < |s.order| && s.order[k] in s.members
  {
    p.index(s.members[s.order[k]])
  }

  /** The member with the largest index below `index`, among the first `n` places; the last of equals. */
  function LastBelow(p: Parent, s: State, index: Option<nat>, n: nat): (r: Option<nat>)
    requires n <= |s.order|
    ensures r.Some? ==> r.value < n && s.order[r.value] in s.members && Less(IndexAt(p, s, r.value), index)
    ensures forall k :: 0 <= k < n && s.order[k] in s.members && Less(IndexAt(p, s, k), index) ==>
              r.Some? && !Less(IndexAt(p, s, r.value), IndexAt(p, s, k)) && (k <= r.value || Less(IndexAt(p, s, k), IndexAt(p, s, r.value)))
  {
    if n == 0 then None
    else
      var best := LastBelow(p, s, index, n - 1);
      if s.order[n - 1] in s.members && Less(IndexAt(p, s, n - 1), index)
         && (best.None? || !Less(IndexAt(p, s, n - 1), IndexAt(p, s, best.value)))
      then Some(n - 1) else best
  }

  /** The member with the smallest index, among the first `n` places; the first of equals. */
  function FirstOfAll(p: Parent, s: State, n: nat): (r: Option<nat>)
    requires n <= |s.order|
    ensures r.Some? ==> r.value < n && s.order[r.value] in s.members
    ensures forall k :: 0 <= k < n && s.order[k] in s.members ==>
              r.Some? && !Less(IndexAt(p, s, k), IndexAt(p, s, r.value)) && (r.value <= k || Less(IndexAt(p, s, r.value), IndexAt(p, s, k)))
  {
    if n == 0 then None
    else
      var best := FirstOfAll(p, s, n - 1);
      if s.order[n - 1] in s.members && (best.None? || Less(IndexAt(p, s, n - 1), IndexAt(p, s, best.value)))
      then Some(n - 1) else best
  }

  function OldBelow(order: seq<Token>, where: nat): nat
  {
    if order == [] then 0 else (if order[0].Old? && order[0].at < where then 1 else 0) + OldBelow(order[1..], where)
  }

  lemma {:induction false} OldBelowAtMost(order: seq<Token>, where: nat)
    ensures OldBelow(order, where) <= |order|
  {
    if order != [] {
      OldBelowAtMost(order[1..], where);
    }
  }

  /** Right after the member with the next smaller index; before the first; where the group was. */
  function PlaceFor(p: Parent, s: State, name: string, where: nat): (at: nat)
    ensures at <= |s.order|
  {
    var below := LastBelow(p, s, p.index(name), |s.order|);
    if below.Some? then below.value + 1
    else if FirstOfAll(p, s, |s.order|).Some? then FirstOfAll(p, s, |s.order|).value
    else (OldBelowAtMost(s.order, where); OldBelow(s.order, where))
  }

  function AddOne(p: Parent, s: State, name: string, where: nat): State
  {
    var at := PlaceFor(p, s, name, where);
    State(s.order[..at] + [New(name)] + s.order[at..], s.members[New(name) := name])
  }

  function AddAll(p: Parent, s: State, names: seq<string>, where: nat): State
  {
    if names == [] then s else AddOne(p, AddAll(p, s, names[..|names| - 1], where), names[|names| - 1], where)
  }

  // ----- the removes ---------------------------------------------------------------------------------

  /** The old places from `from` on whose child stays. */
  function Stay(n: nat, from: nat, member: map<nat, string>, wanted: seq<string>): (r: seq<Token>)
    requires from <= n
    decreases n - from
  {
    if from == n then []
    else (if from in member && member[from] !in wanted then [] else [Old(from)]) + Stay(n, from + 1, member, wanted)
  }

  function Olds(n: nat): (r: seq<Token>)
    ensures |r| == n && forall k :: 0 <= k < n ==> r[k] == Old(k)
  {
    if n == 0 then [] else Olds(n - 1) + [Old(n - 1)]
  }

  /** The names of the members from `from` on that go. */
  function Goes(n: nat, from: nat, member: map<nat, string>, wanted: seq<string>): (r: seq<string>)
    requires from <= n
    ensures forall name :: name in r <==> name !in wanted && exists at :: from <= at < n && at in member && member[at] == name
    decreases n - from
  {
    if from == n then []
    else (if from in member && member[from] !in wanted then [member[from]] else []) + Goes(n, from + 1, member, wanted)
  }

  /** The first `n` ops are removes, each before the place of the one before it. */
  predicate LastToFirst(ops: seq<Op>, n: nat)
    requires n <= |ops|
  {
    && (forall k :: 0 <= k < n ==> ops[k].Remove?)
    && forall j, k :: 0 <= j < k < n ==> ops[k].at < ops[j].at
  }

  /** By index, none before one with a smaller. */
  predicate Ascending(index: string -> Option<nat>, names: seq<string>)
  {
    forall j, k :: 0 <= j < k < |names| ==> !Less(index(names[k]), index(names[j]))
  }

  lemma {:induction false} InsertByAscends(index: string -> Option<nat>, sorted: seq<string>, name: string)
    requires Ascending(index, sorted)
    ensures Ascending(index, InsertBy(index, sorted, name))
    ensures forall n :: n in InsertBy(index, sorted, name) <==> n in sorted || n == name
  {
    if sorted != [] {
      assert sorted == [sorted[0]] + sorted[1..];
      if !Less(index(name), index(sorted[0])) {
        InsertByAscends(index, sorted[1..], name);
        var rest := InsertBy(index, sorted[1..], name);
        forall k | 0 <= k < |rest|
          ensures !Less(index(rest[k]), index(sorted[0]))
        {
          assert rest[k] in rest;
        }
      }
    }
  }

  lemma {:induction false} SortByAscends(index: string -> Option<nat>, names: seq<string>)
    ensures Ascending(index, SortBy(index, names))
    ensures forall n :: n in SortBy(index, names) <==> n in names
  {
    if names != [] {
      var rest, last := names[..|names| - 1], names[|names| - 1];
      SortByAscends(index, rest);
      InsertByAscends(index, SortBy(index, rest), last);
      assert names == rest + [last];
    }
  }

  /** The members that stay, by their tokens. */
  function Remaining(member: map<nat, string>, wanted: seq<string>): map<Token, string>
  {
    map t: Token | t in (set at | at in member && member[at] in wanted :: Old(at)) :: member[t.at]
  }

  // ----- the ops, and the list they leave --------------------------------------------------------------

  function ApplyOne(children: seq<Child>, op: Op): Option<seq<Child>>
  {
    match op
    case Remove(at) => if at < |children| then Some(children[..at] + children[at + 1..]) else None
    case Add(at, child) => if at <= |children| then Some(children[..at] + [child] + children[at..]) else None
  }

  /** RFC 6902: the ops one after the other, each on the list the ones before it left. */
  function ApplyAll(children: seq<Child>, ops: seq<Op>): Option<seq<Child>>
  {
    if ops == [] then Some(children)
    else
      var before := ApplyAll(children, ops[..|ops| - 1]);
      if before.None? then None else ApplyOne(before.value, ops[|ops| - 1])
  }

  /** The child a token stands for. */
  function ChildOf(p: Parent, template: Child, t: Token): Child
    requires template.Leaf?
  {
    match t
    case Old(at) => if at < |p.children| then p.children[at] else template
    case New(name) => Leaf(name, template.fields)
  }

  function Realised(p: Parent, template: Child, order: seq<Token>): (r: seq<Child>)
    requires template.Leaf?
    ensures |r| == |order| && forall k :: 0 <= k < |order| ==> r[k] == ChildOf(p, template, order[k])
  {
    if order == [] then [] else [ChildOf(p, template, order[0])] + Realised(p, template, order[1..])
  }

  lemma {:induction false} RealisedBeside(p: Parent, template: Child, a: seq<Token>, b: seq<Token>)
    requires template.Leaf?
    ensures Realised(p, template, a + b) == Realised(p, template, a) + Realised(p, template, b)
  {
    if a == [] {
      assert a + b == b;
    } else {
      assert (a + b)[1..] == a[1..] + b;
      RealisedBeside(p, template, a[1..], b);
    }
  }

  lemma OneMore(children: seq<Child>, ops: seq<Op>, op: Op)
    ensures ApplyAll(children, ops + [op]) == if ApplyAll(children, ops).None? then None else ApplyOne(ApplyAll(children, ops).value, op)
  {
    assert (ops + [op])[..|ops + [op]| - 1] == ops;
  }

  /** A `remove` at a place takes out the child that stands there. */
  lemma RemoveRealises(p: Parent, template: Child, children: seq<Child>, ops: seq<Op>, l: seq<Token>, t: Token, r: seq<Token>)
    requires template.Leaf? && ApplyAll(children, ops) == Some(Realised(p, template, l + [t] + r))
    ensures ApplyAll(children, ops + [Remove(|l|)]) == Some(Realised(p, template, l + r))
  {
    OneMore(children, ops, Remove(|l|));
    RealisedBeside(p, template, l + [t], r);
    RealisedBeside(p, template, l, [t]);
    RealisedBeside(p, template, l, r);
    var a, b := Realised(p, template, l), Realised(p, template, r);
    var whole := Realised(p, template, l + [t] + r);
    assert whole == a + Realised(p, template, [t]) + b;
    assert whole[..|l|] == a && whole[|l| + 1..] == b;
  }

  /** An `add` at a place puts the new leaf there. */
  lemma AddRealises(p: Parent, template: Child, children: seq<Child>, ops: seq<Op>, order: seq<Token>, at: nat, name: string)
    requires template.Leaf? && at <= |order| && ApplyAll(children, ops) == Some(Realised(p, template, order))
    ensures ApplyAll(children, ops + [Add(at, Leaf(name, template.fields))])
            == Some(Realised(p, template, order[..at] + [New(name)] + order[at..]))
  {
    var l, r := order[..at], order[at..];
    OneMore(children, ops, Add(at, Leaf(name, template.fields)));
    assert order == l + r;
    RealisedBeside(p, template, l, r);
    RealisedBeside(p, template, l + [New(name)], r);
    RealisedBeside(p, template, l, [New(name)]);
    var a, b := Realised(p, template, l), Realised(p, template, r);
    assert Realised(p, template, order)[..at] == a && Realised(p, template, order)[at..] == b;
    assert Realised(p, template, [New(name)]) == [Leaf(name, template.fields)];
  }

  lemma {:induction false} OldsRealise(p: Parent, template: Child, n: nat)
    requires template.Leaf? && n <= |p.children|
    ensures Realised(p, template, Olds(n)) == p.children[..n]
  {
    if n > 0 {
      OldsRealise(p, template, n - 1);
      RealisedBeside(p, template, Olds(n - 1), [Old(n - 1)]);
    }
  }

  // ----- the plan --------------------------------------------------------------------------------------

  datatype Plan =
    | NotAFold
    | Taken(names: seq<string>)
    | Reindexed(ops: seq<Op>, places: seq<nat>, added: seq<string>, removed: seq<string>)

  /** Each name once, where it came first. */
  function Dedup(names: seq<string>): seq<string>
  {
    if names == [] then []
    else
      var rest := Dedup(names[..|names| - 1]);
      if names[|names| - 1] in rest then rest else rest + [names[|names| - 1]]
  }

  function InsertBy(index: string -> Option<nat>, sorted: seq<string>, name: string): seq<string>
  {
    if sorted == [] then [name]
    else if Less(index(name), index(sorted[0])) then [name] + sorted
    else [sorted[0]] + InsertBy(index, sorted[1..], name)
  }

  /** By index, equals in the order they came. */
  function SortBy(index: string -> Option<nat>, names: seq<string>): seq<string>
  {
    if names == [] then [] else InsertBy(index, SortBy(index, names[..|names| - 1]), names[|names| - 1])
  }

  function Unheld(names: seq<string>, held: set<string>): seq<string>
  {
    if names == [] then [] else (if names[0] in held then [] else [names[0]]) + Unheld(names[1..], held)
  }

  datatype Adopted = Adopted(member: map<nat, string>, taken: seq<string>)

  function AdoptOne(p: Parent, template: Child, a: Adopted, name: string): Adopted
    requires template.Leaf?
  {
    var rival := FirstRival(p.children, a.member, template, name, 0);
    if rival.None? then a
    else if IsTheFolds(p.children[rival.value], template) then a.(member := a.member[rival.value := name])
    else a.(taken := a.taken + [name])
  }

  function AdoptAll(p: Parent, template: Child, a: Adopted, names: seq<string>): Adopted
    requires template.Leaf?
  {
    if names == [] then a else AdoptOne(p, template, AdoptAll(p, template, a, names[..|names| - 1]), names[|names| - 1])
  }

  /** The members a fold starts from, by their places. */
  function MembersAt(p: Parent, places: seq<nat>): map<nat, string>
    requires IsAFold(p, places)
  {
    map at | at in places :: p.children[at].variable
  }

  predicate IsAFold(p: Parent, places: seq<nat>)
  {
    places != [] && forall k :: 0 <= k < |places| ==> places[k] < |p.children| && p.children[places[k]].Leaf?
  }

  /** The members the edit starts from: the fold's, and the criteria it took for its own. */
  function Started(p: Parent, places: seq<nat>, names: seq<string>): Adopted
    requires IsAFold(p, places)
  {
    var first := MembersAt(p, places);
    AdoptAll(p, p.children[places[0]], Adopted(first, []), Unheld(Dedup(names), first.Values))
  }

  /** The smallest of some places below `n`, from `at` on; `n` for none. */
  function Lowest(places: set<nat>, at: nat, n: nat): (r: nat)
    requires at <= n
    ensures at <= r <= n && (r < n ==> r in places)
    ensures forall k :: at <= k < r ==> k !in places
    decreases n - at
  {
    if at == n || at in places then at else Lowest(places, at + 1, n)
  }

  /** The list after the removes. */
  function Kept(p: Parent, a: Adopted, wanted: seq<string>): State
  {
    State(Stay(|p.children|, 0, a.member, wanted), Remaining(a.member, wanted))
  }

  /** The list after the removes and the adds. */
  function Final(p: Parent, places: seq<nat>, names: seq<string>): State
    requires IsAFold(p, places)
  {
    var a, wanted := Started(p, places, names), Dedup(names);
    var start := Kept(p, a, wanted);
    AddAll(p, start, SortBy(p.index, Unheld(wanted, start.members.Values)), Lowest(a.member.Keys, 0, |p.children|))
  }

  /** The places, among the first `n`, of the members. */
  function PlacesOf(s: State, n: nat): seq<nat>
    requires n <= |s.order|
  {
    if n == 0 then [] else PlacesOf(s, n - 1) + if s.order[n - 1] in s.members then [n - 1] else []
  }

  /** A fold: its parent's children, and its places among them. */
  datatype Fold = Fold(parent: Parent, places: seq<nat>)

  /** What an edit makes of a fold; none where it is refused. */
  function Edited(f: Fold, names: seq<string>): Option<Fold>
  {
    if !IsAFold(f.parent, f.places) || Started(f.parent, f.places, names).taken != [] then None
    else
      var s := Final(f.parent, f.places, names);
      Some(Fold(Parent(Realised(f.parent, f.parent.children[f.places[0]], s.order), f.parent.index), PlacesOf(s, |s.order|)))
  }

  // ----- which names are refused -------------------------------------------------------------------------

  lemma {:induction false} DedupHolds(names: seq<string>)
    ensures forall n :: n in Dedup(names) <==> n in names
    ensures forall i, j :: 0 <= i < j < |Dedup(names)| ==> Dedup(names)[i] != Dedup(names)[j]
  {
    if names != [] {
      var rest, last := names[..|names| - 1], names[|names| - 1];
      DedupHolds(rest);
      assert names == rest + [last];
    }
  }

  lemma {:induction false} UnheldHolds(names: seq<string>, held: set<string>)
    ensures forall n :: n in Unheld(names, held) <==> n in names && n !in held
    ensures (forall i, j :: 0 <= i < j < |names| ==> names[i] != names[j]) ==>
              forall i, j :: 0 <= i < j < |Unheld(names, held)| ==> Unheld(names, held)[i] != Unheld(names, held)[j]
  {
    if names != [] {
      UnheldHolds(names[1..], held);
      assert names == [names[0]] + names[1..];
    }
  }

  /** The first child that is no member and has a criterion of the fold's metric on the name. */
  predicate FirstOn(p: Parent, places: seq<nat>, name: string, at: nat)
    requires IsAFold(p, places)
  {
    var metric := Metric(p.children[places[0]].fields);
    && at < |p.children| && at !in places && StandsOn(p.children[at], metric, name)
    && forall k :: 0 <= k < at && k !in places ==> !StandsOn(p.children[k], metric, name)
  }

  /** A name the fold may not have: under its parent another criterion of its metric is on it, which is not the fold's own. */
  ghost predicate IsRefused(p: Parent, places: seq<nat>, name: string)
    requires IsAFold(p, places)
  {
    exists at: nat :: FirstOn(p, places, name, at) && !(p.children[at].Leaf? && OneCriterion(p.children[at].fields, p.children[places[0]].fields))
  }

  predicate IsHeld(p: Parent, places: seq<nat>, name: string)
    requires IsAFold(p, places)
  {
    exists k :: 0 <= k < |places| && p.children[places[k]].variable == name
  }

  lemma HeldIsMember(p: Parent, places: seq<nat>, name: string)
    requires IsAFold(p, places)
    ensures IsHeld(p, places, name) <==> name in MembersAt(p, places).Values
  {
    if IsHeld(p, places, name) {
      var k :| 0 <= k < |places| && p.children[places[k]].variable == name;
      assert MembersAt(p, places)[places[k]] == name;
    }
  }

  /** A leaf adopted for one name is not looked at for another: the first rival is the first beside the fold. */
  lemma RivalIsFirstOn(p: Parent, places: seq<nat>, a: Adopted, before: seq<string>, name: string)
    requires IsAFold(p, places) && name !in before
    requires AdoptedFrom(p, p.children[places[0]], Adopted.Adopted(MembersAt(p, places), []), before, a)
    ensures var r := FirstRival(p.children, a.member, p.children[places[0]], name, 0);
      && (r.Some? ==> FirstOn(p, places, name, r.value))
      && (r.None? ==> forall at :: !FirstOn(p, places, name, at))
  {
    var template := p.children[places[0]];
    forall k | 0 <= k < |p.children|
      ensures k !in a.member && Rivals(p.children[k], template, name) <==> k !in places && StandsOn(p.children[k], Metric(template.fields), name)
    {
      RivalsStand(p.children[k], template, name);
      if k in a.member && k !in places {
        assert k !in MembersAt(p, places) && p.children[k].variable in before;
      }
    }
    FirstRivalIsFirst(p.children, a.member, template, name, 0);
  }

  lemma {:induction false} FirstRivalIsFirst(children: seq<Child>, member: map<nat, string>, template: Child, name: string, at: nat)
    requires template.Leaf? && at <= |children|
    ensures var r := FirstRival(children, member, template, name, at);
      r.Some? ==> forall k :: at <= k < r.value && k !in member ==> !Rivals(children[k], template, name)
    decreases |children| - at
  {
    if at < |children| {
      FirstRivalIsFirst(children, member, template, name, at + 1);
    }
  }

  /** A name whose criterion is there already, as a leaf of its own beside the fold: that leaf becomes a member. */
  ghost predicate IsAdopted(p: Parent, places: seq<nat>, name: string)
    requires IsAFold(p, places)
  {
    exists at: nat :: FirstOn(p, places, name, at) && p.children[at].Leaf? && OneCriterion(p.children[at].fields, p.children[places[0]].fields)
  }

  lemma OneFirst(p: Parent, places: seq<nat>, name: string, a: nat, b: nat)
    requires IsAFold(p, places) && FirstOn(p, places, name, a) && FirstOn(p, places, name, b)
    ensures a == b
  {}

  /** The names refused, and those that have a leaf. */
  ghost predicate Sorts(p: Parent, places: seq<nat>, names: seq<string>, r: Adopted)
    requires IsAFold(p, places)
  {
    && (forall n :: n in r.taken <==> n in names && IsRefused(p, places, n))
    && (forall n :: n in r.member.Values <==> IsHeld(p, places, n) || (n in names && IsAdopted(p, places, n)))
  }

  /** What becomes of the next name, by the first child that has it. */
  lemma NextSorts(p: Parent, places: seq<nat>, rest: seq<string>, last: string, a: Adopted)
    requires IsAFold(p, places) && last !in rest
    requires AdoptedFrom(p, p.children[places[0]], Adopted.Adopted(MembersAt(p, places), []), rest, a)
    ensures var template := p.children[places[0]];
      var rival := FirstRival(p.children, a.member, template, last, 0);
      && (IsRefused(p, places, last) <==> rival.Some? && !IsTheFolds(p.children[rival.value], template))
      && (IsAdopted(p, places, last) <==> rival.Some? && IsTheFolds(p.children[rival.value], template))
  {
    hide FirstOn, OneCriterion, FirstRival, IsHeld, AdoptedFrom, Rivals;
    RivalIsFirstOn(p, places, a, rest, last);
    var rival := FirstRival(p.children, a.member, p.children[places[0]], last, 0);
    if rival.Some? {
      forall at: nat | FirstOn(p, places, last, at)
        ensures at == rival.value
      {
        OneFirst(p, places, last, at, rival.value);
      }
    }
  }

  lemma SortsOneMore(p: Parent, places: seq<nat>, rest: seq<string>, last: string, a: Adopted)
    requires IsAFold(p, places) && last !in rest && Sorts(p, places, rest, a)
    requires AdoptedFrom(p, p.children[places[0]], Adopted.Adopted(MembersAt(p, places), []), rest, a)
    ensures Sorts(p, places, rest + [last], AdoptOne(p, p.children[places[0]], a, last))
  {
    hide FirstOn, IsTheFolds, FirstRival, IsHeld, AdoptedFrom, Rivals, IsRefused, IsAdopted, MembersAt;
    NextSorts(p, places, rest, last, a);
    var rival := FirstRival(p.children, a.member, p.children[places[0]], last, 0);
    if rival.Some? {
      ValuesOneMore(a.member, rival.value, last);
    }
  }

  lemma ValuesOneMore(m: map<nat, string>, at: nat, name: string)
    requires at !in m
    ensures forall n :: n in m[at := name].Values <==> n in m.Values || n == name
  {
    var r := m[at := name];
    forall n | n in m.Values
      ensures n in r.Values
    {
      var k :| k in m && m[k] == n;
      assert r[k] == n;
    }
    assert r[at] == name;
  }

  lemma {:induction false} AdoptAllSorts(p: Parent, places: seq<nat>, names: seq<string>)
    requires IsAFold(p, places) && forall i, j :: 0 <= i < j < |names| ==> names[i] != names[j]
    ensures Sorts(p, places, names, AdoptAll(p, p.children[places[0]], Adopted.Adopted(MembersAt(p, places), []), names))
  {
    var template, first := p.children[places[0]], Adopted.Adopted(MembersAt(p, places), []);
    if names == [] {
      forall n
        ensures IsHeld(p, places, n) <==> n in first.member.Values
      {
        HeldIsMember(p, places, n);
      }
    } else {
      var rest, last := names[..|names| - 1], names[|names| - 1];
      AdoptAllSorts(p, places, rest);
      AdoptAdds(p, template, first, rest);
      assert rest + [last] == names;
      hide Sorts, AdoptOne, AdoptedFrom;
      SortsOneMore(p, places, rest, last, AdoptAll(p, template, first, rest));
    }
  }

  /** Of the names asked for and not held, the edit refuses exactly those, and adopts exactly these. */
  lemma StartedSorts(p: Parent, places: seq<nat>, names: seq<string>)
    requires IsAFold(p, places)
    ensures var r := Started(p, places, names);
      && (forall n :: n in r.taken <==> n in names && !IsHeld(p, places, n) && IsRefused(p, places, n))
      && (forall n :: n in r.member.Values <==> IsHeld(p, places, n) || (n in names && IsAdopted(p, places, n)))
  {
    var first := MembersAt(p, places);
    var missing := Unheld(Dedup(names), first.Values);
    DedupHolds(names);
    UnheldHolds(Dedup(names), first.Values);
    AdoptAllSorts(p, places, missing);
    hide IsRefused, IsAdopted, IsHeld, Dedup, Unheld, AdoptAll;
    forall n
      ensures IsHeld(p, places, n) <==> n in first.Values
    {
      HeldIsMember(p, places, n);
    }
  }

  // ----- the loops ---------------------------------------------------------------------------------------

  /** Adopting only adds members, each a criterion of the fold's on the name it is adopted for. */
  ghost predicate AdoptedFrom(p: Parent, template: Child, a: Adopted, names: seq<string>, r: Adopted)
    requires template.Leaf?
  {
    && (forall at :: at in a.member ==> at in r.member && r.member[at] == a.member[at])
    && (forall at :: at in r.member && at !in a.member ==>
          at < |p.children| && IsTheFolds(p.children[at], template) && p.children[at].variable == r.member[at] && r.member[at] in names)
  }

  lemma {:induction false} AdoptAdds(p: Parent, template: Child, a: Adopted, names: seq<string>)
    requires template.Leaf?
    ensures AdoptedFrom(p, template, a, names, AdoptAll(p, template, a, names))
  {
    if names != [] {
      var rest, last := names[..|names| - 1], names[|names| - 1];
      AdoptAdds(p, template, a, rest);
      var r := AdoptAll(p, template, a, rest);
      assert names == rest + [last];
      hide AdoptAll, IsTheFolds, FirstRival;
      AdoptOneAdds(p, template, r, last);
    }
  }

  lemma AdoptOneAdds(p: Parent, template: Child, a: Adopted, name: string)
    requires template.Leaf?
    ensures AdoptedFrom(p, template, a, [name], AdoptOne(p, template, a, name))
  {}

  /** Which elements already have the fold's very criterion, and which have one that differs. */
  method Adopt(p: Parent, template: Child, first: map<nat, string>, names: seq<string>) returns (member: map<nat, string>, taken: seq<string>)
    requires template.Leaf?
    ensures Adopted.Adopted(member, taken) == AdoptAll(p, template, Adopted.Adopted(first, []), names)
  {
    member, taken := first, [];
    for i := 0 to |names|
      invariant Adopted.Adopted(member, taken) == AdoptAll(p, template, Adopted.Adopted(first, []), names[..i])
    {
      assert names[..i + 1][..|names[..i + 1]| - 1] == names[..i];
      var at := 0;
      ghost var before := member;
      while at < |p.children|
        invariant at <= |p.children| && member == before
        invariant FirstRival(p.children, member, template, names[i], 0) == FirstRival(p.children, member, template, names[i], at)
        invariant Adopted.Adopted(member, taken) == AdoptAll(p, template, Adopted.Adopted(first, []), names[..i])
      {
        if at !in member && Rivals(p.children[at], template, names[i]) {
          break;
        }
        at := at + 1;
      }
      if at < |p.children| {
        if IsTheFolds(p.children[at], template) {
          member := member[at := names[i]];
        } else {
          taken := taken + [names[i]];
        }
      }
    }
    assert names[..|names|] == names;
  }

  /** The members once those not wanted at `from` or after it are gone. */
  function Without(member: map<nat, string>, wanted: seq<string>, from: nat): map<Token, string>
  {
    map t: Token | t in (set at | at in member && (at < from || member[at] in wanted) :: Old(at)) :: member[t.at]
  }

  predicate DownTo(ops: seq<Op>, at: nat)
  {
    LastToFirst(ops, |ops|) && forall k :: 0 <= k < |ops| ==> ops[k].at >= at
  }

  lemma OneDown(ops: seq<Op>, at: nat)
    requires at > 0 && DownTo(ops, at)
    ensures DownTo(ops + [Remove(at - 1)], at - 1)
  {}

  lemma FurtherDown(ops: seq<Op>, at: nat)
    requires at > 0 && DownTo(ops, at)
    ensures DownTo(ops, at - 1)
  {}

  lemma NothingGoes(n: nat, member: map<nat, string>, wanted: seq<string>)
    ensures Goes(n, n, member, wanted) == [] && Stay(n, n, member, wanted) == [] && DownTo([], n)
  {}

  lemma DownIs(ops: seq<Op>)
    requires DownTo(ops, 0)
    ensures LastToFirst(ops, |ops|)
  {}

  lemma GoesStep(n: nat, at: nat, member: map<nat, string>, wanted: seq<string>)
    requires at < n
    ensures Goes(n, at, member, wanted) ==
            (if at in member && member[at] !in wanted then [member[at]] + Goes(n, at + 1, member, wanted) else Goes(n, at + 1, member, wanted))
  {
    assert [] + Goes(n, at + 1, member, wanted) == Goes(n, at + 1, member, wanted);
  }

  /** The removes, last to first: so each names the place its child has. */
  method Removes(p: Parent, template: Child, member: map<nat, string>, wanted: seq<string>) returns (ops: seq<Op>, s: State, gone: seq<string>)
    requires template.Leaf? && forall at :: at in member ==> at < |p.children|
    ensures gone == Goes(|p.children|, 0, member, wanted)
    ensures |ops| == |gone| && LastToFirst(ops, |ops|)
    ensures s == State(Stay(|p.children|, 0, member, wanted), Remaining(member, wanted))
    ensures ApplyAll(p.children, ops) == Some(Realised(p, template, s.order))
  {
    hide Realised, ApplyAll, Without, Goes, LastToFirst, Stay, Olds, Remaining, RemovedFrom;
    var n := |p.children|;
    var order, members := Olds(n), Without(member, wanted, n);
    ops, gone := [], [];
    NothingRemoved(p, template, member, wanted);
    var at: nat := n;
    while at > 0
      invariant at <= n && |ops| == |gone|
      invariant RemovedFrom(p, template, member, wanted, at, order, ops)
      invariant members == Without(member, wanted, at)
      invariant gone == Goes(n, at, member, wanted)
    {
      at := at - 1;
      RemovedOneMore(p, template, member, wanted, at, order, ops);
      GoesStep(n, at, member, wanted);
      if at in member && member[at] !in wanted {
        ops := ops + [Remove(at)];
        gone := [member[at]] + gone;
        order := order[..at] + order[at + 1..];
        members := members - {Old(at)};
        WithoutOne(member, wanted, at);
      } else {
        WithoutNone(member, wanted, at);
      }
    }
    AllRemoved(p, template, member, wanted, order, ops);
    WithoutAll(member, wanted);
    s := State(order, members);
  }

  /** The list once the removes at `at` and after it are planned, and the ops that leave it. */
  ghost predicate RemovedFrom(p: Parent, template: Child, member: map<nat, string>, wanted: seq<string>, at: nat, order: seq<Token>, ops: seq<Op>)
    requires template.Leaf? && at <= |p.children|
  {
    && order == Olds(at) + Stay(|p.children|, at, member, wanted)
    && ApplyAll(p.children, ops) == Some(Realised(p, template, order)) && DownTo(ops, at)
  }

  lemma NothingRemoved(p: Parent, template: Child, member: map<nat, string>, wanted: seq<string>)
    requires template.Leaf?
    ensures var n := |p.children|;
      RemovedFrom(p, template, member, wanted, n, Olds(n), []) && Goes(n, n, member, wanted) == []
  {
    OldsRealise(p, template, |p.children|);
    NothingGoes(|p.children|, member, wanted);
    hide Olds, Realised, Stay;
    assert p.children[..|p.children|] == p.children;
    assert Olds(|p.children|) + [] == Olds(|p.children|);
  }

  lemma RemovedOneMore(p: Parent, template: Child, member: map<nat, string>, wanted: seq<string>, at: nat, order: seq<Token>, ops: seq<Op>)
    requires template.Leaf? && at < |p.children| && RemovedFrom(p, template, member, wanted, at + 1, order, ops)
    ensures |order| > at
    ensures if at in member && member[at] !in wanted
            then RemovedFrom(p, template, member, wanted, at, order[..at] + order[at + 1..], ops + [Remove(at)])
            else RemovedFrom(p, template, member, wanted, at, order, ops)
  {
    hide Realised, ApplyAll, DownTo, Olds, Stay;
    var n := |p.children|;
    StaySplit(n, at, member, wanted);
    if at in member && member[at] !in wanted {
      RemoveRealises(p, template, p.children, ops, Olds(at), Old(at), Stay(n, at + 1, member, wanted));
      OneDown(ops, at + 1);
    } else {
      FurtherDown(ops, at + 1);
    }
  }

  lemma AllRemoved(p: Parent, template: Child, member: map<nat, string>, wanted: seq<string>, order: seq<Token>, ops: seq<Op>)
    requires template.Leaf? && RemovedFrom(p, template, member, wanted, 0, order, ops)
    ensures order == Stay(|p.children|, 0, member, wanted) && LastToFirst(ops, |ops|)
    ensures ApplyAll(p.children, ops) == Some(Realised(p, template, order))
  {
    assert Olds(0) == [];
    DownIs(ops);
  }

  lemma Middle<T>(l: seq<T>, x: T, r: seq<T>)
    ensures (l + [x] + r)[..|l|] == l && (l + [x] + r)[|l| + 1..] == r
    ensures l + ([x] + r) == l + [x] + r && l + ([] + r) == l + r
  {}

  /** The list at one place: what is before it is untouched. */
  lemma StaySplit(n: nat, at: nat, member: map<nat, string>, wanted: seq<string>)
    requires at < n
    ensures var l, r := Olds(at), Stay(n, at + 1, member, wanted);
      var order := Olds(at + 1) + r;
      && order == l + [Old(at)] + r
      && order[..at] + order[at + 1..] == l + r
      && l + Stay(n, at, member, wanted) == if at in member && member[at] !in wanted then l + r else order
  {
    var l, r := Olds(at), Stay(n, at + 1, member, wanted);
    assert Olds(at + 1) == l + [Old(at)];
    assert Stay(n, at, member, wanted) == (if at in member && member[at] !in wanted then [] else [Old(at)]) + r;
    hide Olds, Stay;
    Middle(l, Old(at), r);
  }

  lemma WithoutAll(member: map<nat, string>, wanted: seq<string>)
    ensures Without(member, wanted, 0) == Remaining(member, wanted)
  {}

  lemma WithoutOne(member: map<nat, string>, wanted: seq<string>, at: nat)
    requires at in member && member[at] !in wanted
    ensures Without(member, wanted, at + 1) - {Old(at)} == Without(member, wanted, at)
  {}

  lemma WithoutNone(member: map<nat, string>, wanted: seq<string>, at: nat)
    requires at !in member || member[at] in wanted
    ensures Without(member, wanted, at + 1) == Without(member, wanted, at)
  {}

  /** The ops from `n` on add a copy of the template for each name, in their order. */
  predicate AddsLeaves(ops: seq<Op>, n: nat, names: seq<string>, template: Child)
    requires template.Leaf?
  {
    && |ops| == n + |names|
    && forall k :: n <= k < |ops| ==> ops[k].Add? && ops[k].child == Leaf(names[k - n], template.fields)
  }

  lemma AddsOneMore(ops: seq<Op>, n: nat, names: seq<string>, template: Child, at: nat, name: string)
    requires template.Leaf? && AddsLeaves(ops, n, names, template)
    ensures AddsLeaves(ops + [Add(at, Leaf(name, template.fields))], n, names + [name], template)
  {}

  /** The adds, each where the list so far has its place. */
  method Adds(p: Parent, template: Child, removes: seq<Op>, start: State, names: seq<string>, where: nat) returns (ops: seq<Op>, s: State)
    requires template.Leaf? && ApplyAll(p.children, removes) == Some(Realised(p, template, start.order))
    ensures s == AddAll(p, start, names, where)
    ensures removes <= ops && ApplyAll(p.children, ops) == Some(Realised(p, template, s.order))
    ensures AddsLeaves(ops, |removes|, names, template)
  {
    hide Realised, ApplyAll, PlaceFor;
    ops, s := removes, start;
    assert names[..0] == [];
    for i := 0 to |names|
      invariant s == AddAll(p, start, names[..i], where)
      invariant removes <= ops && ApplyAll(p.children, ops) == Some(Realised(p, template, s.order))
      invariant AddsLeaves(ops, |removes|, names[..i], template)
    {
      assert names[..i + 1][..|names[..i + 1]| - 1] == names[..i];
      var at := PlaceFor(p, s, names[i], where);
      AddRealises(p, template, p.children, ops, s.order, at, names[i]);
      AddsOneMore(ops, |removes|, names[..i], template, at, names[i]);
      assert names[..i + 1] == names[..i] + [names[i]];
      ops := ops + [Add(at, Leaf(names[i], template.fields))];
      s := State(s.order[..at] + [New(names[i])] + s.order[at..], s.members[New(names[i]) := names[i]]);
    }
    assert names[..|names|] == names;
  }

  /**
   * What the plan of an edit says, in the fold's own terms: removes, last to
   * first, of the members not asked for; then adds, by index, of copies of the
   * first member on the names asked for that nothing under the parent has.
   */
  ghost predicate Plans(p: Parent, places: seq<nat>, names: seq<string>, r: Plan)
    requires IsAFold(p, places) && r.Reindexed?
  {
    && |r.removed| <= |r.ops| && LastToFirst(r.ops, |r.removed|)
    && AddsLeaves(r.ops, |r.removed|, r.added, p.children[places[0]]) && Ascending(p.index, r.added)
    && (forall n :: n in r.removed <==> n !in names && IsHeld(p, places, n))
    && (forall n :: n in r.added <==> n in names && !IsHeld(p, places, n) && !IsAdopted(p, places, n))
  }

  /** Refused are exactly the names asked for, not held, on which another criterion of the fold's metric stands. */
  ghost predicate Refuses(p: Parent, places: seq<nat>, names: seq<string>, taken: seq<string>)
    requires IsAFold(p, places)
  {
    forall n :: n in taken <==> n in names && !IsHeld(p, places, n) && IsRefused(p, places, n)
  }

  lemma TakenAreRefused(p: Parent, places: seq<nat>, names: seq<string>)
    requires IsAFold(p, places)
    ensures Refuses(p, places, names, Started(p, places, names).taken)
  {
    hide Started, IsHeld, IsRefused, IsAdopted;
    StartedSorts(p, places, names);
  }

  lemma RemovesFirst(removes: seq<Op>, ops: seq<Op>)
    requires removes <= ops && LastToFirst(removes, |removes|)
    ensures LastToFirst(ops, |removes|)
  {}

  lemma GoneAre(p: Parent, places: seq<nat>, names: seq<string>, wanted: seq<string>)
    requires IsAFold(p, places) && forall n :: n in wanted <==> n in names
    requires forall at :: at in Started(p, places, names).member ==> at < |p.children|
    ensures forall n :: n in Goes(|p.children|, 0, Started(p, places, names).member, wanted) <==> n !in names && IsHeld(p, places, n)
  {
    var member := Started(p, places, names).member;
    StartedSorts(p, places, names);
    hide Started, IsAFold, IsHeld, IsAdopted, IsRefused;
    forall n
      ensures n in member.Values <==> exists at :: 0 <= at < |p.children| && at in member && member[at] == n
    {
      if n in member.Values {
        var at :| at in member && member[at] == n;
      }
    }
  }

  lemma PlannedSo(p: Parent, places: seq<nat>, names: seq<string>, removes: seq<Op>, r: Plan)
    requires IsAFold(p, places) && r.Reindexed? && removes <= r.ops && |removes| == |r.removed| && LastToFirst(removes, |removes|)
    requires AddsLeaves(r.ops, |removes|, r.added, p.children[places[0]])
    requires var wanted, member := Dedup(names), Started(p, places, names).member;
      && (forall at :: at in member ==> at < |p.children|)
      && r.removed == Goes(|p.children|, 0, member, wanted) && r.added == SortBy(p.index, Unheld(wanted, Remaining(member, wanted).Values))
    ensures Plans(p, places, names, r)
  {
    hide Started, IsHeld, IsAdopted, LastToFirst, AddsLeaves, Ascending, Goes, Dedup, Unheld, Remaining, SortBy;
    var wanted := Dedup(names);
    DedupHolds(names);
    GoneAre(p, places, names, wanted);
    AddedAre(p, places, names, wanted);
    SortByAscends(p.index, Unheld(wanted, Remaining(Started(p, places, names).member, wanted).Values));
    RemovesFirst(removes, r.ops);
  }

  lemma AddedAre(p: Parent, places: seq<nat>, names: seq<string>, wanted: seq<string>)
    requires IsAFold(p, places) && forall n :: n in wanted <==> n in names
    ensures var missing := Unheld(wanted, Remaining(Started(p, places, names).member, wanted).Values);
      forall n :: n in missing <==> n in names && !IsHeld(p, places, n) && !IsAdopted(p, places, n)
  {
    var member := Started(p, places, names).member;
    var left := Remaining(member, wanted);
    StartedSorts(p, places, names);
    UnheldHolds(wanted, left.Values);
    hide Started, IsAFold, IsHeld, IsAdopted, IsRefused;
    forall n | n in wanted
      ensures n in left.Values <==> n in member.Values
    {
      if n in member.Values {
        var at :| at in member && member[at] == n;
        assert left[Old(at)] == n;
      }
    }
  }

  /**
   * The fold whose members are at `places` (in tree order), made to hold exactly the
   * elements `names`.  The ops it plans all apply, one after the other, and leave
   * the list `Final` says.
   */
  method Reindex(p: Parent, places: seq<nat>, names: seq<string>) returns (r: Plan)
    ensures r.NotAFold? <==> !IsAFold(p, places)
    ensures r.Taken? ==> r.names != []
    ensures r.Taken? ==> IsAFold(p, places) && r.names == Started(p, places, names).taken
    ensures r.Taken? ==> Refuses(p, places, names, r.names)
    ensures r.Reindexed? ==> Refuses(p, places, names, [])
    ensures r.Reindexed? ==> Plans(p, places, names, r)
    ensures r.Reindexed? <==> Edited(Fold(p, places), names).Some?
    ensures r.Reindexed? ==>
              var after := Edited(Fold(p, places), names).value;
              ApplyAll(p.children, r.ops) == Some(after.parent.children) && r.places == after.places
  {
    if places == [] {
      return NotAFold;
    }
    if exists k :: 0 <= k < |places| && (places[k] >= |p.children| || !p.children[places[k]].Leaf?) {
      return NotAFold;
    }
    hide Realised, ApplyAll, AddAll, AdoptAll, Remaining, Stay, PlacesOf, Dedup, Unheld, IsRefused, IsAdopted, IsHeld, LastToFirst, AddsLeaves, Ascending, Goes, Plans, Refuses, Started;
    TakenAreRefused(p, places, names);
    var template, wanted, first := p.children[places[0]], Dedup(names), MembersAt(p, places);
    var missing := Unheld(wanted, first.Values);
    var member, taken := Adopt(p, template, first, missing);
    if taken != [] {
      return Taken(taken);
    }
    AdoptAdds(p, template, Adopted.Adopted(first, []), missing);
    var removes, start, gone := Removes(p, template, member, wanted);
    var added := SortBy(p.index, Unheld(wanted, start.members.Values));
    var ops, s := Adds(p, template, removes, start, added, Lowest(member.Keys, 0, |p.children|));
    assert s == Final(p, places, names);
    r := Reindexed(ops, PlacesOf(s, |s.order|), added, gone);
    PlannedSo(p, places, names, removes, r);
  }
}
