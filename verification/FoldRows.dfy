/**
 * The criteria rows of one plot, with each array family's identical criteria
 * folded into one row.
 *
 * `FoldRows` builds the groups in place, row by row; `Shown` says of each row
 * alone what becomes of it.
 */
module FoldRows {
  import opened Common
  import Json

  type Path = seq<nat>

  /** One criterion's row: the leaf at `path`, and what its variable is called (none, or empty, on some). */
  datatype Row = Row(path: Path, variable: Option<string>, leaf: map<string, Json.Value>)

  /**
   * The rows of one plot.  `family` reads a variable's name: the array it is
   * an element of, and its index there.  `pinned` are the paths of the fold
   * whose editor is open.
   */
  datatype Plot = Plot(rows: seq<Row>, family: string -> Option<(string, int)>, pinned: set<Path>)

  datatype Shown = Alone(row: nat) | Fold(family: string, members: seq<nat>)

  // ----- one criterion -----------------------------------------------------------------------------

  /** Python's `x or default`: a value that is empty, zero or false is as good as none. */
  function Or(v: Option<Json.Value>, default_: Json.Value): Json.Value
  {
    match v
    case None => default_
    case Some(x) =>
      var falsy := x == Json.Null || x == Json.Bool(false) || x == Json.Int(0) || x == Json.Float(0.0)
                   || x == Json.Str("") || x == Json.Arr([]) || x == Json.Obj(map[]);
      if falsy then default_ else x
  }

  function Get(leaf: map<string, Json.Value>, key: string): Option<Json.Value>
  {
    if key in leaf then Some(leaf[key]) else None
  }

  /** What a leaf is apart from its variable. */
  function CriterionOf(leaf: map<string, Json.Value>): Json.Value
  {
    Json.Obj(map[
      "metric" := if "metric" in leaf then leaf["metric"] else Json.Null,
      "params" := Or(Get(leaf, "params"), Json.Obj(map[])),
      "against" := Or(Get(leaf, "against"), Json.Str("primary")),
      "window" := Or(Get(leaf, "window"), Json.Obj(map[]))])
  }

  function FamilyOf(p: Plot, r: Row): Option<string>
  {
    if r.variable.None? || r.variable.value == "" || p.family(r.variable.value).None? then None
    else Some(p.family(r.variable.value).value.0)
  }

  function ParentOf(path: Path): Option<Path>
  {
    if |path| > 1 then Some(path[..|path| - 1]) else None
  }

  /** Rows that belong in one fold: of the open one, or of one criterion. */
  predicate Same(p: Plot, a: Row, b: Row)
  {
    && FamilyOf(p, a).Some? && FamilyOf(p, a) == FamilyOf(p, b)
    && ParentOf(a.path) == ParentOf(b.path)
    && (a.path in p.pinned <==> b.path in p.pinned)
    && (a.path !in p.pinned ==> Json.Equal(CriterionOf(a.leaf), CriterionOf(b.leaf)))
  }

  /** A key that is there with a value that is not empty, zero or false. */
  predicate Says(leaf: map<string, Json.Value>, key: string)
  {
    key in leaf && leaf[key] !in {Json.Null, Json.Bool(false), Json.Int(0), Json.Float(0.0), Json.Str(""), Json.Arr([]), Json.Obj(map[])}
  }

  function Read(leaf: map<string, Json.Value>, key: string, default_: Json.Value): Json.Value
  {
    if Says(leaf, key) then leaf[key] else default_
  }

  /** The four members of a criterion. */
  lemma CriterionIs(leaf: map<string, Json.Value>)
    ensures CriterionOf(leaf).Obj?
    ensures var m := CriterionOf(leaf).members;
      && (forall k :: k in m.Keys <==> k == "metric" || k == "params" || k == "against" || k == "window")
      && m["metric"] == (if "metric" in leaf then leaf["metric"] else Json.Null)
      && m["params"] == Read(leaf, "params", Json.Obj(map[]))
      && m["against"] == Read(leaf, "against", Json.Str("primary"))
      && m["window"] == Read(leaf, "window", Json.Obj(map[]))
  {}

  lemma ObjectsEqual(x: map<string, Json.Value>, y: map<string, Json.Value>)
    ensures Json.Equal(Json.Obj(x), Json.Obj(y)) <==> x.Keys == y.Keys && forall k :: k in x.Keys ==> Json.Equal(x[k], y[k])
  {}

  /** One criterion: one metric, one set of parameters, one baseline, one window; nothing else counts. */
  lemma OneCriterionIff(a: map<string, Json.Value>, b: map<string, Json.Value>)
    ensures Json.Equal(CriterionOf(a), CriterionOf(b)) <==>
            && Json.Equal(if "metric" in a then a["metric"] else Json.Null, if "metric" in b then b["metric"] else Json.Null)
            && Json.Equal(Read(a, "params", Json.Obj(map[])), Read(b, "params", Json.Obj(map[])))
            && Json.Equal(Read(a, "against", Json.Str("primary")), Read(b, "against", Json.Str("primary")))
            && Json.Equal(Read(a, "window", Json.Obj(map[])), Read(b, "window", Json.Obj(map[])))
  {
    hide CriterionOf, Read, Json.Equal;
    CriterionIs(a);
    CriterionIs(b);
    var x, y := CriterionOf(a).members, CriterionOf(b).members;
    ObjectsEqual(x, y);
    assert x.Keys == y.Keys;
  }

  /** Children of one node: all of the path but its last step. */
  predicate Siblings(a: Path, b: Path)
  {
    && |a| == |b|
    && forall k :: 0 <= k < |a| - 1 ==> a[k] == b[k]
  }

  /** Belonging in one fold, said of the two rows alone. */
  lemma SameIff(p: Plot, a: Row, b: Row)
    requires a.path != [] && b.path != []
    ensures Same(p, a, b) <==>
            && a.variable.Some? && b.variable.Some? && a.variable.value != "" && b.variable.value != ""
            && p.family(a.variable.value).Some? && p.family(b.variable.value).Some?
            && p.family(a.variable.value).value.0 == p.family(b.variable.value).value.0
            && Siblings(a.path, b.path)
            && (a.path in p.pinned <==> b.path in p.pinned)
            && (a.path !in p.pinned ==> Json.Equal(CriterionOf(a.leaf), CriterionOf(b.leaf)))
  {
    hide CriterionOf;
    if Siblings(a.path, b.path) {
      assert a.path[..|a.path| - 1] == b.path[..|b.path| - 1];
    }
    if ParentOf(a.path) == ParentOf(b.path) && |a.path| > 1 {
      forall k | 0 <= k < |a.path| - 1
        ensures a.path[k] == b.path[k]
      {
        assert ParentOf(a.path).value[k] == ParentOf(b.path).value[k];
      }
    }
  }

  predicate Together(p: Plot, i: nat, j: nat)
  {
    i < |p.rows| && j < |p.rows| && Same(p, p.rows[i], p.rows[j])
  }

  /** Which rows belong together is an equivalence, because which criteria are one is. */
  lemma TogetherIsAnEquivalence(p: Plot, i: nat, j: nat, k: nat)
    ensures i < |p.rows| && FamilyOf(p, p.rows[i]).Some? ==> Together(p, i, i)
    ensures Together(p, i, j) ==> Together(p, j, i)
    ensures Together(p, i, j) && Together(p, j, k) ==> Together(p, i, k)
  {
    if i < |p.rows| && j < |p.rows| {
      var a, b := CriterionOf(p.rows[i].leaf), CriterionOf(p.rows[j].leaf);
      Json.EqualIsAnEquivalence(a, b, if k < |p.rows| then CriterionOf(p.rows[k].leaf) else a);
    } else if i < |p.rows| {
      Json.EqualIsAnEquivalence(CriterionOf(p.rows[i].leaf), CriterionOf(p.rows[i].leaf), CriterionOf(p.rows[i].leaf));
    }
  }

  // ----- what becomes of each row --------------------------------------------------------------------

  /** A fold names each element once: a second row of one on the same variable is not in it. */
  predicate Member(p: Plot, i: nat)
  {
    && i < |p.rows| && FamilyOf(p, p.rows[i]).Some?
    && forall j :: 0 <= j < i && Together(p, j, i) ==> p.rows[j].variable != p.rows[i].variable
  }

  /** The members, of the first `n` rows, of the fold that row `r` belongs to. */
  function Class(p: Plot, r: nat, n: nat): seq<nat>
  {
    if n == 0 then []
    else Class(p, r, n - 1) + if Member(p, n - 1) && Together(p, n - 1, r) then [n - 1] else []
  }

  lemma {:induction false} ClassHolds(p: Plot, r: nat, n: nat, j: nat)
    ensures j in Class(p, r, n) <==> j < n && Member(p, j) && Together(p, j, r)
  {
    if n > 0 {
      ClassHolds(p, r, n - 1, j);
    }
  }

  lemma {:induction false} ClassIncreases(p: Plot, r: nat, n: nat)
    ensures forall a :: 0 <= a < |Class(p, r, n)| ==> Class(p, r, n)[a] < n
    ensures forall a, b :: 0 <= a < b < |Class(p, r, n)| ==> Class(p, r, n)[a] < Class(p, r, n)[b]
  {
    if n > 0 {
      ClassIncreases(p, r, n - 1);
    }
  }

  lemma {:induction false} ClassIsShared(p: Plot, a: nat, b: nat, n: nat)
    requires Together(p, a, b)
    ensures Class(p, a, n) == Class(p, b, n)
  {
    hide Together, Member;
    if n > 0 {
      ClassIsShared(p, a, b, n - 1);
      TogetherIsAnEquivalence(p, n - 1, a, b);
      TogetherIsAnEquivalence(p, a, b, a);
      TogetherIsAnEquivalence(p, n - 1, b, a);
    }
  }

  /** Of the rows of one fold on one variable, the first is a member. */
  lemma {:induction false} FirstIsMember(p: Plot, j: nat) returns (m: nat)
    requires j < |p.rows| && FamilyOf(p, p.rows[j]).Some?
    ensures m <= j && Member(p, m) && Together(p, m, j) && p.rows[m].variable == p.rows[j].variable
  {
    TogetherIsAnEquivalence(p, j, j, j);
    if Member(p, j) {
      m := j;
    } else {
      var k: nat :| k < j && Together(p, k, j) && p.rows[k].variable == p.rows[j].variable;
      m := FirstIsMember(p, k);
      TogetherIsAnEquivalence(p, m, k, j);
    }
  }

  /** A row alone, or the fold it is first in, or nothing: it is shown where the first of its fold is. */
  function Shows(p: Plot, i: nat): seq<Shown>
    requires i < |p.rows|
  {
    var c := Class(p, i, |p.rows|);
    if !Member(p, i) || |c| < 2 then [Alone(i)]
    else if c[0] == i then [Fold(FamilyOf(p, p.rows[i]).value, c)]
    else []
  }

  function Folded(p: Plot, n: nat): seq<Shown>
    requires n <= |p.rows|
  {
    if n == 0 then [] else Folded(p, n - 1) + Shows(p, n - 1)
  }

  // ----- the groups, built row by row ------------------------------------------------------------------

  datatype Group = Group(family: string, parent: Option<Path>, criterion: Option<Json.Value>, members: seq<nat>)

  predicate Matches(g: Group, family: string, parent: Option<Path>, criterion: Option<Json.Value>)
  {
    && g.family == family && g.parent == parent
    && ((criterion.None? && g.criterion.None?)
        || (criterion.Some? && g.criterion.Some? && Json.Equal(criterion.value, g.criterion.value)))
  }

  function KeyOf(p: Plot, r: Row): Option<Json.Value>
  {
    if r.path in p.pinned then None else Some(CriterionOf(r.leaf))
  }

  /** A group is headed by its first member, and holds every member of its class so far. */
  ghost predicate Headed(p: Plot, g: Group, n: nat)
  {
    && g.members != [] && g.members[0] < |p.rows|
    && var head := p.rows[g.members[0]];
       && FamilyOf(p, head) == Some(g.family) && ParentOf(head.path) == g.parent && KeyOf(p, head) == g.criterion
       && g.members == Class(p, g.members[0], n)
  }

  /** The search for a row's group looks for the class it belongs to. */
  lemma MatchesIff(p: Plot, g: Group, n: nat, i: nat)
    requires Headed(p, g, n) && i < |p.rows| && FamilyOf(p, p.rows[i]).Some?
    ensures Matches(g, FamilyOf(p, p.rows[i]).value, ParentOf(p.rows[i].path), KeyOf(p, p.rows[i])) <==> Together(p, g.members[0], i)
  {
    var head, r := p.rows[g.members[0]], p.rows[i];
    Json.EqualIsAnEquivalence(CriterionOf(r.leaf), CriterionOf(head.leaf), CriterionOf(r.leaf));
    Json.EqualIsAnEquivalence(CriterionOf(head.leaf), CriterionOf(r.leaf), CriterionOf(head.leaf));
  }

  ghost predicate AllHeaded(p: Plot, groups: seq<Group>, n: nat)
  {
    forall g :: 0 <= g < |groups| ==> Headed(p, groups[g], n)
  }

  function Head(g: Group): nat
  {
    if g.members == [] then 0 else g.members[0]
  }

  /** No two groups are of one class. */
  ghost predicate Distinguished(p: Plot, groups: seq<Group>)
  {
    forall g, h :: 0 <= g < |groups| && 0 <= h < |groups| && g != h ==> !Together(p, Head(groups[g]), Head(groups[h]))
  }

  /** Exactly the members met so far are on record, each with the group of its class. */
  ghost predicate OnRecord(p: Plot, groups: seq<Group>, groupOf: map<Path, nat>, n: nat)
  {
    && OnlyMembers(p, groupOf, n)
    && (forall j: nat :: j < n && Member(p, j) ==> Recorded(p, groups, groupOf, j))
  }

  ghost predicate OnlyMembers(p: Plot, groupOf: map<Path, nat>, n: nat)
  {
    forall path :: path in groupOf ==> exists j: nat :: j < n && Member(p, j) && p.rows[j].path == path
  }

  ghost predicate Recorded(p: Plot, groups: seq<Group>, groupOf: map<Path, nat>, j: nat)
    requires j < |p.rows|
  {
    && p.rows[j].path in groupOf && groupOf[p.rows[j].path] < |groups|
    && Together(p, Head(groups[groupOf[p.rows[j].path]]), j)
  }

  predicate PathsDiffer(rows: seq<Row>)
  {
    forall i, j :: 0 <= i < j < |rows| ==> rows[i].path != rows[j].path
  }

  // ----- a row that joins no fold --------------------------------------------------------------------

  lemma SkipRow(p: Plot, groups: seq<Group>, groupOf: map<Path, nat>, i: nat)
    requires AllHeaded(p, groups, i) && OnRecord(p, groups, groupOf, i) && !Member(p, i)
    ensures AllHeaded(p, groups, i + 1) && OnRecord(p, groups, groupOf, i + 1)
  {
    hide Member, Together, FamilyOf, KeyOf;
  }

  // ----- a row that heads a new one ------------------------------------------------------------------

  lemma NobodyBefore(p: Plot, groups: seq<Group>, groupOf: map<Path, nat>, i: nat, j: nat)
    requires OnRecord(p, groups, groupOf, i) && j < i < |p.rows|
    requires forall g :: 0 <= g < |groups| ==> !Together(p, Head(groups[g]), i)
    ensures !Together(p, j, i)
  {
    if Together(p, j, i) {
      var m := FirstIsMember(p, j);
      assert Recorded(p, groups, groupOf, m);
      var head := Head(groups[groupOf[p.rows[m].path]]);
      TogetherIsAnEquivalence(p, head, m, j);
      TogetherIsAnEquivalence(p, head, j, i);
    }
  }

  lemma NewGroup(p: Plot, groups: seq<Group>, groupOf: map<Path, nat>, i: nat)
    requires AllHeaded(p, groups, i) && Distinguished(p, groups) && OnRecord(p, groups, groupOf, i)
    requires i < |p.rows| && PathsDiffer(p.rows) && FamilyOf(p, p.rows[i]).Some?
    requires forall g :: 0 <= g < |groups| ==> !Together(p, Head(groups[g]), i)
    ensures var g := Group(FamilyOf(p, p.rows[i]).value, ParentOf(p.rows[i].path), KeyOf(p, p.rows[i]), [i]);
      var groups', groupOf' := groups + [g], groupOf[p.rows[i].path := |groups|];
      AllHeaded(p, groups', i + 1) && Distinguished(p, groups') && OnRecord(p, groups', groupOf', i + 1)
  {
    forall j: nat | j < i
      ensures !Together(p, j, i)
    {
      NobodyBefore(p, groups, groupOf, i, j);
    }
    TogetherIsAnEquivalence(p, i, i, i);
    assert Member(p, i);
    NewGroupHolds(p, groups, groupOf, i);
  }

  lemma NewGroupHolds(p: Plot, groups: seq<Group>, groupOf: map<Path, nat>, i: nat)
    requires AllHeaded(p, groups, i) && Distinguished(p, groups) && OnRecord(p, groups, groupOf, i)
    requires i < |p.rows| && PathsDiffer(p.rows) && FamilyOf(p, p.rows[i]).Some?
    requires forall g :: 0 <= g < |groups| ==> !Together(p, Head(groups[g]), i)
    requires Together(p, i, i) && Member(p, i) && forall j: nat :: j < i ==> !Together(p, j, i)
    ensures var g := Group(FamilyOf(p, p.rows[i]).value, ParentOf(p.rows[i].path), KeyOf(p, p.rows[i]), [i]);
      var groups', groupOf' := groups + [g], groupOf[p.rows[i].path := |groups|];
      AllHeaded(p, groups', i + 1) && Distinguished(p, groups') && OnRecord(p, groups', groupOf', i + 1)
  {
    hide Together, FamilyOf, KeyOf, Member;
    var single := Group(FamilyOf(p, p.rows[i]).value, ParentOf(p.rows[i].path), KeyOf(p, p.rows[i]), [i]);
    var groups', groupOf' := groups + [single], groupOf[p.rows[i].path := |groups|];
    forall g | 0 <= g < |groups|
      ensures !Together(p, i, Head(groups[g])) && Headed(p, groups[g], i + 1)
    {
      TogetherIsAnEquivalence(p, i, Head(groups[g]), i);
      TogetherIsAnEquivalence(p, Head(groups[g]), i, i);
    }
    assert Headed(p, single, i + 1) by {
      if Class(p, i, i) != [] {
        ClassHolds(p, i, i, Class(p, i, i)[0]);
      }
    }
    forall j: nat | j < i + 1 && Member(p, j)
      ensures Recorded(p, groups', groupOf', j)
    {
      MemberIsRow(p, j);
      if j < i {
        assert Recorded(p, groups, groupOf, j);
      }
    }
    RecordGrows(p, groupOf, groupOf', i);
  }

  lemma MemberIsRow(p: Plot, j: nat)
    requires Member(p, j)
    ensures j < |p.rows|
  {}

  lemma RecordGrows(p: Plot, groupOf: map<Path, nat>, groupOf': map<Path, nat>, i: nat)
    requires OnlyMembers(p, groupOf, i) && Member(p, i)
    requires groupOf'.Keys == groupOf.Keys + {p.rows[i].path}
    ensures OnlyMembers(p, groupOf', i + 1)
  {
    MemberIsRow(p, i);
    hide Member;
    forall path | path in groupOf'
      ensures exists j: nat :: j < i + 1 && Member(p, j) && p.rows[j].path == path
    {
      if path == p.rows[i].path {
        assert Member(p, i);
      } else {
        assert path in groupOf;
        var j: nat :| j < i && Member(p, j) && p.rows[j].path == path;
        assert j < i + 1;
      }
    }
  }

  // ----- a row that joins one --------------------------------------------------------------------------

  lemma JoinsAsMember(p: Plot, g: Group, i: nat)
    requires Headed(p, g, i) && i < |p.rows| && Together(p, g.members[0], i)
    requires forall m :: m in g.members ==> m < |p.rows| && p.rows[m].variable != p.rows[i].variable
    ensures Member(p, i) && Together(p, i, g.members[0])
  {
    var head := g.members[0];
    TogetherIsAnEquivalence(p, head, i, head);
    TogetherIsAnEquivalence(p, i, head, i);
    forall j: nat | j < i && Together(p, j, i)
      ensures p.rows[j].variable != p.rows[i].variable
    {
      var m := FirstIsMember(p, j);
      TogetherIsAnEquivalence(p, m, j, i);
      TogetherIsAnEquivalence(p, m, i, head);
      ClassHolds(p, head, i, m);
    }
  }

  lemma JoinGroup(p: Plot, groups: seq<Group>, groupOf: map<Path, nat>, i: nat, g: nat)
    requires AllHeaded(p, groups, i) && Distinguished(p, groups) && OnRecord(p, groups, groupOf, i)
    requires i < |p.rows| && PathsDiffer(p.rows) && g < |groups| && Member(p, i)
    requires Together(p, Head(groups[g]), i) && Together(p, i, Head(groups[g]))
    ensures var groups', groupOf' := groups[g := groups[g].(members := groups[g].members + [i])], groupOf[p.rows[i].path := g];
      AllHeaded(p, groups', i + 1) && Distinguished(p, groups') && OnRecord(p, groups', groupOf', i + 1)
  {
    hide Together, FamilyOf, KeyOf, Member;
    var groups', groupOf' := groups[g := groups[g].(members := groups[g].members + [i])], groupOf[p.rows[i].path := g];
    forall h | 0 <= h < |groups|
      ensures Headed(p, groups'[h], i + 1) && Head(groups'[h]) == Head(groups[h])
    {
      assert Headed(p, groups[h], i);
      if h != g {
        TogetherIsAnEquivalence(p, Head(groups[g]), i, Head(groups[h]));
      }
    }
    forall j: nat | j < i + 1 && Member(p, j)
      ensures Recorded(p, groups', groupOf', j)
    {
      MemberIsRow(p, j);
      if j < i {
        assert Recorded(p, groups, groupOf, j);
      }
    }
    RecordGrows(p, groupOf, groupOf', i);
  }

  // ----- the fold -------------------------------------------------------------------------------------

  /** The first group a row matches, or the number of groups. */
  method FindGroup(p: Plot, groups: seq<Group>, i: nat) returns (found: nat)
    requires AllHeaded(p, groups, i) && i < |p.rows| && FamilyOf(p, p.rows[i]).Some?
    ensures found <= |groups|
    ensures found < |groups| ==> Together(p, Head(groups[found]), i)
    ensures found == |groups| ==> forall g :: 0 <= g < |groups| ==> !Together(p, Head(groups[g]), i)
  {
    found := 0;
    while found < |groups|
      invariant found <= |groups|
      invariant forall g :: 0 <= g < found ==> !Together(p, Head(groups[g]), i)
    {
      MatchesIff(p, groups[found], i, i);
      if Matches(groups[found], FamilyOf(p, p.rows[i]).value, ParentOf(p.rows[i].path), KeyOf(p, p.rows[i])) {
        return;
      }
      found := found + 1;
    }
  }

  /** The groups of all the rows. */
  method Groups(p: Plot) returns (groups: seq<Group>, groupOf: map<Path, nat>)
    requires PathsDiffer(p.rows)
    ensures AllHeaded(p, groups, |p.rows|) && OnRecord(p, groups, groupOf, |p.rows|)
  {
    hide Together, FamilyOf, KeyOf, Headed;
    groups, groupOf := [], map[];
    for i := 0 to |p.rows|
      invariant AllHeaded(p, groups, i) && Distinguished(p, groups) && OnRecord(p, groups, groupOf, i)
    {
      var row := p.rows[i];
      if FamilyOf(p, row).None? {
        SkipRow(p, groups, groupOf, i);
      } else {
        var found := FindGroup(p, groups, i);
        if found == |groups| {
          NewGroup(p, groups, groupOf, i);
          groups := groups + [Group(FamilyOf(p, row).value, ParentOf(row.path), KeyOf(p, row), [i])];
          groupOf := groupOf[row.path := |groups| - 1];
        } else {
          MembersAreRows(p, groups[found], i);
          if exists m :: m in groups[found].members && p.rows[m].variable == row.variable {
            NoMember(p, groups[found], i);
            SkipRow(p, groups, groupOf, i);
          } else {
            JoinsAsMember(p, groups[found], i);
            JoinGroup(p, groups, groupOf, i, found);
            groups := groups[found := groups[found].(members := groups[found].members + [i])];
            groupOf := groupOf[row.path := found];
          }
        }
      }
    }
  }

  lemma MembersAreRows(p: Plot, g: Group, i: nat)
    requires Headed(p, g, i) && i <= |p.rows|
    ensures forall m :: m in g.members ==> m < i
    ensures g.members != [] && Head(g) == g.members[0]
  {
    forall m | m in g.members
      ensures m < i
    {
      ClassHolds(p, g.members[0], i, m);
    }
  }

  lemma NoMember(p: Plot, g: Group, i: nat)
    requires Headed(p, g, i) && i < |p.rows| && Together(p, g.members[0], i)
    requires exists m :: m in g.members && m < |p.rows| && p.rows[m].variable == p.rows[i].variable
    ensures !Member(p, i)
  {
    var m :| m in g.members && m < |p.rows| && p.rows[m].variable == p.rows[i].variable;
    ClassHolds(p, g.members[0], i, m);
    TogetherIsAnEquivalence(p, m, g.members[0], i);
  }

  /** What is shown where row `i` was. */
  method ShowRow(p: Plot, groups: seq<Group>, groupOf: map<Path, nat>, i: nat) returns (shown: seq<Shown>)
    requires AllHeaded(p, groups, |p.rows|) && OnRecord(p, groups, groupOf, |p.rows|) && i < |p.rows| && PathsDiffer(p.rows)
    ensures shown == Shows(p, i)
  {
    GroupIsClass(p, groups, groupOf, i);
    hide Together, FamilyOf, KeyOf, Headed, Class, Member, AllHeaded, OnRecord, PathsDiffer;
    var path := p.rows[i].path;
    if path !in groupOf || |groups[groupOf[path]].members| < 2 {
      return [Alone(i)];
    }
    var group := groups[groupOf[path]];
    if group.members[0] == i {
      return [Fold(group.family, group.members)];
    }
    shown := [];
  }

  /** The rows shown: each alone, or in its fold, which stands where its first member did. */
  method FoldRows(p: Plot) returns (out: seq<Shown>)
    requires PathsDiffer(p.rows)
    ensures out == Folded(p, |p.rows|)
  {
    hide Shows, AllHeaded, OnRecord, PathsDiffer;
    var groups, groupOf := Groups(p);
    out := [];
    for i := 0 to |p.rows|
      invariant out == Folded(p, i)
    {
      var shown := ShowRow(p, groups, groupOf, i);
      out := out + shown;
    }
  }

  lemma OnRecordIff(p: Plot, groups: seq<Group>, groupOf: map<Path, nat>, i: nat)
    requires OnRecord(p, groups, groupOf, |p.rows|) && i < |p.rows| && PathsDiffer(p.rows)
    ensures p.rows[i].path in groupOf <==> Member(p, i)
    ensures Member(p, i) ==> Recorded(p, groups, groupOf, i)
  {
    hide Together, Member;
    if p.rows[i].path in groupOf {
      var j: nat :| j < |p.rows| && Member(p, j) && p.rows[j].path == p.rows[i].path;
      assert j == i;
    }
  }

  /** What is on record for a row is its class. */
  lemma GroupIsClass(p: Plot, groups: seq<Group>, groupOf: map<Path, nat>, i: nat)
    requires AllHeaded(p, groups, |p.rows|) && OnRecord(p, groups, groupOf, |p.rows|) && i < |p.rows| && PathsDiffer(p.rows)
    ensures p.rows[i].path in groupOf <==> Member(p, i)
    ensures Member(p, i) ==>
              && groupOf[p.rows[i].path] < |groups|
              && var g := groups[groupOf[p.rows[i].path]];
                 g.members == Class(p, i, |p.rows|) && FamilyOf(p, p.rows[i]) == Some(g.family)
  {
    OnRecordIff(p, groups, groupOf, i);
    hide Member, OnRecord, PathsDiffer, Class, KeyOf;
    if Member(p, i) {
      var g := groups[groupOf[p.rows[i].path]];
      assert Headed(p, g, |p.rows|);
      ClassIsShared(p, Head(g), i, |p.rows|);
    }
  }

  // ----- what a reader is promised ----------------------------------------------------------------------

  /** The rows a shown line stands for. */
  function RowsOf(s: Shown): seq<nat>
  {
    match s
    case Alone(i) => [i]
    case Fold(_, members) => members
  }

  /** How many of the shown lines stand for row `i`, counted once for each time. */
  function Times(out: seq<Shown>, i: nat): nat
  {
    if out == [] then 0 else multiset(RowsOf(out[|out| - 1]))[i] + Times(out[..|out| - 1], i)
  }

  lemma {:induction false} TimesBeside(a: seq<Shown>, b: seq<Shown>, i: nat)
    ensures Times(a + b, i) == Times(a, i) + Times(b, i)
  {
    if b == [] {
      assert a + b == a;
    } else {
      assert (a + b)[..|a + b| - 1] == a + b[..|b| - 1];
      TimesBeside(a, b[..|b| - 1], i);
    }
  }

  /** The row at which row `i` is shown: its own, or the first of its fold. */
  function ShownAt(p: Plot, i: nat): nat
    requires i < |p.rows|
  {
    var c := Class(p, i, |p.rows|);
    if !Member(p, i) || |c| < 2 then i else c[0]
  }

  lemma MemberIsWithItself(p: Plot, i: nat)
    ensures Member(p, i) ==> Together(p, i, i)
  {
    TogetherIsAnEquivalence(p, i, i, i);
  }

  /** What is shown for one row stands for `i` once where `i` is shown, and nowhere else. */
  lemma ShowsOnce(p: Plot, k: nat, i: nat)
    requires k < |p.rows| && i < |p.rows|
    ensures Times(Shows(p, k), i) == if ShownAt(p, i) == k then 1 else 0
  {
    hide Together, Member, FamilyOf, Class;
    var n := |p.rows|;
    var ci, ck := Class(p, i, n), Class(p, k, n);
    MemberIsWithItself(p, i);
    MemberIsWithItself(p, k);
    ClassHolds(p, i, n, i);
    ClassHolds(p, k, n, i);
    ClassHolds(p, k, n, k);
    ClassIncreases(p, k, n);
    ClassIncreases(p, i, n);
    if Together(p, i, k) {
      ClassIsShared(p, i, k, n);
    }
    if |ci| > 0 {
      ClassHolds(p, i, n, ci[0]);
      TogetherIsAnEquivalence(p, ci[0], i, ci[0]);
    }
    OnceAt(ck, i);
    var s := Shows(p, k);
    if s != [] {
      assert s == [s[0]] && s[..0] == [];
      assert Times(s, i) == multiset(RowsOf(s[0]))[i];
    }
  }

  /** A number is at most once in a list that increases. */
  lemma {:induction false} OnceAt(s: seq<nat>, i: nat)
    requires forall a, b :: 0 <= a < b < |s| ==> s[a] < s[b]
    ensures multiset(s)[i] == if i in s then 1 else 0
  {
    if s != [] {
      var rest := s[..|s| - 1];
      assert s == rest + [s[|s| - 1]];
      OnceAt(rest, i);
    }
  }

  lemma TimesOfNone(i: nat)
    ensures Times([], i) == 0
  {}

  /** A partition: each row is shown once, alone or in one fold, where the first of its fold stood. */
  lemma {:induction false} EachRowOnce(p: Plot, n: nat, i: nat)
    requires n <= |p.rows| && i < |p.rows|
    ensures Times(Folded(p, n), i) == if ShownAt(p, i) < n then 1 else 0
  {
    hide Shows, ShownAt, Times;
    if n == 0 {
      assert Times([], i) == 0 by { TimesOfNone(i); }
    } else {
      EachRowOnce(p, n - 1, i);
      ShowsOnce(p, n - 1, i);
      TimesBeside(Folded(p, n - 1), Shows(p, n - 1), i);
    }
  }

  /** A fold is two or more elements of one array, children of one node, each once, all of one criterion. */
  ghost predicate IsFold(p: Plot, family: string, members: seq<nat>)
  {
    && |members| >= 2
    && (forall a, b :: 0 <= a < b < |members| ==> members[a] < members[b] < |p.rows|)
    && (forall a, b :: 0 <= a < |members| && 0 <= b < |members| ==>
          members[a] < |p.rows| && FamilyOf(p, p.rows[members[a]]) == Some(family) && Together(p, members[a], members[b]))
    && (forall a, b :: 0 <= a < b < |members| ==> members[b] < |p.rows| && p.rows[members[a]].variable != p.rows[members[b]].variable)
  }

  lemma ShowsFold(p: Plot, k: nat)
    requires k < |p.rows| && Shows(p, k) != [] && Shows(p, k)[0].Fold?
    ensures IsFold(p, Shows(p, k)[0].family, Shows(p, k)[0].members) && Shows(p, k)[0].members[0] == k
  {
    hide Class, CriterionOf, Json.Equal, ParentOf;
    var c := Class(p, k, |p.rows|);
    ClassIncreases(p, k, |p.rows|);
    forall a, b | 0 <= a < |c| && 0 <= b < |c|
      ensures c[a] < |p.rows| && FamilyOf(p, p.rows[c[a]]) == FamilyOf(p, p.rows[k]) && Together(p, c[a], c[b]) && Member(p, c[b])
    {
      ClassHolds(p, k, |p.rows|, c[a]);
      ClassHolds(p, k, |p.rows|, c[b]);
      TogetherIsAnEquivalence(p, c[b], k, c[b]);
      TogetherIsAnEquivalence(p, c[a], k, c[b]);
    }
  }

  /** Every fold shown is one, and the lines stand in the order of the rows they stand for first. */
  ghost predicate InLine(p: Plot, out: seq<Shown>, n: nat)
  {
    && (forall k :: 0 <= k < |out| && out[k].Fold? ==> IsFold(p, out[k].family, out[k].members))
    && (forall k :: 0 <= k < |out| ==> RowsOf(out[k]) != [] && RowsOf(out[k])[0] < n)
    && (forall k, l :: 0 <= k < l < |out| ==> RowsOf(out[k])[0] < RowsOf(out[l])[0])
  }

  lemma {:induction false} FoldsAreFolds(p: Plot, n: nat)
    requires n <= |p.rows|
    ensures InLine(p, Folded(p, n), n)
  {
    hide IsFold, Class, Member, Shows, RowsOf;
    if n > 0 {
      FoldsAreFolds(p, n - 1);
      ShowsLine(p, n - 1);
      OneMoreLine(p, Folded(p, n - 1), Shows(p, n - 1), n - 1);
    }
  }

  lemma ShowsLine(p: Plot, k: nat)
    requires k < |p.rows|
    ensures var shows := Shows(p, k);
      && |shows| <= 1
      && (shows != [] ==> RowsOf(shows[0]) != [] && RowsOf(shows[0])[0] == k && (shows[0].Fold? ==> IsFold(p, shows[0].family, shows[0].members)))
  {
    if Shows(p, k) != [] && Shows(p, k)[0].Fold? {
      hide IsFold;
      ShowsFold(p, k);
    }
  }

  lemma OneMoreLine(p: Plot, out: seq<Shown>, shows: seq<Shown>, n: nat)
    requires InLine(p, out, n) && |shows| <= 1
    requires shows != [] ==> RowsOf(shows[0]) != [] && RowsOf(shows[0])[0] == n && (shows[0].Fold? ==> IsFold(p, shows[0].family, shows[0].members))
    ensures InLine(p, out + shows, n + 1)
  {
    hide IsFold, RowsOf;
  }

  /** Two rows that belong together, on different variables and each the first there, are in one fold. */
  lemma TogetherFold(p: Plot, i: nat, j: nat)
    requires i < j < |p.rows| && Member(p, i) && Member(p, j) && Together(p, i, j)
    ensures ShownAt(p, i) == ShownAt(p, j) && i in Class(p, i, |p.rows|) && j in Class(p, i, |p.rows|) && |Class(p, i, |p.rows|)| >= 2
  {
    var n := |p.rows|;
    TogetherIsAnEquivalence(p, i, j, i);
    TogetherIsAnEquivalence(p, i, i, i);
    ClassHolds(p, i, n, i);
    ClassHolds(p, i, n, j);
    ClassIsShared(p, i, j, n);
    var a :| 0 <= a < |Class(p, i, n)| && Class(p, i, n)[a] == i;
    var b :| 0 <= b < |Class(p, i, n)| && Class(p, i, n)[b] == j;
    assert a != b;
  }
}
