/**
 * An Indices text changed and put back: when the tree is then what it was.
 *
 * Either edit may take a leaf beside the fold for one of its elements, or be
 * refused because of one.  Counting the children shows that nothing else spoils it.
 */
module PutBack {
  import opened Common
  import opened Reindex
  import opened ReindexTheorems
  import Json

  // ----- the names of a group ------------------------------------------------------------------------------

  function Variables(group: seq<Child>): (r: seq<string>)
    requires forall k :: 0 <= k < |group| ==> group[k].Leaf?
    ensures |r| == |group| && forall k :: 0 <= k < |group| ==> r[k] == group[k].variable
  {
    if group == [] then [] else [group[0].variable] + Variables(group[1..])
  }

  /** Two lists of names, each by its index, that hold the same names are one list. */
  lemma {:induction false} SortedIsUnique(p: Parent, a: seq<string>, b: seq<string>)
    requires forall i, j :: 0 <= i < j < |a| ==> Less(p.index(a[i]), p.index(a[j]))
    requires forall i, j :: 0 <= i < j < |b| ==> Less(p.index(b[i]), p.index(b[j]))
    requires forall n :: n in a <==> n in b
    ensures a == b
  {
    assert a != [] ==> a[0] in b;
    assert b != [] ==> b[0] in a;
    if a != [] {
      assert a[0] in b;
      assert b[0] in a;
      var i :| 0 <= i < |a| && a[i] == b[0];
      var j :| 0 <= j < |b| && b[j] == a[0];
      assert a[0] == b[0];
      forall n
        ensures n in a[1..] <==> n in b[1..]
      {
        assert a == [a[0]] + a[1..] && b == [b[0]] + b[1..];
        assert n in a <==> n in b;
      }
      SortedIsUnique(p, a[1..], b[1..]);
    }
  }

  lemma NamesStand(p: Parent, group: seq<Child>, after: seq<Child>, names: seq<string>)
    requires group != [] && group[0].Leaf? && Stands(p, group, after, names)
    ensures forall k :: 0 <= k < |after| ==> after[k].Leaf?
    ensures forall n :: n in Variables(after) <==> n in names
  {
    forall n
      ensures n in Variables(after) <==> n in names
    {
      if n in Variables(after) {
        var k :| 0 <= k < |after| && Variables(after)[k] == n;
        assert after[k].variable == n;
        assert Leafed(after, n);
      }
      if n in names {
        var k :| 0 <= k < |after| && after[k].Leaf? && after[k].variable == n;
        assert Variables(after)[k] == n;
      }
    }
  }

  /** What stands after an edit can be edited again. */
  lemma StandsTogether(p: Parent, p': Parent, left: seq<Child>, group: seq<Child>, after: seq<Child>, right: seq<Child>, names: seq<string>)
    requires Together(p, left, group, right) && Stands(p, group, after, names) && after != []
    requires p' == Parent(left + after + right, p.index)
    ensures Together(p', left, after, right) && Metric(after[0].fields) == Metric(group[0].fields)
  {}

  lemma SomeStand(p: Parent, group: seq<Child>, after: seq<Child>, names: seq<string>)
    requires group != [] && group[0].Leaf? && Stands(p, group, after, names) && names != []
    ensures after != []
  {
    assert Leafed(after, names[0]);
  }

  lemma HeldIsOneArray(p: Parent, p': Parent, left: seq<Child>, group: seq<Child>, right: seq<Child>)
    requires Together(p, left, group, right) && p'.index == p.index
    ensures OneArray(p', Variables(group))
  {}

  lemma SameVariables(p': Parent, left: seq<Child>, group: seq<Child>, right: seq<Child>, p: Parent, after: seq<Child>, back: seq<Child>)
    requires Together(p, left, group, right) && p'.index == p.index
    requires after != [] && after[0].Leaf? && Stands(p', after, back, Variables(group))
    ensures (forall k :: 0 <= k < |back| ==> back[k].Leaf?) && Variables(back) == Variables(group)
  {
    NamesStand(p', after, back, Variables(group));
    SortedIsUnique(p', Variables(back), Variables(group));
  }

  lemma LeafedIs(group: seq<Child>, name: string)
    requires forall k :: 0 <= k < |group| ==> group[k].Leaf?
    ensures Leafed(group, name) <==> name in Variables(group)
  {
    if Leafed(group, name) {
      var k :| 0 <= k < |group| && group[k].Leaf? && group[k].variable == name;
      assert Variables(group)[k] == name;
    }
    if name in Variables(group) {
      var k :| 0 <= k < |group| && Variables(group)[k] == name;
      assert group[k].variable == name;
    }
  }

  // ----- an edit of a fold with no rivals beside it -----------------------------------------------------------

  lemma {:induction false} PlacesOfBlock(s: State, l: nat, r: nat, n: nat)
    requires Block(s, l, r) && n <= |s.order|
    ensures PlacesOf(s, n) == Range(l, if n <= l then 0 else if n <= |s.order| - r then n - l else |s.order| - r - l)
  {
    if n > 0 {
      PlacesOfBlock(s, l, r, n - 1);
      assert s.order[n - 1] in s.members <==> l <= n - 1 < |s.order| - r;
    }
  }

  /** It is made, and gives a fold that stands together where the other stood. */
  lemma EditedStands(p: Parent, left: seq<Child>, group: seq<Child>, right: seq<Child>, names: seq<string>) returns (after: seq<Child>)
    requires Together(p, left, group, right) && OneArray(p, names)
    requires NoRivals(left, group, names) && NoRivals(right, group, names)
    ensures Edited(Fold(p, Range(|left|, |group|)), names) == Some(Fold(Parent(left + after + right, p.index), Range(|left|, |after|)))
    ensures Stands(p, group, after, names)
  {
    hide *;
    var places := Range(|left|, |group|);
    TogetherStarts(p, left, group, right, names);
    FinalIsBlock(p, left, group, right, names);
    after := EditStands(p, left, group, right, names);
    PlacesTogether(p, left, group, right);
    var s := Final(p, places, names);
    PlacesOfBlock(s, |left|, |right|, |s.order|);
    EditedIs(p, places, names, left + after + right, Range(|left|, |after|));
  }

  lemma EditedIs(p: Parent, places: seq<nat>, names: seq<string>, children: seq<Child>, after: seq<nat>)
    requires IsAFold(p, places) && Started(p, places, names).taken == []
    requires children == Realised(p, p.children[places[0]], Final(p, places, names).order)
    requires after == PlacesOf(Final(p, places, names), |Final(p, places, names).order|)
    ensures Edited(Fold(p, places), names) == Some(Fold(Parent(children, p.index), after))
  {}

  // ----- how many children an edit leaves ------------------------------------------------------------------------

  function Set(names: seq<string>): set<string>
  {
    set n | n in names
  }

  lemma {:induction false} SetCount(names: seq<string>)
    requires forall i, j :: 0 <= i < j < |names| ==> names[i] != names[j]
    ensures |Set(names)| == |names|
  {
    if names != [] {
      SetCount(names[1..]);
      assert names == [names[0]] + names[1..];
      assert Set(names) == Set(names[1..]) + {names[0]};
    }
  }

  lemma {:induction false} ValuesCount(m: map<nat, string>)
    requires OneEach(m)
    ensures |m.Values| == |m|
    decreases |m|
  {
    if m != map[] {
      var k :| k in m;
      var rest := m - {k};
      ValuesCount(rest);
      assert m == rest[k := m[k]];
      assert m.Values == rest.Values + {m[k]};
    }
  }

  /** The members from `from` on that an edit removes. */
  function Dropped(n: nat, from: nat, member: map<nat, string>, wanted: seq<string>): set<nat>
  {
    set at | at in member && from <= at < n && member[at] !in wanted
  }

  lemma {:induction false} StayCount(n: nat, from: nat, member: map<nat, string>, wanted: seq<string>)
    requires from <= n
    ensures |Stay(n, from, member, wanted)| + |Dropped(n, from, member, wanted)| == n - from
    decreases n - from
  {
    if from == n {
      assert Dropped(n, from, member, wanted) == {};
    } else {
      StayCount(n, from + 1, member, wanted);
      var rest := Dropped(n, from + 1, member, wanted);
      assert Dropped(n, from, member, wanted) == if from in member && member[from] !in wanted then rest + {from} else rest;
    }
  }

  lemma KeptCount(p: Parent, a: Adopted, wanted: seq<string>)
    requires OneEach(a.member) && forall at :: at in a.member ==> at < |p.children|
    ensures var start := Kept(p, a, wanted);
      |start.order| + |a.member| == |p.children| + |start.members.Values|
  {
    var n, gone := |p.children|, Dropped(|p.children|, 0, a.member, wanted);
    StayCount(n, 0, a.member, wanted);
    var stays := Staying(a.member, wanted);
    assert a.member.Keys == gone + stays.Keys;
    ValuesCount(stays);
    StayingValues(a.member, wanted);
  }

  function Staying(member: map<nat, string>, wanted: seq<string>): map<nat, string>
  {
    map at | at in member && member[at] in wanted :: member[at]
  }

  lemma StayingValues(member: map<nat, string>, wanted: seq<string>)
    ensures Staying(member, wanted).Values == Remaining(member, wanted).Values
  {
    var stays, members := Staying(member, wanted), Remaining(member, wanted);
    forall v
      ensures v in stays.Values <==> v in members.Values
    {
      if v in stays.Values {
        var at :| at in stays && stays[at] == v;
        assert members[Old(at)] == v;
      }
      if v in members.Values {
        var t :| t in members && members[t] == v;
        assert stays[t.at] == v;
      }
    }
  }

  lemma {:induction false} AddAllCount(p: Parent, s: State, names: seq<string>, where: nat)
    ensures |AddAll(p, s, names, where).order| == |s.order| + |names|
  {
    if names != [] {
      AddAllCount(p, s, names[..|names| - 1], where);
    }
  }

  /** Each leaf beside the fold that the edit takes makes the list it leaves one child shorter. */
  lemma FinalCount(p: Parent, places: seq<nat>, names: seq<string>)
    requires IsAFold(p, places) && OneEach(MembersAt(p, places))
    ensures |Final(p, places, names).order| + |Started(p, places, names).member| == |p.children| + |Set(names)|
  {
    hide *;
    var a, wanted := Started(p, places, names), Dedup(names);
    StartedOneEach(p, places, names);
    StartedPlaces(p, places, names);
    BeforeTheAdds(p, places, names);
    var start := Kept(p, a, wanted);
    var added := SortBy(p.index, Unheld(wanted, start.members.Values));
    KeptCount(p, a, wanted);
    AddAllCount(p, start, added, Lowest(a.member.Keys, 0, |p.children|));
    NamesCount(start, added, names);
  }

  lemma StartedPlaces(p: Parent, places: seq<nat>, names: seq<string>)
    requires IsAFold(p, places)
    ensures forall at :: at in Started(p, places, names).member ==> at < |p.children|
  {
    StartedHolds(p, places, names);
  }

  lemma NamesCount(start: State, added: seq<string>, names: seq<string>)
    requires Addable(start, added, names) && forall n :: n in names ==> n in start.members.Values || n in added
    ensures |Set(names)| == |start.members.Values| + |added|
  {
    SetCount(added);
    assert Set(names) == start.members.Values + Set(added);
    assert start.members.Values !! Set(added);
  }

  // ----- what is taken beside the fold ---------------------------------------------------------------------------

  lemma {:induction false} AdoptGrows(p: Parent, template: Child, a: Adopted, names: seq<string>)
    requires template.Leaf?
    ensures var r := AdoptAll(p, template, a, names);
      && |r.member| >= |a.member| && |r.taken| >= |a.taken|
      && (r == a || |r.member| + |r.taken| > |a.member| + |a.taken|)
  {
    if names != [] {
      AdoptGrows(p, template, a, names[..|names| - 1]);
      var mid, last := AdoptAll(p, template, a, names[..|names| - 1]), names[|names| - 1];
      hide AdoptAll;
      AdoptOneGrows(p, template, mid, last);
    }
  }

  lemma AdoptOneGrows(p: Parent, template: Child, a: Adopted, name: string)
    requires template.Leaf?
    ensures var r := AdoptOne(p, template, a, name);
      && |r.member| >= |a.member| && |r.taken| >= |a.taken|
      && (if Free(p, template, a.member, name) then r == a else |r.member| + |r.taken| > |a.member| + |a.taken|)
  {
    var rival := FirstRival(p.children, a.member, template, name, 0);
    if rival.Some? {
      var more := a.member[rival.value := name];
      assert more.Keys == a.member.Keys + {rival.value};
    }
  }

  /** A name that is not free is seen. */
  lemma {:induction false} AdoptSees(p: Parent, template: Child, a: Adopted, names: seq<string>, name: string)
    requires template.Leaf? && name in names && !Free(p, template, a.member, name)
    ensures AdoptAll(p, template, a, names) != a
  {
    var rest, last := names[..|names| - 1], names[|names| - 1];
    assert names == rest + [last];
    var mid := AdoptAll(p, template, a, rest);
    AdoptGrows(p, template, a, rest);
    AdoptOneGrows(p, template, mid, last);
    if name in rest {
      AdoptSees(p, template, a, rest, name);
    }
  }

  /** An edit that is made and takes no leaf for its own found every name it looked for free. */
  lemma NothingTaken(p: Parent, places: seq<nat>, names: seq<string>, name: string)
    requires IsAFold(p, places) && Started(p, places, names).taken == []
    requires |Started(p, places, names).member| <= |MembersAt(p, places)|
    requires name in names && name !in MembersAt(p, places).Values
    ensures Free(p, p.children[places[0]], MembersAt(p, places), name)
  {
    var first := MembersAt(p, places);
    var a, missing := Adopted.Adopted(first, []), Unheld(Dedup(names), first.Values);
    DedupHolds(names);
    UnheldHolds(Dedup(names), first.Values);
    hide MembersAt, Dedup, Unheld, AdoptAll, Free;
    AdoptGrows(p, p.children[places[0]], a, missing);
    if !Free(p, p.children[places[0]], first, name) {
      AdoptSees(p, p.children[places[0]], a, missing, name);
    }
  }

  lemma FreeBeside(p: Parent, left: seq<Child>, group: seq<Child>, right: seq<Child>, member: map<nat, string>, name: string)
    requires group != [] && group[0].Leaf? && p.children == left + group + right && Fills(member, |left|, |left| + |group|)
    requires Free(p, group[0], member, name)
    ensures Unrivalled(left, group[0], name) && Unrivalled(right, group[0], name)
  {
    forall k | 0 <= k < |left|
      ensures !Rivals(left[k], group[0], name)
    {
      assert p.children[k] == left[k];
    }
    forall k | 0 <= k < |right|
      ensures !Rivals(right[k], group[0], name)
    {
      assert p.children[|left| + |group| + k] == right[k];
    }
  }

  lemma NoneBeside(p: Parent, left: seq<Child>, group: seq<Child>, right: seq<Child>, names: seq<string>)
    requires Together(p, left, group, right) && IsAFold(p, Range(|left|, |group|))
    requires Started(p, Range(|left|, |group|), names).taken == []
    requires |Started(p, Range(|left|, |group|), names).member| <= |MembersAt(p, Range(|left|, |group|))|
    ensures NoRivals(left, group, names) && NoRivals(right, group, names)
  {
    var places := Range(|left|, |group|);
    TogetherInOrder(p, left, group, right, names);
    PlacesTogether(p, left, group, right);
    TogetherSizes(p, left, group, right);
    hide Range, MembersAt, Started, Leafed, Unrivalled, Free, Fills;
    forall n | n in names && !Leafed(group, n)
      ensures Unrivalled(left, group[0], n) && Unrivalled(right, group[0], n)
    {
      HeldByGroup(p, left, group, right, n);
      NothingTaken(p, places, names, n);
      FreeBeside(p, left, group, right, MembersAt(p, places), n);
    }
  }

  // ----- the fold an edit leaves ------------------------------------------------------------------------------------

  /** It holds the names asked for, each once. */
  lemma EditedHolds(f: Fold, names: seq<string>)
    requires Edited(f, names).Some? && IsAFold(f.parent, f.places) && OneEach(MembersAt(f.parent, f.places)) && names != []
    ensures var g := Edited(f, names).value;
      && IsAFold(g.parent, g.places) && OneEach(MembersAt(g.parent, g.places))
      && MembersAt(g.parent, g.places).Values == Set(names)
  {
    hide *;
    var s, g := Final(f.parent, f.places, names), Edited(f, names).value;
    FinalHolds(f, names);
    EditedPlaces(f, names);
    SetHas(names, 0);
    MembersByPlace(s, g);
  }

  lemma SetHas(names: seq<string>, k: nat)
    requires k < |names|
    ensures names[k] in Set(names)
  {}

  lemma IsSet(names: seq<string>, values: set<string>)
    requires forall n :: n in values <==> n in names
    ensures values == Set(names)
  {}

  lemma FinalHolds(f: Fold, names: seq<string>)
    requires Edited(f, names).Some? && IsAFold(f.parent, f.places) && OneEach(MembersAt(f.parent, f.places))
    ensures var s := Final(f.parent, f.places, names); Sound(s) && Distinct(s) && s.members.Values == Set(names)
  {
    var s := Final(f.parent, f.places, names);
    hide *;
    HoldsTheNames(f.parent, f.places, names);
    HoldsEachOnce(f.parent, f.places, names);
    IsSet(names, s.members.Values);
  }

  lemma EditedPlaces(f: Fold, names: seq<string>)
    requires Edited(f, names).Some? && IsAFold(f.parent, f.places)
    ensures PlacesOfMembers(Final(f.parent, f.places, names), Edited(f, names).value)
  {
    var s, g := Final(f.parent, f.places, names), Edited(f, names).value;
    assert g.places == PlacesOf(s, |s.order|) && g.parent.children == Realised(f.parent, f.parent.children[f.places[0]], s.order);
    assert |g.parent.children| == |s.order|;
    hide *;
    HoldsTheNames(f.parent, f.places, names);
    forall k | k in g.places
      ensures k < |s.order| && s.order[k] in s.members && IsLeafOf(s, g, k)
    {
      PlacesName(s, |s.order|, k);
      MemberStands(f.parent, f.places, names, k);
      IsLeafThere(s, g, k);
    }
    forall t | t in s.members
      ensures Placed(s, g, t)
    {
      var k := StandsSomewhere(s, t);
      PlacesName(s, |s.order|, k);
      PlacedThere(s, g, t, k);
    }
    PlacedAll(s, g);
  }

  lemma IsLeafThere(s: State, g: Fold, k: nat)
    requires k < |s.order| && k < |g.parent.children| && s.order[k] in s.members
    requires g.parent.children[k].Leaf? && g.parent.children[k].variable == s.members[s.order[k]]
    ensures IsLeafOf(s, g, k)
  {}

  lemma StandsSomewhere(s: State, t: Token) returns (k: nat)
    requires Sound(s) && t in s.members
    ensures k < |s.order| && s.order[k] == t
  {
    k :| 0 <= k < |s.order| && s.order[k] == t;
  }

  lemma PlacedThere(s: State, g: Fold, t: Token, k: nat)
    requires k in g.places && k < |s.order| && s.order[k] == t
    ensures Placed(s, g, t)
  {}

  lemma PlacedAll(s: State, g: Fold)
    requires forall k :: k in g.places ==> k < |s.order| && s.order[k] in s.members && IsLeafOf(s, g, k)
    requires forall t :: t in s.members ==> Placed(s, g, t)
    ensures PlacesOfMembers(s, g)
  {}

  /** The places of `g` are those of the state's members, and their leaves are on the members' variables. */
  ghost predicate PlacesOfMembers(s: State, g: Fold)
  {
    && (forall k :: k in g.places ==> k < |s.order| && s.order[k] in s.members)
    && (forall k :: k in g.places ==> k < |s.order| && IsLeafOf(s, g, k))
    && (forall t :: t in s.members ==> Placed(s, g, t))
  }

  predicate IsLeafOf(s: State, g: Fold, k: nat)
    requires k < |s.order|
  {
    k < |g.parent.children| && s.order[k] in s.members && g.parent.children[k].Leaf? && g.parent.children[k].variable == s.members[s.order[k]]
  }

  predicate Placed(s: State, g: Fold, t: Token)
  {
    exists k: nat :: k in g.places && k < |s.order| && s.order[k] == t
  }

  lemma MembersByPlace(s: State, g: Fold)
    requires Sound(s) && Distinct(s) && s.members.Values != {} && PlacesOfMembers(s, g)
    ensures IsAFold(g.parent, g.places) && OneEach(MembersAt(g.parent, g.places))
    ensures MembersAt(g.parent, g.places).Values == s.members.Values
  {
    SomePlace(s, g);
    var member := MembersAt(g.parent, g.places);
    forall n
      ensures n in member.Values <==> n in s.members.Values
    {
      if n in s.members.Values {
        NamePlaced(s, g, n);
      }
    }
    hide Sound, IsAFold;
    forall x, y | x in member && y in member && member[x] == member[y]
      ensures x == y
    {
      assert IsLeafOf(s, g, x) && IsLeafOf(s, g, y);
      OncePlaced(s, x, y);
    }
  }

  lemma OncePlaced(s: State, x: nat, y: nat)
    requires Sound(s) && Distinct(s) && x < |s.order| && y < |s.order| && s.order[x] in s.members && s.order[y] in s.members
    requires s.members[s.order[x]] == s.members[s.order[y]]
    ensures x == y
  {}

  lemma SomePlace(s: State, g: Fold)
    requires s.members.Values != {} && PlacesOfMembers(s, g)
    ensures IsAFold(g.parent, g.places)
  {
    var v :| v in s.members.Values;
    var t :| t in s.members && s.members[t] == v;
    assert Placed(s, g, t);
    forall j | 0 <= j < |g.places|
      ensures g.places[j] < |g.parent.children| && g.parent.children[g.places[j]].Leaf?
    {
      assert g.places[j] in g.places;
      assert IsLeafOf(s, g, g.places[j]);
    }
  }

  lemma NamePlaced(s: State, g: Fold, name: string)
    requires PlacesOfMembers(s, g) && IsAFold(g.parent, g.places) && name in s.members.Values
    ensures name in MembersAt(g.parent, g.places).Values
  {
    var t :| t in s.members && s.members[t] == name;
    assert Placed(s, g, t);
    var k: nat :| k in g.places && k < |s.order| && s.order[k] == t;
    assert IsLeafOf(s, g, k);
    assert MembersAt(g.parent, g.places)[k] == name;
  }

  // ----- put back ----------------------------------------------------------------------------------------------------

  /** The names asked for, and then the old ones: neither edit refused, the old elements in their places, all else as it was. */
  ghost predicate PutsBack(p: Parent, left: seq<Child>, group: seq<Child>, right: seq<Child>, names: seq<string>)
    requires Together(p, left, group, right)
  {
    var once := Edited(Fold(p, Range(|left|, |group|)), names);
    once.Some? &&
    var twice := Edited(once.value, Variables(group));
    twice.Some? && exists back :: twice.value.parent.children == left + back + right && SameNames(group, back)
  }

  /** Both edits are made, and the list is as long as it was. */
  ghost predicate KeepsCount(p: Parent, left: seq<Child>, group: seq<Child>, right: seq<Child>, names: seq<string>)
    requires Together(p, left, group, right)
  {
    var once := Edited(Fold(p, Range(|left|, |group|)), names);
    once.Some? &&
    var twice := Edited(once.value, Variables(group));
    twice.Some? && |twice.value.parent.children| == |p.children|
  }

  predicate SameNames(group: seq<Child>, back: seq<Child>)
    requires forall k :: 0 <= k < |group| ==> group[k].Leaf?
  {
    (forall k :: 0 <= k < |back| ==> back[k].Leaf?) && Variables(back) == Variables(group)
  }

  /** No leaf beside the fold has its metric on a name that only one of the two texts names. */
  ghost predicate NoneChanges(left: seq<Child>, group: seq<Child>, right: seq<Child>, names: seq<string>)
    requires group != [] && forall k :: 0 <= k < |group| ==> group[k].Leaf?
  {
    forall n :: (n in names) != (n in Variables(group)) ==> Unrivalled(left, group[0], n) && Unrivalled(right, group[0], n)
  }

  lemma GroupIsLeaves(p: Parent, left: seq<Child>, group: seq<Child>, right: seq<Child>)
    requires Together(p, left, group, right)
    ensures group != [] && group[0].Leaf? && forall k :: 0 <= k < |group| ==> group[k].Leaf?
  {}

  lemma MetricUnrivalled(others: seq<Child>, a: Child, b: Child, name: string)
    requires a.Leaf? && b.Leaf? && Metric(a.fields) == Metric(b.fields)
    ensures Unrivalled(others, a, name) <==> Unrivalled(others, b, name)
  {}

  /** Of a group and the group an edit leaves: what is free for the old names in the one is free in the other. */
  lemma RivalsAfter(group: seq<Child>, after: seq<Child>, others: seq<Child>, names: seq<string>)
    requires (forall k :: 0 <= k < |group| ==> group[k].Leaf?) && group != [] && after != [] && after[0].Leaf?
    requires Metric(after[0].fields) == Metric(group[0].fields) && Names(after, names)
    ensures NoRivals(others, after, Variables(group)) <==>
            forall n :: n in Variables(group) && n !in names ==> Unrivalled(others, group[0], n)
  {
    hide Leafed, Variables, Unrivalled;
    forall n
      ensures Unrivalled(others, after[0], n) <==> Unrivalled(others, group[0], n)
    {
      MetricUnrivalled(others, after[0], group[0], n);
    }
  }

  lemma RivalsBefore(group: seq<Child>, others: seq<Child>, names: seq<string>)
    requires group != [] && forall k :: 0 <= k < |group| ==> group[k].Leaf?
    ensures NoRivals(others, group, names) <==> forall n :: n in names && n !in Variables(group) ==> Unrivalled(others, group[0], n)
  {
    hide Leafed, Variables, Unrivalled;
    forall n
      ensures Leafed(group, n) <==> n in Variables(group)
    {
      LeafedIs(group, n);
    }
  }

  /** With none, both edits are made, and the old text puts the old elements back. */
  lemma BothStand(p: Parent, left: seq<Child>, group: seq<Child>, right: seq<Child>, names: seq<string>)
    returns (after: seq<Child>, back: seq<Child>)
    requires Together(p, left, group, right) && OneArray(p, names) && names != [] && NoneChanges(left, group, right, names)
    ensures after != [] && after[0].Leaf? && Stands(p, group, after, names)
    ensures var once := Fold(Parent(left + after + right, p.index), Range(|left|, |after|));
      && Edited(Fold(p, Range(|left|, |group|)), names) == Some(once)
      && Edited(once, Variables(group)) == Some(Fold(Parent(left + back + right, p.index), Range(|left|, |back|)))
      && Stands(once.parent, after, back, Variables(group))
    ensures SameNames(group, back)
  {
    GroupIsLeaves(p, left, group, right);
    RivalsBefore(group, left, names);
    RivalsBefore(group, right, names);
    HeldIsOneArray(p, p, left, group, right);
    hide Together, OneArray, Unrivalled, NoRivals, Edited, Variables, Stands, Range, Names;
    after := EditedStands(p, left, group, right, names);
    SomeStand(p, group, after, names);
    var p' := Parent(left + after + right, p.index);
    StandsTogether(p, p', left, group, after, right, names);
    GroupIsLeaves(p', left, after, right);
    StandsNames(p, group, after, names);
    NoneEither(group, after, left, right, names);
    HeldIsOneArray(p, p', left, group, right);
    back := EditedStands(p', left, after, right, Variables(group));
    SameVariables(p', left, group, right, p, after, back);
  }

  lemma PutBackHolds(p: Parent, left: seq<Child>, group: seq<Child>, right: seq<Child>, names: seq<string>)
    requires Together(p, left, group, right) && OneArray(p, names) && names != [] && NoneChanges(left, group, right, names)
    ensures PutsBack(p, left, group, right, names)
  {
    GroupIsLeaves(p, left, group, right);
    hide Together, OneArray, NoneChanges, Edited, Variables, Stands, Range, SameNames;
    var after, back := BothStand(p, left, group, right, names);
    var once := Fold(Parent(left + after + right, p.index), Range(|left|, |after|));
    assert Edited(once, Variables(group)).value.parent.children == left + back + right;
  }

  lemma StandsNames(p: Parent, group: seq<Child>, after: seq<Child>, names: seq<string>)
    requires group != [] && group[0].Leaf? && Stands(p, group, after, names)
    ensures Names(after, names)
  {}

  /** Both edits, counted. */
  lemma TwiceCount(f: Fold, names: seq<string>, held: seq<string>)
    requires names != [] && Edited(f, names).Some? && OneEach(MembersAt(f.parent, f.places))
    ensures var g := Edited(f, names).value;
      IsAFold(g.parent, g.places) && OneEach(MembersAt(g.parent, g.places)) && |MembersAt(g.parent, g.places)| == |Set(names)|
    ensures var g := Edited(f, names).value;
      Edited(g, held).Some? ==>
        |Edited(g, held).value.parent.children| + |Started(f.parent, f.places, names).member| + |Started(g.parent, g.places, held).member|
        == |f.parent.children| + |Set(names)| + |Set(held)|
  {
    EditedHolds(f, names);
    var g := Edited(f, names).value;
    FinalCount(f.parent, f.places, names);
    FinalCount(g.parent, g.places, held);
    ValuesCount(MembersAt(g.parent, g.places));
  }

  lemma StartedGrows(p: Parent, places: seq<nat>, names: seq<string>)
    requires IsAFold(p, places)
    ensures |Started(p, places, names).member| >= |MembersAt(p, places)|
  {
    var first := MembersAt(p, places);
    AdoptGrows(p, p.children[places[0]], Adopted.Adopted(first, []), Unheld(Dedup(names), first.Values));
  }

  lemma GroupOneEach(p: Parent, left: seq<Child>, group: seq<Child>, right: seq<Child>)
    requires Together(p, left, group, right) && IsAFold(p, Range(|left|, |group|))
    ensures var member := MembersAt(p, Range(|left|, |group|));
      OneEach(member) && |member| == |group| == |Set(Variables(group))|
  {
    PlacesTogether(p, left, group, right);
    VariablesDiffer(p, left, group, right);
    var member := MembersAt(p, Range(|left|, |group|));
    hide MembersAt, Range, Together, IsAFold;
    SetCount(Variables(group));
    AtPlaces(member, Variables(group), |left|);
    ValuesCount(member);
  }

  lemma VariablesDiffer(p: Parent, left: seq<Child>, group: seq<Child>, right: seq<Child>)
    requires Together(p, left, group, right)
    ensures forall i, j :: 0 <= i < j < |Variables(group)| ==> Variables(group)[i] != Variables(group)[j]
  {}

  lemma AtPlaces(member: map<nat, string>, names: seq<string>, l: nat)
    requires forall at :: at in member <==> l <= at < l + |names|
    requires forall k :: 0 <= k < |names| ==> member[l + k] == names[k]
    requires forall i, j :: 0 <= i < j < |names| ==> names[i] != names[j]
    ensures OneEach(member) && member.Values == Set(names)
  {
    forall at | at in member
      ensures member[at] == names[at - l]
    {
      assert member[l + (at - l)] == names[at - l];
    }
    forall n | n in names
      ensures n in member.Values
    {
      var k :| 0 <= k < |names| && names[k] == n;
      assert member[l + k] == n;
    }
  }

  /** Neither edit took a leaf beside the fold, if the list came back as long as it was. */
  lemma NoneTaken(p: Parent, left: seq<Child>, group: seq<Child>, right: seq<Child>, names: seq<string>)
    requires Together(p, left, group, right) && names != [] && KeepsCount(p, left, group, right, names)
    ensures var places := Range(|left|, |group|);
      && IsAFold(p, places) && |Started(p, places, names).member| <= |MembersAt(p, places)| && Started(p, places, names).taken == []
    ensures var g := Edited(Fold(p, Range(|left|, |group|)), names).value;
      && IsAFold(g.parent, g.places) && Started(g.parent, g.places, Variables(group)).taken == []
      && |Started(g.parent, g.places, Variables(group)).member| <= |MembersAt(g.parent, g.places)|
  {
    var places := Range(|left|, |group|);
    GroupIsLeaves(p, left, group, right);
    PlacesTogether(p, left, group, right);
    GroupOneEach(p, left, group, right);
    TogetherSizes(p, left, group, right);
    var f := Fold(p, places);
    var g := Edited(f, names).value;
    hide Together, Range, MembersAt, Started, Variables, Final, Realised, OneEach, Set;
    TwiceCount(f, names, Variables(group));
    StartedGrows(p, places, names);
    StartedGrows(g.parent, g.places, Variables(group));
  }

  /** And so none was there to take. */
  lemma PutBackNeeds(p: Parent, left: seq<Child>, group: seq<Child>, right: seq<Child>, names: seq<string>)
    requires Together(p, left, group, right) && OneArray(p, names) && names != [] && KeepsCount(p, left, group, right, names)
    ensures NoneChanges(left, group, right, names)
  {
    GroupIsLeaves(p, left, group, right);
    NoneTaken(p, left, group, right, names);
    hide *;
    NoneBeside(p, left, group, right, names);
    var after := EditedStands(p, left, group, right, names);
    SomeStand(p, group, after, names);
    var p' := Parent(left + after + right, p.index);
    StandsTogether(p, p', left, group, after, right, names);
    GroupIsLeaves(p', left, after, right);
    NoneBeside(p', left, after, right, Variables(group));
    StandsNames(p, group, after, names);
    NoneEither(group, after, left, right, names);
  }

  lemma NoneEither(group: seq<Child>, after: seq<Child>, left: seq<Child>, right: seq<Child>, names: seq<string>)
    requires (forall k :: 0 <= k < |group| ==> group[k].Leaf?) && group != [] && after != [] && after[0].Leaf?
    requires Metric(after[0].fields) == Metric(group[0].fields) && Names(after, names)
    ensures NoneChanges(left, group, right, names) <==>
            && NoRivals(left, group, names) && NoRivals(right, group, names)
            && NoRivals(left, after, Variables(group)) && NoRivals(right, after, Variables(group))
  {
    hide Unrivalled, NoRivals, Variables, Names;
    RivalsBefore(group, left, names);
    RivalsBefore(group, right, names);
    RivalsAfter(group, after, left, names);
    RivalsAfter(group, after, right, names);
  }

  lemma SomeValue(members: map<Token, string>, t: Token)
    requires t in members
    ensures members.Values != {}
  {
    assert members[t] in members.Values;
  }

  lemma {:induction false} NoPlaces(s: State, n: nat)
    requires s.members.Values == {} && n <= |s.order|
    ensures PlacesOf(s, n) == []
  {
    if n > 0 {
      NoPlaces(s, n - 1);
      var t := s.order[n - 1];
      if t in s.members {
        SomeValue(s.members, t);
      }
    }
  }

  /** A fold left empty is no fold any more. */
  lemma EmptiedIsNoFold(p: Parent, left: seq<Child>, group: seq<Child>, right: seq<Child>)
    requires Together(p, left, group, right)
    ensures !KeepsCount(p, left, group, right, [])
  {
    var f := Fold(p, Range(|left|, |group|));
    if Edited(f, []).Some? {
      hide Together, Range;
      var s := Final(f.parent, f.places, []);
      HoldsTheNames(f.parent, f.places, []);
      NoPlaces(s, |s.order|);
    }
  }

  lemma PutsBackKeepsCount(p: Parent, left: seq<Child>, group: seq<Child>, right: seq<Child>, names: seq<string>)
    requires Together(p, left, group, right) && PutsBack(p, left, group, right, names)
    ensures KeepsCount(p, left, group, right, names)
  {
    GroupIsLeaves(p, left, group, right);
    hide Edited, Range;
    var twice := Edited(Edited(Fold(p, Range(|left|, |group|)), names).value, Variables(group)).value;
    var back :| twice.parent.children == left + back + right && SameNames(group, back);
    assert |back| == |group|;
  }

  /**
   * An Indices text put back puts the same elements back in the same places
   * exactly when no leaf beside the fold has its metric on a name that only one
   * of the two texts names: and then, and only then, the list is as long as it
   * was.  What the leaves put back hold is another matter.
   */
  lemma PutBackIff(p: Parent, left: seq<Child>, group: seq<Child>, right: seq<Child>, names: seq<string>)
    requires Together(p, left, group, right) && OneArray(p, names)
    ensures PutsBack(p, left, group, right, names) <==> names != [] && NoneChanges(left, group, right, names)
    ensures PutsBack(p, left, group, right, names) <==> KeepsCount(p, left, group, right, names)
  {
    GroupIsLeaves(p, left, group, right);
    hide PutsBack, KeepsCount, NoneChanges, Together, OneArray;
    if PutsBack(p, left, group, right, names) {
      PutsBackKeepsCount(p, left, group, right, names);
    }
    if KeepsCount(p, left, group, right, names) {
      if names == [] {
        EmptiedIsNoFold(p, left, group, right);
      }
      PutBackNeeds(p, left, group, right, names);
    }
    if names != [] && NoneChanges(left, group, right, names) {
      PutBackHolds(p, left, group, right, names);
    }
  }

  // ----- put back, to the last field ---------------------------------------------------------------------------------

  /** The first name by index. */
  function Least(index: string -> Option<nat>, names: seq<string>): (r: string)
    requires names != []
    ensures r in names
  {
    if |names| == 1 then names[0]
    else
      var rest := Least(index, names[1..]);
      if Less(index(rest), index(names[0])) then rest else names[0]
  }

  lemma {:induction false} LeastIsFirst(p: Parent, names: seq<string>, n: string)
    requires OneArray(p, names) && n in names
    ensures n == Least(p.index, names) || Less(p.index(Least(p.index, names)), p.index(n))
  {
    assert names == [names[0]] + names[1..];
    if |names| > 1 {
      assert OneArray(p, names[1..]);
      var rest := Least(p.index, names[1..]);
      LeastIsFirst(p, names[1..], rest);
      assert rest in names;
      if n != names[0] {
        LeastIsFirst(p, names[1..], n);
      }
    }
  }

  /** What the group's leaf on a name holds; its first leaf's fields for a name it has not. */
  function FieldsOn(group: seq<Child>, name: string, other: map<string, Json.Value>): map<string, Json.Value>
  {
    if group == [] then other
    else if group[0].Leaf? && group[0].variable == name then group[0].fields
    else FieldsOn(group[1..], name, other)
  }

  /** What the first leaf holds once only `names` are asked for: every leaf added after that is a copy of it. */
  function FirstFields(p: Parent, group: seq<Child>, names: seq<string>): map<string, Json.Value>
    requires group != [] && group[0].Leaf? && names != []
  {
    FieldsOn(group, Least(p.index, names), group[0].fields)
  }

  lemma {:induction false} FieldsOnHeld(group: seq<Child>, k: nat, other: map<string, Json.Value>)
    requires k < |group| && group[k].Leaf?
    requires forall j :: 0 <= j < k ==> group[j].Leaf? && group[j].variable != group[k].variable
    ensures FieldsOn(group, group[k].variable, other) == group[k].fields
  {
    if k > 0 {
      FieldsOnHeld(group[1..], k - 1, other);
    }
  }

  lemma {:induction false} FieldsOnOther(group: seq<Child>, name: string, other: map<string, Json.Value>)
    requires !Leafed(group, name)
    ensures FieldsOn(group, name, other) == other
  {
    if group != [] {
      assert forall k :: 0 <= k < |group[1..]| ==> group[1..][k] == group[k + 1];
      FieldsOnOther(group[1..], name, other);
    }
  }

  /** The leaves are on different variables. */
  predicate Differ(group: seq<Child>)
  {
    && (forall k :: 0 <= k < |group| ==> group[k].Leaf?)
    && (forall i, j :: 0 <= i < j < |group| ==> group[i].variable != group[j].variable)
  }

  lemma TogetherDiffer(p: Parent, left: seq<Child>, group: seq<Child>, right: seq<Child>)
    requires Together(p, left, group, right)
    ensures Differ(group)
  {}

  /** The first leaf of the fold in between. */
  lemma FirstOfAfter(p: Parent, group: seq<Child>, after: seq<Child>, names: seq<string>)
    requires group != [] && Differ(group) && after != [] && names != []
    requires OneArray(p, names) && Stands(p, group, after, names)
    ensures after[0].Leaf? && after[0].fields == FirstFields(p, group, names)
  {
    var least := Least(p.index, names);
    FirstIsLeast(p, group, after, names);
    assert IsOwnOrNew(group, after[0]);
    hide Stands, Least, OneArray;
    if Leafed(group, least) {
      var k :| 0 <= k < |group| && group[k] == after[0];
      FieldsOnHeld(group, k, group[0].fields);
    } else {
      FieldsOnOther(group, least, group[0].fields);
    }
  }

  lemma FirstIsLeast(p: Parent, group: seq<Child>, after: seq<Child>, names: seq<string>)
    requires group != [] && group[0].Leaf? && after != [] && names != []
    requires OneArray(p, names) && Stands(p, group, after, names)
    ensures after[0].Leaf? && after[0].variable == Least(p.index, names)
  {
    var least := Least(p.index, names);
    assert IsOwnOrNew(group, after[0]);
    assert Leafed(after, least);
    var k :| 0 <= k < |after| && after[k].Leaf? && after[k].variable == least;
    assert Leafed(after, after[0].variable);
    LeastIsFirst(p, names, after[0].variable);
  }

  /** A leaf put back: the old one where it stayed, else a copy of the first of those that did. */
  lemma BackAt(group: seq<Child>, after: seq<Child>, back: seq<Child>, names: seq<string>, k: nat)
    requires group != [] && Differ(group) && after != [] && after[0].Leaf?
    requires EachOf(group, after) && Names(after, names) && EachOf(after, back) && SameNames(group, back)
    requires k < |group|
    ensures |back| == |group|
    ensures back[k] == if group[k].variable in names then group[k] else Leaf(group[k].variable, after[0].fields)
  {
    var name := group[k].variable;
    assert Variables(back)[k] == Variables(group)[k];
    assert IsOwnOrNew(after, back[k]) && back[k].variable == name;
    assert name in names <==> Leafed(after, name);
    assert Leafed(group, name);
    if name in names {
      var j :| 0 <= j < |after| && after[j] == back[k];
      assert IsOwnOrNew(group, after[j]);
      var i :| 0 <= i < |group| && group[i] == after[j];
      assert i == k;
    }
  }

  type Likeness = (map<string, Json.Value>, map<string, Json.Value>) -> bool

  predicate Identical(f: map<string, Json.Value>, g: map<string, Json.Value>) { f == g }

  predicate OneObject(f: map<string, Json.Value>, g: map<string, Json.Value>) { Json.Equal(Json.Obj(f), Json.Obj(g)) }

  predicate Alike(same: Likeness, a: Child, b: Child)
  {
    if a.Leaf? && b.Leaf? then a.variable == b.variable && same(a.fields, b.fields) else a == b
  }

  predicate AllAlike(same: Likeness, a: seq<Child>, b: seq<Child>)
  {
    |a| == |b| && forall k :: 0 <= k < |a| ==> Alike(same, a[k], b[k])
  }

  /** The tree is then what it was, for a reading of when two leaves hold the same. */
  ghost predicate PutsTreeBack(p: Parent, left: seq<Child>, group: seq<Child>, right: seq<Child>, names: seq<string>, same: Likeness)
    requires Together(p, left, group, right)
  {
    var once := Edited(Fold(p, Range(|left|, |group|)), names);
    once.Some? &&
    var twice := Edited(once.value, Variables(group));
    twice.Some? && AllAlike(same, twice.value.parent.children, p.children)
  }

  /** Every leaf that goes is like the one its copy is made of. */
  predicate Refits(p: Parent, group: seq<Child>, names: seq<string>, same: Likeness)
    requires group != [] && names != [] && forall k :: 0 <= k < |group| ==> group[k].Leaf?
  {
    forall k :: 0 <= k < |group| ==> group[k].variable in names || same(FirstFields(p, group, names), group[k].fields)
  }

  lemma BackIsGroupIff(p: Parent, group: seq<Child>, after: seq<Child>, back: seq<Child>, names: seq<string>, same: Likeness)
    requires group != [] && Differ(group) && after != [] && after[0].Leaf? && names != []
    requires OneArray(p, names) && Stands(p, group, after, names) && EachOf(after, back) && SameNames(group, back)
    requires forall f :: same(f, f)
    ensures |back| == |group| && (AllAlike(same, back, group) <==> Refits(p, group, names, same))
  {
    FirstOfAfter(p, group, after, names);
    hide OneArray, EachOf, ByIndex, Names, SameNames, FirstFields;
    forall k | 0 <= k < |group|
      ensures |back| == |group|
      ensures back[k] == if group[k].variable in names then group[k] else Leaf(group[k].variable, after[0].fields)
    {
      BackAt(group, after, back, names, k);
    }
    assert |back| == |group| by { BackAt(group, after, back, names, 0); }
  }

  lemma BlocksAlike(same: Likeness, l: seq<Child>, a: seq<Child>, b: seq<Child>, r: seq<Child>)
    requires |a| == |b| && forall f :: same(f, f)
    ensures AllAlike(same, l + a + r, l + b + r) <==> AllAlike(same, a, b)
  {
    if AllAlike(same, l + a + r, l + b + r) {
      forall k | 0 <= k < |a|
        ensures Alike(same, a[k], b[k])
      {
        assert (l + a + r)[|l| + k] == a[k] && (l + b + r)[|l| + k] == b[k];
      }
    }
  }

  lemma TreeBackKeepsCount(p: Parent, left: seq<Child>, group: seq<Child>, right: seq<Child>, names: seq<string>, same: Likeness)
    requires Together(p, left, group, right) && PutsTreeBack(p, left, group, right, names, same)
    ensures KeepsCount(p, left, group, right, names)
  {}

  /** Under any reading of when two leaves hold the same. */
  lemma LikePutBackIff(p: Parent, left: seq<Child>, group: seq<Child>, right: seq<Child>, names: seq<string>, same: Likeness)
    requires Together(p, left, group, right) && OneArray(p, names) && forall f :: same(f, f)
    ensures group != [] && forall k :: 0 <= k < |group| ==> group[k].Leaf?
    ensures PutsTreeBack(p, left, group, right, names, same) <==>
            names != [] && NoneChanges(left, group, right, names) && Refits(p, group, names, same)
  {
    GroupIsLeaves(p, left, group, right);
    TogetherDiffer(p, left, group, right);
    PutBackIff(p, left, group, right, names);
    assert p.children == left + group + right;
    hide Together, OneArray, NoneChanges, PutsBack, KeepsCount, Edited, Range, Refits, Differ, SameNames, Variables, AllAlike;
    if PutsTreeBack(p, left, group, right, names, same) {
      TreeBackKeepsCount(p, left, group, right, names, same);
    }
    if names != [] && NoneChanges(left, group, right, names) {
      var after, back := BothStand(p, left, group, right, names);
      var once := Fold(Parent(left + after + right, p.index), Range(|left|, |after|));
      BackIsGroupIff(p, group, after, back, names, same);
      BlocksAlike(same, left, back, group, right);
      assert PutsTreeBack(p, left, group, right, names, same) <==> AllAlike(same, left + back + right, left + group + right);
    }
  }

  lemma IdenticalIs(a: seq<Child>, b: seq<Child>)
    ensures AllAlike(Identical, a, b) <==> a == b
  {}

  /**
   * The tree is put back, to the last field, exactly when besides that every leaf
   * of the fold either stayed all along or holds what the leaf its copy is made
   * of holds: the old leaf on the first name asked for, or the fold's first.
   */
  lemma TreePutBackIff(p: Parent, left: seq<Child>, group: seq<Child>, right: seq<Child>, names: seq<string>)
    requires Together(p, left, group, right) && OneArray(p, names)
    ensures group != [] && forall k :: 0 <= k < |group| ==> group[k].Leaf?
    ensures var once := Edited(Fold(p, Range(|left|, |group|)), names);
      var twice := if once.Some? then Edited(once.value, Variables(group)) else None;
      (twice.Some? && twice.value.parent.children == p.children) <==>
      names != [] && NoneChanges(left, group, right, names) && Refits(p, group, names, Identical)
  {
    LikePutBackIff(p, left, group, right, names, Identical);
    hide Together, OneArray, NoneChanges, Edited, Range, Refits, Variables, AllAlike;
    var once := Edited(Fold(p, Range(|left|, |group|)), names);
    if once.Some? {
      var twice := Edited(once.value, Variables(group));
      if twice.Some? {
        IdenticalIs(twice.value.parent.children, p.children);
      }
    }
  }

  /** And is no edit, leaf by leaf one JSON value, exactly when their copies are one JSON value with the leaves that went. */
  lemma NoEditIff(p: Parent, left: seq<Child>, group: seq<Child>, right: seq<Child>, names: seq<string>)
    requires Together(p, left, group, right) && OneArray(p, names)
    ensures group != [] && forall k :: 0 <= k < |group| ==> group[k].Leaf?
    ensures PutsTreeBack(p, left, group, right, names, OneObject) <==>
            names != [] && NoneChanges(left, group, right, names) && Refits(p, group, names, OneObject)
  {
    forall f
      ensures OneObject(f, f)
    {
      Json.EqualIff(Json.Obj(f), Json.Obj(f));
    }
    LikePutBackIff(p, left, group, right, names, OneObject);
  }

  // ----- what is not put back ------------------------------------------------------------------------------------------

  /** A leaf that names its baseline and one that leaves it out are one criterion: the text put back makes them one leaf. */
  lemma FieldsSpoilPutBack(p: Parent, a: Child, b: Child)
    requires p.children == [a, b] && Less(p.index("a"), p.index("b"))
    requires a.Leaf? && a.variable == "a" && a.fields.Keys == {"metric"}
    requires b.Leaf? && b.variable == "b" && b.fields == a.fields["against" := Json.Str("primary")]
    ensures OneCriterion(a.fields, b.fields) && Together(p, [], [a, b], [])
    ensures PutsBack(p, [], [a, b], [], ["c"]) && !PutsTreeBack(p, [], [a, b], [], ["c"], OneObject)
  {
    OneShown(a.fields, b.fields);
    OneMore(a.fields, b.fields, "against");
    hide OneCriterion, OneObject, Together, PutsBack, PutsTreeBack, Less;
    PairRenamed(p, a, b);
  }

  lemma OneMore(f: map<string, Json.Value>, g: map<string, Json.Value>, key: string)
    requires key in g && key !in f
    ensures !OneObject(f, g)
  {}

  lemma PairRenamed(p: Parent, a: Child, b: Child)
    requires a.Leaf? && a.variable == "a" && b.Leaf? && b.variable == "b" && p.children == [a, b]
    requires Less(p.index("a"), p.index("b"))
    requires Metric(a.fields) == Metric(b.fields) && !OneObject(a.fields, b.fields)
    ensures Together(p, [], [a, b], [])
    ensures PutsBack(p, [], [a, b], [], ["c"]) && !PutsTreeBack(p, [], [a, b], [], ["c"], OneObject)
  {
    var group := [a, b];
    assert p.children == [] + group + [];
    assert Together(p, [], group, []) && OneArray(p, ["c"]);
    assert NoneChanges([], group, [], ["c"]);
    hide OneObject, PutsBack, PutsTreeBack, NoneChanges, Together, Metric, Less, OneArray;
    CopiesTheFirst(p.index, group, ["c"]);
    assert p == Parent(group, p.index);
    assert group[1].variable !in ["c"];
    assert !Refits(p, group, ["c"], OneObject);
    PutBackIff(p, [], group, [], ["c"]);
    NoEditIff(p, [], group, [], ["c"]);
  }

  lemma OneShown(f: map<string, Json.Value>, g: map<string, Json.Value>)
    requires f.Keys == {"metric"} && g == f["against" := Json.Str("primary")]
    ensures OneCriterion(f, g)
  {
    assert WindowKeys(map[]) == {};
    assert Fields(f) == map[] && Fields(g) == map[];
    Json.EqualIff(Json.Obj(Fields(f)["metric" := Metric(f)]), Json.Obj(Fields(g)["metric" := Metric(g)]));
  }

  lemma CopiesTheFirst(index: string -> Option<nat>, group: seq<Child>, names: seq<string>)
    requires group != [] && group[0].Leaf? && |names| == 1 && !Leafed(group, names[0])
    ensures FirstFields(Parent(group, index), group, names) == group[0].fields
  {
    FieldsOnOther(group, names[0], group[0].fields);
  }

  /** A fold with a child of another kind in between is gathered by the edit and its undoing: that child ends behind it. */
  lemma ScatteredIsGathered(p: Parent, a: Child, b: Child, x: Child)
    requires p.children == [a, x, b] && OwnLeaf(x).None?
    requires a.Leaf? && a.variable == "a" && b.Leaf? && b.variable == "b" && a.fields == b.fields
    requires Less(p.index("a"), p.index("b")) && OneArray(p, AB)
    ensures Edited(Fold(p, [0, 2]), ["a"]) == Some(Fold(Parent([a, x], p.index), [0]))
    ensures Edited(Fold(Parent([a, x], p.index), [0]), AB) == Some(Fold(Parent([a, b, x], p.index), [0, 1]))
  {
    assert OneArray(Parent([a, x], p.index), AB);
    hide OneArray, Edited, OwnLeaf, Less;
    BLeaves(p, a, b, x);
    BComesBack(Parent([a, x], p.index), a, b, x);
  }

  lemma BLeaves(p: Parent, a: Child, b: Child, x: Child)
    requires p.children == [a, x, b]
    requires a.Leaf? && a.variable == "a" && b.Leaf? && b.variable == "b"
    ensures Edited(Fold(p, [0, 2]), ["a"]) == Some(Fold(Parent([a, x], p.index), [0]))
  {
    hide Dedup, Unheld, Stay, Remaining, PlacesOf;
    var member := MembersAt(p, [0, 2]);
    assert member == map[0 := "a", 2 := "b"];
    assert member.Values == {"a", "b"} by { assert 0 in member && 2 in member; }
    NamesOf("a");
    AIs();
    TheLastGoes(p);
    var s := Kept(p, Adopted.Adopted(map[0 := "a", 2 := "b"], []), ["a"]);
    assert Final(p, [0, 2], ["a"]) == s;
    assert Realised(p, a, [Old(0), Old(1)]) == [a, x];
    FirstPlace(s);
  }

  lemma AIs()
    ensures Unheld(["a"], {"a", "b"}) == [] && Unheld(["a"], {"a"}) == []
  {}

  lemma TheLastGoes(p: Parent)
    requires |p.children| == 3
    ensures var start := Kept(p, Adopted.Adopted(map[0 := "a", 2 := "b"], []), ["a"]);
      start.order == [Old(0), Old(1)] && start.members == map[Old(0) := "a"] && start.members.Values == {"a"}
  {
    var member := map[0 := "a", 2 := "b"];
    var start := Kept(p, Adopted.Adopted(member, []), ["a"]);
    assert Stay(3, 3, member, ["a"]) == [];
    assert Stay(3, 2, member, ["a"]) == [];
    assert Stay(3, 1, member, ["a"]) == [Old(1)];
    assert Old(0) in start.members && start.members[Old(0)] == "a";
  }

  lemma FirstPlace(s: State)
    requires s.order == [Old(0), Old(1)] && s.members == map[Old(0) := "a"]
    ensures PlacesOf(s, |s.order|) == [0]
  {
    assert PlacesOf(s, 0) == [] && PlacesOf(s, 1) == [0];
  }

  lemma BComesBack(p: Parent, a: Child, b: Child, x: Child)
    requires p.children == [a, x] && OwnLeaf(x).None?
    requires a.Leaf? && a.variable == "a" && b.Leaf? && b.variable == "b" && a.fields == b.fields
    requires Less(p.index("a"), p.index("b")) && OneArray(p, AB)
    ensures Edited(Fold(p, [0]), AB) == Some(Fold(Parent([a, b, x], p.index), [0, 1]))
  {
    AloneBeside(p, a, x);
    assert Range(0, 1) == [0] && Range(0, 2) == [0, 1];
    hide Edited, Range, Together, Stands, NoRivals, OneArray, Less, OwnLeaf;
    var after := EditedStands(p, [], [a], [x], AB);
    PairAfter(p, a, b, after);
    assert [] + [a, b] + [x] == [a, b, x];
  }

  lemma AloneBeside(p: Parent, a: Child, x: Child)
    requires p.children == [a, x] && a.Leaf? && OwnLeaf(x).None?
    ensures Together(p, [], [a], [x]) && NoRivals([], [a], AB) && NoRivals([x], [a], AB)
  {
    assert p.children == [] + [a] + [x];
  }

  lemma PairAfter(p: Parent, a: Child, b: Child, after: seq<Child>)
    requires a.Leaf? && a.variable == "a" && b.Leaf? && b.variable == "b" && a.fields == b.fields
    requires Less(p.index("a"), p.index("b")) && Stands(p, [a], after, AB)
    ensures after == [a, b]
  {
    forall k | 0 <= k < |after|
      ensures after[k] == a || after[k] == b
    {
      assert Leafed(after, after[k].variable);
    }
    assert "a" in AB && "b" in AB;
    var i :| 0 <= i < |after| && after[i].Leaf? && after[i].variable == "a";
    var j :| 0 <= j < |after| && after[j].Leaf? && after[j].variable == "b";
    assert forall k, l :: 0 <= k < l < |after| ==> after[k] != after[l];
    assert after[0] == a && after[1] == b && after[|after| - 1] == b;
  }

  /** A second identical criterion beside the fold is taken for the element put back. */
  lemma RivalSpoilsPutBack(index: string -> Option<nat>, f: map<string, Json.Value>)
    ensures var a, b := Leaf("a", f), Leaf("b", f);
      var p, p' := Parent([a, a, b], index), Parent([a, b], index);
      && Realised(p, a, Final(p, [1, 2], ["b"]).order) == [a, b]
      && Realised(p', b, Final(p', [1], ["a", "b"]).order) == [a, b]
  {
    var a, b := Leaf("a", f), Leaf("b", f);
    var p, p' := Parent([a, a, b], index), Parent([a, b], index);
    NamesOf("b");
    RemovesTheFirst(p, a, b);
    TakesTheRival(p', a, b);
  }

  lemma NamesOf(n: string)
    ensures Dedup([n]) == [n]
  {
    assert [n][..0] == [];
  }

  lemma BIs()
    ensures Unheld(["b"], {"a", "b"}) == [] && Unheld(["b"], {"b"}) == []
  {}

  lemma OneGoes(p: Parent)
    requires |p.children| == 3
    ensures var start := Kept(p, Adopted.Adopted(map[1 := "a", 2 := "b"], []), ["b"]);
      start.order == [Old(0), Old(2)] && start.members.Values == {"b"}
  {
    var member := map[1 := "a", 2 := "b"];
    var start := Kept(p, Adopted.Adopted(member, []), ["b"]);
    assert Stay(3, 3, member, ["b"]) == [];
    assert Stay(3, 2, member, ["b"]) == [Old(2)];
    assert Stay(3, 1, member, ["b"]) == [Old(2)];
    assert Old(2) in start.members && start.members[Old(2)] == "b";
  }

  lemma RemovesTheFirst(p: Parent, a: Child, b: Child)
    requires a.Leaf? && b.Leaf? && a.variable == "a" && b.variable == "b" && p.children == [a, a, b]
    ensures Realised(p, a, Final(p, [1, 2], ["b"]).order) == [a, b]
  {
    hide Dedup, Unheld, Stay, Remaining;
    var member := MembersAt(p, [1, 2]);
    assert member == map[1 := "a", 2 := "b"];
    assert member.Values == {"a", "b"} by { assert 1 in member && 2 in member; }
    NamesOf("b");
    BIs();
    OneGoes(p);
    assert Final(p, [1, 2], ["b"]) == Kept(p, Adopted.Adopted(map[1 := "a", 2 := "b"], []), ["b"]);
    assert Realised(p, a, [Old(0), Old(2)]) == [a, b];
  }

  const AB := ["a", "b"]

  lemma ABIs()
    ensures Dedup(AB) == AB
    ensures Unheld(AB, {"b"}) == ["a"] && Unheld(AB, {"a", "b"}) == []
  {
    assert AB[..1] == ["a"] && AB[1..] == ["b"];
    NamesOf("a");
    assert Unheld(["b"], {"b"}) == [] && Unheld(["b"], {"a", "b"}) == [];
  }

  lemma BothStay(p: Parent)
    requires |p.children| == 2
    ensures var start := Kept(p, Adopted.Adopted(map[1 := "b", 0 := "a"], []), AB);
      start.order == [Old(0), Old(1)] && start.members.Values == {"a", "b"}
  {
    var member := map[1 := "b", 0 := "a"];
    var start := Kept(p, Adopted.Adopted(member, []), AB);
    assert Stay(2, 2, member, AB) == [];
    assert Stay(2, 1, member, AB) == [Old(1)];
    assert Old(0) in start.members && Old(1) in start.members;
    assert start.members[Old(0)] == "a" && start.members[Old(1)] == "b";
  }

  lemma TakesTheRival(p: Parent, a: Child, b: Child)
    requires a.Leaf? && b.Leaf? && a.variable == "a" && b.variable == "b" && a.fields == b.fields && p.children == [a, b]
    ensures Realised(p, b, Final(p, [1], AB).order) == [a, b]
  {
    hide Fields, Dedup, Unheld, Stay, Remaining;
    var first := MembersAt(p, [1]);
    assert first == map[1 := "b"];
    assert first.Values == {"b"} by { assert 1 in first; }
    ABIs();
    Json.EqualIff(Json.Obj(Fields(a.fields)["metric" := Metric(a.fields)]), Json.Obj(Fields(b.fields)["metric" := Metric(b.fields)]));
    assert FirstRival(p.children, first, b, "a", 0) == Some(0);
    assert ["a"][..0] == [];
    assert AdoptAll(p, b, Adopted.Adopted(first, []), ["a"]) == Adopted.Adopted(first[0 := "a"], []);
    assert first[0 := "a"] == map[1 := "b", 0 := "a"];
    BothStay(p);
    assert Final(p, [1], AB) == Kept(p, Adopted.Adopted(map[1 := "b", 0 := "a"], []), AB);
    RealisedPair(p, b);
  }

  lemma RealisedPair(p: Parent, b: Child)
    requires b.Leaf? && |p.children| == 2
    ensures Realised(p, b, [Old(0), Old(1)]) == p.children
  {}
}
