/** What an Indices edit promises: the elements asked for, everything else as it was, index order kept. */
module ReindexTheorems {
  import opened Common
  import opened Reindex
  import Json

  // ----- lists of names ------------------------------------------------------------------------------

  lemma {:induction false} InsertByHolds(index: string -> Option<nat>, sorted: seq<string>, name: string)
    ensures multiset(InsertBy(index, sorted, name)) == multiset(sorted) + multiset{name}
  {
    if sorted != [] {
      InsertByHolds(index, sorted[1..], name);
      assert sorted == [sorted[0]] + sorted[1..];
    }
  }

  /** The adds are a reordering of the names nobody has yet. */
  lemma {:induction false} SortByHolds(index: string -> Option<nat>, names: seq<string>)
    ensures multiset(SortBy(index, names)) == multiset(names)
  {
    if names != [] {
      SortByHolds(index, names[..|names| - 1]);
      InsertByHolds(index, SortBy(index, names[..|names| - 1]), names[|names| - 1]);
      assert names == names[..|names| - 1] + [names[|names| - 1]];
    }
  }

  lemma SortByKeepsNames(index: string -> Option<nat>, names: seq<string>)
    requires forall i, j :: 0 <= i < j < |names| ==> names[i] != names[j]
    ensures forall n :: n in SortBy(index, names) <==> n in names
    ensures forall i, j :: 0 <= i < j < |SortBy(index, names)| ==> SortBy(index, names)[i] != SortBy(index, names)[j]
  {
    var sorted := SortBy(index, names);
    SortByHolds(index, names);
    forall n
      ensures n in sorted <==> n in names
    {
      assert n in sorted <==> n in multiset(sorted);
      assert n in names <==> n in multiset(names);
    }
    forall i, j | 0 <= i < j < |sorted|
      ensures sorted[i] != sorted[j]
    {
      if sorted[i] == sorted[j] {
        TwiceIn(sorted, i, j);
        OnceIn(names, sorted[i]);
      }
    }
  }

  lemma TwiceIn(s: seq<string>, i: nat, j: nat)
    requires i < j < |s| && s[i] == s[j]
    ensures multiset(s)[s[i]] >= 2
  {
    assert s == s[..i] + [s[i]] + s[i + 1..j] + [s[j]] + s[j + 1..];
  }

  lemma {:induction false} OnceIn(s: seq<string>, n: string)
    requires forall i, j :: 0 <= i < j < |s| ==> s[i] != s[j]
    ensures multiset(s)[n] <= 1
  {
    if s != [] {
      OnceIn(s[1..], n);
      assert s == [s[0]] + s[1..];
    }
  }

  // ----- the state of the list -------------------------------------------------------------------------

  /** Every new leaf is a member, every member stands in the list once, a new one under its name. */
  ghost predicate Sound(s: State)
  {
    && (forall t :: t in s.order ==> t.Old? || t in s.members)
    && (forall t :: t in s.members ==> t in s.order)
    && (forall t :: t in s.members && t.New? ==> s.members[t] == t.name)
    && (forall i, j :: 0 <= i < j < |s.order| ==> s.order[i] != s.order[j])
  }

  /** No two members are on one variable. */
  ghost predicate Distinct(s: State)
  {
    forall t, u :: t in s.members && u in s.members && s.members[t] == s.members[u] ==> t == u
  }

  /** What is not a member, in the list's order. */
  function Others(order: seq<Token>, members: map<Token, string>): seq<Token>
  {
    if order == [] then [] else (if order[0] in members then [] else [order[0]]) + Others(order[1..], members)
  }

  lemma {:induction false} OthersBeside(a: seq<Token>, b: seq<Token>, members: map<Token, string>)
    ensures Others(a + b, members) == Others(a, members) + Others(b, members)
  {
    if a == [] {
      assert a + b == b;
    } else {
      assert (a + b)[1..] == a[1..] + b;
      OthersBeside(a[1..], b, members);
    }
  }

  lemma {:induction false} OthersSame(order: seq<Token>, members: map<Token, string>, t: Token, name: string)
    requires t !in order
    ensures Others(order, members[t := name]) == Others(order, members)
  {
    if order != [] {
      OthersSame(order[1..], members, t, name);
    }
  }

  lemma OthersInserted(order: seq<Token>, members: map<Token, string>, at: nat, t: Token, name: string)
    requires at <= |order| && t !in order
    ensures Others(order[..at] + [t] + order[at..], members[t := name]) == Others(order, members)
  {
    var l, r, more := order[..at], order[at..], members[t := name];
    assert order == l + r;
    OthersBeside(l, r, members);
    OthersBeside(l + [t], r, more);
    OthersBeside(l, [t], more);
    OthersSame(l, members, t, name);
    OthersSame(r, members, t, name);
    assert Others([t], more) == [];
  }

  lemma ValuesWith(members: map<Token, string>, t: Token, name: string)
    requires t !in members
    ensures members[t := name].Values == members.Values + {name}
  {
    var more := members[t := name];
    assert t in more;
    forall u | u in members
      ensures members[u] in more.Values
    {
      assert more[u] == members[u];
    }
  }

  /** One add: the element is a member, all else is as it was. */
  lemma AddOneHolds(p: Parent, s: State, name: string, where: nat)
    requires Sound(s) && name !in s.members.Values
    ensures var r := AddOne(p, s, name, where);
      && Sound(r) && (Distinct(s) ==> Distinct(r))
      && Others(r.order, r.members) == Others(s.order, s.members)
      && r.members.Values == s.members.Values + {name}
  {
    var at, t := PlaceFor(p, s, name, where), New(name);
    forall u | u in s.members
      ensures s.members[u] != name
    {
      assert s.members[u] in s.members.Values;
    }
    assert t !in s.members && t !in s.order;
    hide Sound, Distinct, Others, PlaceFor;
    OthersInserted(s.order, s.members, at, t, name);
    ValuesWith(s.members, t, name);
    AddOneSound(s, at, name);
  }

  lemma AddOneSound(s: State, at: nat, name: string)
    requires Sound(s) && at <= |s.order| && New(name) !in s.order && New(name) !in s.members && name !in s.members.Values
    ensures var r := State(s.order[..at] + [New(name)] + s.order[at..], s.members[New(name) := name]);
      Sound(r) && (Distinct(s) ==> Distinct(r))
  {
    var t := New(name);
    var r := State(s.order[..at] + [t] + s.order[at..], s.members[t := name]);
    forall u
      ensures u in r.order <==> u in s.order || u == t
    {
      assert s.order == s.order[..at] + s.order[at..];
    }
    forall i, j | 0 <= i < j < |r.order|
      ensures r.order[i] != r.order[j]
    {
      assert i < at ==> r.order[i] == s.order[i];
      assert i > at ==> r.order[i] == s.order[i - 1];
      assert j < at ==> r.order[j] == s.order[j];
      assert j > at ==> r.order[j] == s.order[j - 1];
    }
    forall u | u in s.members
      ensures s.members[u] != name
    {
      assert s.members[u] in s.members.Values;
    }
  }

  lemma {:induction false} AddAllHolds(p: Parent, s: State, names: seq<string>, where: nat)
    requires Sound(s)
    requires forall n :: n in names ==> n !in s.members.Values
    requires forall i, j :: 0 <= i < j < |names| ==> names[i] != names[j]
    ensures var r := AddAll(p, s, names, where);
      && Sound(r) && (Distinct(s) ==> Distinct(r))
      && Others(r.order, r.members) == Others(s.order, s.members)
      && r.members.Values == s.members.Values + (set n | n in names)
  {
    if names != [] {
      var rest, last := names[..|names| - 1], names[|names| - 1];
      assert names == rest + [last];
      AddAllHolds(p, s, rest, where);
      AddOneHolds(p, AddAll(p, s, rest, where), last, where);
    }
  }

  // ----- the removes -------------------------------------------------------------------------------------

  lemma {:induction false} StayHolds(n: nat, from: nat, member: map<nat, string>, wanted: seq<string>)
    requires from <= n
    ensures forall t :: t in Stay(n, from, member, wanted) <==> t.Old? && from <= t.at < n && !(t.at in member && member[t.at] !in wanted)
    ensures forall i, j :: 0 <= i < j < |Stay(n, from, member, wanted)| ==> Stay(n, from, member, wanted)[i].at < Stay(n, from, member, wanted)[j].at
    decreases n - from
  {
    if from < n {
      StayHolds(n, from + 1, member, wanted);
    }
  }

  /** The places, from `from` on, of no member. */
  function Strangers(n: nat, from: nat, member: map<nat, string>): seq<Token>
    requires from <= n
    decreases n - from
  {
    if from == n then [] else (if from in member then [] else [Old(from)]) + Strangers(n, from + 1, member)
  }

  lemma {:induction false} StayOthers(n: nat, from: nat, member: map<nat, string>, wanted: seq<string>)
    requires from <= n
    ensures Others(Stay(n, from, member, wanted), Remaining(member, wanted)) == Strangers(n, from, member)
    decreases n - from
  {
    if from < n {
      StayOthers(n, from + 1, member, wanted);
      if !(from in member && member[from] !in wanted) {
        var members := Remaining(member, wanted);
        OthersBeside([Old(from)], Stay(n, from + 1, member, wanted), members);
        assert Others([Old(from)], members) == if from in member then [] else [Old(from)];
      } else {
        assert Stay(n, from, member, wanted) == Stay(n, from + 1, member, wanted);
        assert Strangers(n, from, member) == Strangers(n, from + 1, member);
      }
    }
  }

  lemma KeptHolds(p: Parent, a: Adopted, wanted: seq<string>)
    requires forall at :: at in a.member ==> at < |p.children|
    ensures Sound(Kept(p, a, wanted))
    ensures Others(Kept(p, a, wanted).order, Kept(p, a, wanted).members) == Strangers(|p.children|, 0, a.member)
    ensures (forall x, y :: x in a.member && y in a.member && a.member[x] == a.member[y] ==> x == y) ==> Distinct(Kept(p, a, wanted))
    ensures forall n :: n in Kept(p, a, wanted).members.Values <==> n in a.member.Values && n in wanted
  {
    StayHolds(|p.children|, 0, a.member, wanted);
    StayOthers(|p.children|, 0, a.member, wanted);
    var members := Remaining(a.member, wanted);
    forall n
      ensures n in members.Values <==> n in a.member.Values && n in wanted
    {
      if n in a.member.Values && n in wanted {
        var at :| at in a.member && a.member[at] == n;
        assert Old(at) in members;
      }
    }
  }

  // ----- what every edit does ------------------------------------------------------------------------------

  lemma StartedHolds(p: Parent, places: seq<nat>, names: seq<string>)
    requires IsAFold(p, places)
    ensures var a := Started(p, places, names);
      forall at :: at in a.member ==>
        && at < |p.children| && p.children[at].Leaf? && p.children[at].variable == a.member[at]
        && (at !in places ==> IsTheFolds(p.children[at], p.children[places[0]]))
  {
    var first := MembersAt(p, places);
    AdoptAdds(p, p.children[places[0]], Adopted.Adopted(first, []), Unheld(Dedup(names), first.Values));
  }

  /** The list before the adds, and the names left to add. */
  lemma BeforeTheAdds(p: Parent, places: seq<nat>, names: seq<string>)
    requires IsAFold(p, places)
    ensures var a := Started(p, places, names);
      var start := Kept(p, a, Dedup(names));
      var added := SortBy(p.index, Unheld(Dedup(names), start.members.Values));
      && Sound(start) && Addable(start, added, names)
      && (forall n :: n in names ==> n in start.members.Values || n in added)
      && Final(p, places, names) == AddAll(p, start, added, Lowest(a.member.Keys, 0, |p.children|))
  {
    var a, wanted := Started(p, places, names), Dedup(names);
    StartedHolds(p, places, names);
    KeptHolds(p, a, wanted);
    var start := Kept(p, a, wanted);
    DedupHolds(names);
    UnheldHolds(wanted, start.members.Values);
    SortByKeepsNames(p.index, Unheld(wanted, start.members.Values));
  }

  /** The fold then holds exactly the elements asked for, and every other child stands as it did, in its order. */
  lemma HoldsTheNames(p: Parent, places: seq<nat>, names: seq<string>)
    requires IsAFold(p, places)
    ensures var s := Final(p, places, names);
      && Sound(s)
      && (forall n :: n in s.members.Values <==> n in names)
      && Others(s.order, s.members) == Strangers(|p.children|, 0, Started(p, places, names).member)
  {
    var a, wanted := Started(p, places, names), Dedup(names);
    BeforeTheAdds(p, places, names);
    StartedHolds(p, places, names);
    KeptHolds(p, a, wanted);
    hide Sound, Distinct, Others, Kept, Dedup, Unheld, SortBy, Started, Final;
    var start := Kept(p, a, wanted);
    AddAllHolds(p, start, SortBy(p.index, Unheld(wanted, start.members.Values)), Lowest(a.member.Keys, 0, |p.children|));
  }

  /** No two places on one variable. */
  ghost predicate OneEach(member: map<nat, string>)
  {
    forall x, y :: x in member && y in member && member[x] == member[y] ==> x == y
  }

  /** What is adopted is on a variable nobody had. */
  lemma {:induction false} AdoptedOneEach(p: Parent, template: Child, a: Adopted, names: seq<string>)
    requires template.Leaf? && OneEach(a.member)
    requires forall n :: n in names ==> n !in a.member.Values
    requires forall i, j :: 0 <= i < j < |names| ==> names[i] != names[j]
    ensures OneEach(AdoptAll(p, template, a, names).member)
    ensures forall n :: n in AdoptAll(p, template, a, names).member.Values ==> n in a.member.Values || n in names
  {
    if names != [] {
      var rest, last := names[..|names| - 1], names[|names| - 1];
      assert names == rest + [last];
      AdoptedOneEach(p, template, a, rest);
      hide AdoptAll;
      AdoptedOne(p, template, AdoptAll(p, template, a, rest), last);
    }
  }

  lemma AdoptedOne(p: Parent, template: Child, a: Adopted, name: string)
    requires template.Leaf? && OneEach(a.member) && name !in a.member.Values
    ensures OneEach(AdoptOne(p, template, a, name).member)
    ensures forall n :: n in AdoptOne(p, template, a, name).member.Values ==> n in a.member.Values || n == name
  {
    forall x | x in a.member
      ensures a.member[x] != name
    {
      assert a.member[x] in a.member.Values;
    }
  }

  lemma StartedOneEach(p: Parent, places: seq<nat>, names: seq<string>)
    requires IsAFold(p, places) && OneEach(MembersAt(p, places))
    ensures OneEach(Started(p, places, names).member)
  {
    var first := MembersAt(p, places);
    DedupHolds(names);
    UnheldHolds(Dedup(names), first.Values);
    AdoptedOneEach(p, p.children[places[0]], Adopted.Adopted(first, []), Unheld(Dedup(names), first.Values));
  }

  /** And once each, when the fold held each once. */
  lemma HoldsEachOnce(p: Parent, places: seq<nat>, names: seq<string>)
    requires IsAFold(p, places) && OneEach(MembersAt(p, places))
    ensures Distinct(Final(p, places, names))
  {
    var a, wanted := Started(p, places, names), Dedup(names);
    StartedOneEach(p, places, names);
    BeforeTheAdds(p, places, names);
    StartedHolds(p, places, names);
    KeptHolds(p, a, wanted);
    hide Sound, Distinct, Others, Kept, Dedup, Unheld, SortBy, Started, Final;
    var start := Kept(p, a, wanted);
    AddAllHolds(p, start, SortBy(p.index, Unheld(wanted, start.members.Values)), Lowest(a.member.Keys, 0, |p.children|));
  }

  /** What stands at a member's place: a leaf on its variable, an old one as it was, a new one with the fold's criterion. */
  lemma MemberStands(p: Parent, places: seq<nat>, names: seq<string>, k: nat)
    requires IsAFold(p, places) && k < |Final(p, places, names).order|
    ensures var s, template := Final(p, places, names), p.children[places[0]];
      var child := Realised(p, template, s.order)[k];
      && (s.order[k].Old? ==> s.order[k].at < |p.children| && child == p.children[s.order[k].at])
      && (s.order[k] in s.members ==> child.Leaf? && child.variable == s.members[s.order[k]])
      && (s.order[k].New? ==> s.order[k] in s.members && child == Leaf(s.order[k].name, template.fields))
  {
    HoldsTheNames(p, places, names);
    StartedHolds(p, places, names);
    OldTokens(p, places, names);
    hide Others, Final, Started;
    var s, t := Final(p, places, names), Final(p, places, names).order[k];
    assert t in s.order;
  }

  /** The old tokens are of children there were, and the members among them those it started from. */
  lemma OldTokens(p: Parent, places: seq<nat>, names: seq<string>)
    requires IsAFold(p, places)
    ensures var s, member := Final(p, places, names), Started(p, places, names).member;
      && (forall t :: t in s.order && t.Old? ==> t.at < |p.children|)
      && (forall t :: t in s.members && t.Old? ==> t.at in member && s.members[t] == member[t.at])
  {
    BeforeTheAdds(p, places, names);
    var a, wanted := Started(p, places, names), Dedup(names);
    var start := Kept(p, a, wanted);
    StayHolds(|p.children|, 0, a.member, wanted);
    hide Sound, Others, Addable, Dedup, Unheld, SortBy, Stay, PlaceFor, AddAll, Lowest, Started, Final;
    OldOnes(p, start, SortBy(p.index, Unheld(wanted, start.members.Values)), Lowest(a.member.Keys, 0, |p.children|), a.member);
  }

  /** The adds bring no old child, and rename none. */
  lemma {:induction false} OldOnes(p: Parent, start: State, names: seq<string>, where: nat, member: map<nat, string>)
    requires forall t :: t in start.order && t.Old? ==> t.at < |p.children|
    requires forall t :: t in start.members && t.Old? ==> t.at in member && start.members[t] == member[t.at]
    ensures var r := AddAll(p, start, names, where);
      && (forall t :: t in r.order && t.Old? ==> t.at < |p.children|)
      && (forall t :: t in r.members && t.Old? ==> t.at in member && r.members[t] == member[t.at])
  {
    if names != [] {
      OldOnes(p, start, names[..|names| - 1], where, member);
      var s := AddAll(p, start, names[..|names| - 1], where);
      var at := PlaceFor(p, s, names[|names| - 1], where);
      assert forall t :: t in s.order[..at] || t in s.order[at..] ==> t in s.order;
    }
  }

  /** The places the plan names are those of the members, all of them. */
  lemma {:induction false} PlacesName(s: State, n: nat, k: nat)
    requires n <= |s.order|
    ensures k in PlacesOf(s, n) <==> k < n && s.order[k] in s.members
  {
    if n > 0 {
      PlacesName(s, n - 1, k);
    }
  }

  // ----- index order -----------------------------------------------------------------------------------

  /** The members stand by their index. */
  ghost predicate InOrder(p: Parent, s: State)
  {
    forall i, j :: 0 <= i < j < |s.order| && s.order[i] in s.members && s.order[j] in s.members ==> Less(IndexAt(p, s, i), IndexAt(p, s, j))
  }

  lemma {:induction false} LastBelowIsLast(p: Parent, s: State, index: Option<nat>, n: nat, k: nat)
    requires InOrder(p, s) && k < n <= |s.order| && s.order[k] in s.members && Less(IndexAt(p, s, k), index)
    ensures LastBelow(p, s, index, n).Some? && k <= LastBelow(p, s, index, n).value
  {
    if k < n - 1 {
      LastBelowIsLast(p, s, index, n - 1, k);
    }
  }

  lemma {:induction false} FirstOfAllIsFirst(p: Parent, s: State, n: nat, k: nat)
    requires InOrder(p, s) && k < n <= |s.order| && s.order[k] in s.members
    ensures FirstOfAll(p, s, n).Some? && FirstOfAll(p, s, n).value <= k
  {
    if k < n - 1 {
      FirstOfAllIsFirst(p, s, n - 1, k);
    } else if FirstOfAll(p, s, n - 1).Some? {
      assert FirstOfAll(p, s, n - 1).value < n - 1;
    }
  }

  /** The place of a new element: after every member below it, before every other. */
  lemma PlaceIsBetween(p: Parent, s: State, name: string, where: nat, k: nat)
    requires InOrder(p, s) && k < |s.order| && s.order[k] in s.members && IndexAt(p, s, k) != p.index(name)
    ensures k < PlaceFor(p, s, name, where) ==> Less(IndexAt(p, s, k), p.index(name))
    ensures k >= PlaceFor(p, s, name, where) ==> Less(p.index(name), IndexAt(p, s, k))
  {
    if Less(IndexAt(p, s, k), p.index(name)) {
      LastBelowIsLast(p, s, p.index(name), |s.order|, k);
    }
    FirstOfAllIsFirst(p, s, |s.order|, k);
    var below := LastBelow(p, s, p.index(name), |s.order|);
    if below.Some? && k < below.value {
      assert Less(IndexAt(p, s, k), IndexAt(p, s, below.value));
    }
  }

  lemma AddOneInOrder(p: Parent, s: State, name: string, where: nat)
    requires Sound(s) && InOrder(p, s) && name !in s.members.Values
    requires forall n :: n in s.members.Values ==> p.index(n) != p.index(name)
    ensures InOrder(p, AddOne(p, s, name, where))
  {
    var r, at := AddOne(p, s, name, where), PlaceFor(p, s, name, where);
    AddOneHolds(p, s, name, where);
    forall u | u in s.members
      ensures u != New(name) && p.index(s.members[u]) != p.index(name)
    {
      assert s.members[u] in s.members.Values;
    }
    hide Sound, PlaceFor;
    forall k | 0 <= k < |s.order| && s.order[k] in s.members
      ensures if k < at then Less(IndexAt(p, s, k), p.index(name)) else Less(p.index(name), IndexAt(p, s, k))
    {
      PlaceIsBetween(p, s, name, where, k);
    }
    InsertedInOrder(p, s, r, at, name);
  }

  lemma InsertedInOrder(p: Parent, s: State, r: State, at: nat, name: string)
    requires InOrder(p, s) && at <= |s.order| && New(name) !in s.members
    requires r == State(s.order[..at] + [New(name)] + s.order[at..], s.members[New(name) := name])
    requires New(name) !in s.order
    requires forall k :: 0 <= k < |s.order| && s.order[k] in s.members ==>
               if k < at then Less(IndexAt(p, s, k), p.index(name)) else Less(p.index(name), IndexAt(p, s, k))
    ensures InOrder(p, r)
  {
    forall i, j | 0 <= i < j < |r.order| && r.order[i] in r.members && r.order[j] in r.members
      ensures Less(IndexAt(p, r, i), IndexAt(p, r, j))
    {
      assert i != at ==> r.order[i] == s.order[if i < at then i else i - 1];
      assert j != at ==> r.order[j] == s.order[if j < at then j else j - 1];
    }
  }

  /** The names are elements of one array: no two at one index. */
  predicate OneArray(p: Parent, names: seq<string>)
  {
    forall m, n :: m in names && n in names && p.index(m) == p.index(n) ==> m == n
  }

  /** Different names of one array, none of them a member yet. */
  ghost predicate Addable(s: State, names: seq<string>, all: seq<string>)
  {
    && (forall n :: n in names ==> n !in s.members.Values)
    && (forall n :: n in names || n in s.members.Values ==> n in all)
    && (forall i, j :: 0 <= i < j < |names| ==> names[i] != names[j])
  }

  lemma AddableLast(p: Parent, s: State, names: seq<string>, where: nat, all: seq<string>)
    requires Sound(s) && Addable(s, names, all) && names != []
    ensures var rest, last := names[..|names| - 1], names[|names| - 1];
      var r := AddAll(p, s, rest, where);
      && Addable(s, rest, all) && Sound(r)
      && last !in r.members.Values && last in all
      && (forall n :: n in r.members.Values ==> n in all)
  {
    var rest, last := names[..|names| - 1], names[|names| - 1];
    assert names == rest + [last];
    AddAllHolds(p, s, rest, where);
  }

  lemma {:induction false} AddAllInOrder(p: Parent, s: State, names: seq<string>, where: nat, all: seq<string>)
    requires Sound(s) && InOrder(p, s) && OneArray(p, all) && Addable(s, names, all)
    ensures InOrder(p, AddAll(p, s, names, where))
  {
    if names != [] {
      var rest, last := names[..|names| - 1], names[|names| - 1];
      AddableLast(p, s, names, where, all);
      AddAllInOrder(p, s, rest, where, all);
      hide Sound, InOrder, Addable;
      AddOneInOrder(p, AddAll(p, s, rest, where), last, where);
    }
  }

  /** The members that stay stand by their index. */
  predicate StartInOrder(p: Parent, member: map<nat, string>, names: seq<string>)
  {
    forall x, y :: x in member && y in member && member[x] in names && member[y] in names && x < y ==> Less(p.index(member[x]), p.index(member[y]))
  }

  lemma KeptInOrder(p: Parent, a: Adopted, names: seq<string>)
    requires forall at :: at in a.member ==> at < |p.children|
    requires StartInOrder(p, a.member, names)
    ensures InOrder(p, Kept(p, a, Dedup(names)))
  {
    DedupHolds(names);
    StayHolds(|p.children|, 0, a.member, Dedup(names));
  }

  /** Members held in index order stay in index order, whatever elements come and go. */
  lemma KeepsIndexOrder(p: Parent, places: seq<nat>, names: seq<string>)
    requires IsAFold(p, places) && OneArray(p, names)
    requires StartInOrder(p, Started(p, places, names).member, names)
    ensures InOrder(p, Final(p, places, names))
  {
    var a := Started(p, places, names);
    StartedHolds(p, places, names);
    BeforeTheAdds(p, places, names);
    KeptInOrder(p, a, names);
    var start := Kept(p, a, Dedup(names));
    var added := SortBy(p.index, Unheld(Dedup(names), start.members.Values));
    hide Sound, InOrder, Kept, Dedup, Unheld, SortBy, Started, Final, OneArray, StartInOrder, Lowest, AddAll;
    AddAllInOrder(p, start, added, Lowest(a.member.Keys, 0, |p.children|), names);
  }

  // ----- a group that stands together ---------------------------------------------------------------------

  /** The members are exactly what stands between the first `l` and the last `r` places. */
  ghost predicate Block(s: State, l: nat, r: nat)
  {
    && l + r <= |s.order|
    && forall k :: 0 <= k < |s.order| ==> (s.order[k] in s.members <==> l <= k < |s.order| - r)
  }

  /** What is left and right of the block is as it was. */
  ghost predicate SameEdges(s: State, t: State, l: nat, r: nat)
  {
    && l + r <= |s.order| && l + r <= |t.order|
    && t.order[..l] == s.order[..l] && t.order[|t.order| - r..] == s.order[|s.order| - r..]
  }

  lemma PlaceIsInBlock(p: Parent, s: State, name: string, where: nat, l: nat, r: nat)
    requires Sound(s) && Block(s, l, r) && InOrder(p, s)
    requires l + r == |s.order| ==> OldBelow(s.order, where) == l
    ensures l <= PlaceFor(p, s, name, where) <= |s.order| - r
  {
    if l + r < |s.order| {
      FirstOfAllIsFirst(p, s, |s.order|, l);
    }
  }

  lemma BlockInserted(s: State, at: nat, name: string, l: nat, r: nat)
    requires Block(s, l, r) && l <= at <= |s.order| - r && New(name) !in s.order && New(name) !in s.members
    ensures var t := State(s.order[..at] + [New(name)] + s.order[at..], s.members[New(name) := name]);
      Block(t, l, r) && l + r < |t.order| && SameEdges(s, t, l, r)
  {
    var t := State(s.order[..at] + [New(name)] + s.order[at..], s.members[New(name) := name]);
    forall k | 0 <= k < |t.order|
      ensures t.order[k] in t.members <==> l <= k < |t.order| - r
    {
      assert k != at ==> t.order[k] == s.order[if k < at then k else k - 1];
    }
  }

  lemma NotYetThere(s: State, name: string)
    requires Sound(s) && name !in s.members.Values
    ensures New(name) !in s.order && New(name) !in s.members
  {
    forall u | u in s.members
      ensures s.members[u] != name
    {
      assert s.members[u] in s.members.Values;
    }
  }

  /** A new element stands with the others: what is left and right of them stays where it is. */
  lemma AddOneInBlock(p: Parent, s: State, name: string, where: nat, l: nat, r: nat)
    requires Sound(s) && Block(s, l, r) && InOrder(p, s) && name !in s.members.Values
    requires l + r == |s.order| ==> OldBelow(s.order, where) == l
    ensures var t := AddOne(p, s, name, where);
      Block(t, l, r) && l + r < |t.order| && SameEdges(s, t, l, r)
  {
    hide Sound, Block, InOrder, PlaceFor;
    PlaceIsInBlock(p, s, name, where, l, r);
    NotYetThere(s, name);
    BlockInserted(s, PlaceFor(p, s, name, where), name, l, r);
  }

  lemma {:induction false} AddAllInBlock(p: Parent, s: State, names: seq<string>, where: nat, l: nat, r: nat, all: seq<string>)
    requires Sound(s) && Block(s, l, r) && InOrder(p, s) && OneArray(p, all) && Addable(s, names, all)
    requires l + r == |s.order| ==> OldBelow(s.order, where) == l
    ensures var t := AddAll(p, s, names, where);
      Block(t, l, r) && (l + r == |t.order| ==> t == s) && SameEdges(s, t, l, r)
  {
    if names != [] {
      hide Sound, InOrder, OneArray, Block, Addable, SameEdges;
      var rest, last := names[..|names| - 1], names[|names| - 1];
      AddableLast(p, s, names, where, all);
      AddAllInBlock(p, s, rest, where, l, r, all);
      AddAllInOrder(p, s, rest, where, all);
      AddOneInBlock(p, AddAll(p, s, rest, where), last, where, l, r);
      EdgesStay(s, AddAll(p, s, rest, where), AddAll(p, s, names, where), l, r);
    } else {
      assert SameEdges(s, s, l, r);
    }
  }

  lemma EdgesStay(s: State, t: State, u: State, l: nat, r: nat)
    requires SameEdges(s, t, l, r) && SameEdges(t, u, l, r)
    ensures SameEdges(s, u, l, r)
  {}

  function Range(from: nat, n: nat): (r: seq<nat>)
    ensures |r| == n && forall k :: 0 <= k < n ==> r[k] == from + k
  {
    if n == 0 then [] else Range(from, n - 1) + [from + n - 1]
  }

  /** A fold whose members stand together, by their index, between `left` and `right`. */
  predicate Together(p: Parent, left: seq<Child>, group: seq<Child>, right: seq<Child>)
  {
    && p.children == left + group + right && group != [] && group[0].Leaf?
    && (forall k :: 0 <= k < |group| ==> group[k].Leaf? && Metric(group[k].fields) == Metric(group[0].fields))
    && (forall i, j :: 0 <= i < j < |group| ==> Less(p.index(group[i].variable), p.index(group[j].variable)))
  }

  predicate Leafed(after: seq<Child>, name: string)
  {
    exists k :: 0 <= k < |after| && after[k].Leaf? && after[k].variable == name
  }

  /** No child beside the fold has a criterion of its metric on a name the fold does not hold. */
  predicate NoRivals(others: seq<Child>, group: seq<Child>, names: seq<string>)
    requires group != [] && group[0].Leaf?
  {
    forall n :: n in names && !Leafed(group, n) ==> Unrivalled(others, group[0], n)
  }

  predicate Unrivalled(others: seq<Child>, template: Child, name: string)
    requires template.Leaf?
  {
    forall k :: 0 <= k < |others| ==> !StandsOn(others[k], Metric(template.fields), name)
  }

  predicate Free(p: Parent, template: Child, member: map<nat, string>, name: string)
    requires template.Leaf?
  {
    FirstRival(p.children, member, template, name, 0).None?
  }

  lemma {:induction false} NothingToAdopt(p: Parent, template: Child, a: Adopted, names: seq<string>)
    requires template.Leaf?
    requires forall n :: n in names ==> Free(p, template, a.member, n)
    ensures AdoptAll(p, template, a, names) == a
  {
    if names != [] {
      var rest, last := names[..|names| - 1], names[|names| - 1];
      assert names == rest + [last];
      NothingToAdopt(p, template, a, rest);
      assert Free(p, template, a.member, last);
    }
  }

  /** The fold's places, and nothing else, are its members. */
  lemma PlacesTogether(p: Parent, left: seq<Child>, group: seq<Child>, right: seq<Child>)
    requires Together(p, left, group, right)
    ensures var places := Range(|left|, |group|);
      && IsAFold(p, places) && p.children[places[0]] == group[0]
      && (forall at :: at in MembersAt(p, places) <==> |left| <= at < |left| + |group|)
      && (forall k :: 0 <= k < |group| ==> MembersAt(p, places)[|left| + k] == group[k].variable)
  {
    hide Together, MembersAt, Range, IsAFold;
    var places, l := Range(|left|, |group|), |left|;
    TogetherSizes(p, left, group, right);
    RangeHolds(l, |group|);
    RangeIsAFold(p, group, l);
    MembersArePlaces(p, places);
    forall k | 0 <= k < |group|
      ensures MembersAt(p, places)[l + k] == group[k].variable
    {
      assert l + k in MembersAt(p, places);
    }
  }

  lemma RangeIsAFold(p: Parent, group: seq<Child>, l: nat)
    requires l + |group| <= |p.children| && group != []
    requires forall k :: 0 <= k < |group| ==> p.children[l + k] == group[k] && group[k].Leaf?
    ensures IsAFold(p, Range(l, |group|)) && p.children[Range(l, |group|)[0]] == group[0]
  {
    var places := Range(l, |group|);
    forall k | 0 <= k < |places|
      ensures places[k] < |p.children| && p.children[places[k]].Leaf?
    {
      assert places[k] == l + k && p.children[l + k] == group[k];
    }
    assert p.children[l + 0] == group[0];
  }

  lemma MembersArePlaces(p: Parent, places: seq<nat>)
    requires IsAFold(p, places)
    ensures forall at :: at in MembersAt(p, places) <==> at in places
    ensures forall at :: at in MembersAt(p, places) ==> at < |p.children| && p.children[at].Leaf? && MembersAt(p, places)[at] == p.children[at].variable
  {}

  lemma RangeHolds(from: nat, n: nat)
    ensures forall at :: at in Range(from, n) <==> from <= at < from + n
  {
    forall at | from <= at < from + n
      ensures at in Range(from, n)
    {
      assert Range(from, n)[at - from] == at;
    }
  }

  lemma FreeOutside(p: Parent, left: seq<Child>, group: seq<Child>, right: seq<Child>, member: map<nat, string>, name: string)
    requires group != [] && group[0].Leaf? && p.children == left + group + right
    requires Unrivalled(left, group[0], name) && Unrivalled(right, group[0], name)
    requires forall at :: |left| <= at < |left| + |group| ==> at in member
    ensures Free(p, group[0], member, name)
  {
    forall k | 0 <= k < |p.children| && k !in member
      ensures !Rivals(p.children[k], group[0], name)
    {
      if k < |left| {
        assert p.children[k] == left[k];
      } else {
        assert p.children[k] == right[k - |left| - |group|];
      }
    }
  }

  /** The names the fold holds are its leaves' variables. */
  lemma HeldByGroup(p: Parent, left: seq<Child>, group: seq<Child>, right: seq<Child>, name: string)
    requires Together(p, left, group, right) && IsAFold(p, Range(|left|, |group|))
    ensures name in MembersAt(p, Range(|left|, |group|)).Values <==> Leafed(group, name)
  {
    PlacesTogether(p, left, group, right);
    var first := MembersAt(p, Range(|left|, |group|));
    hide Together, MembersAt, Range;
    if Leafed(group, name) {
      var k :| 0 <= k < |group| && group[k].Leaf? && group[k].variable == name;
      assert |left| + k in first && first[|left| + k] == name;
    }
    if name in first.Values {
      var at :| at in first && first[at] == name;
      var k := at - |left|;
      assert first[|left| + k] == group[k].variable;
      TogetherSizes(p, left, group, right);
    }
  }

  lemma TogetherStarts(p: Parent, left: seq<Child>, group: seq<Child>, right: seq<Child>, names: seq<string>)
    requires Together(p, left, group, right) && NoRivals(left, group, names) && NoRivals(right, group, names)
    ensures var places := Range(|left|, |group|);
      IsAFold(p, places) && Started(p, places, names) == Adopted.Adopted(MembersAt(p, places), [])
  {
    var places := Range(|left|, |group|);
    PlacesTogether(p, left, group, right);
    var first := MembersAt(p, places);
    var missing := Unheld(Dedup(names), first.Values);
    DedupHolds(names);
    UnheldHolds(Dedup(names), first.Values);
    hide Dedup, Unheld, Unrivalled, Free, MembersAt, Leafed, Range;
    forall n | n in missing
      ensures Free(p, group[0], first, n)
    {
      assert !Leafed(group, n) by {
        HeldByGroup(p, left, group, right, n);
      }
      assert Unrivalled(left, group[0], n) && Unrivalled(right, group[0], n);
      FreeOutside(p, left, group, right, first, n);
    }
    NothingToAdopt(p, group[0], Adopted.Adopted(first, []), missing);
  }

  /** The fold's elements between what is left and right of it: complete, by their index, each as it was or of the fold's criterion. */
  ghost predicate Stands(p: Parent, group: seq<Child>, after: seq<Child>, names: seq<string>)
    requires group != [] && group[0].Leaf?
  {
    EachOf(group, after) && ByIndex(p, after) && Names(after, names)
  }

  predicate EachOf(group: seq<Child>, after: seq<Child>)
    requires group != [] && group[0].Leaf?
  {
    forall k :: 0 <= k < |after| ==> IsOwnOrNew(group, after[k])
  }

  /** A name the fold held keeps its own leaf; any other gets the first leaf's fields. */
  predicate IsOwnOrNew(group: seq<Child>, child: Child)
    requires group != [] && group[0].Leaf?
  {
    child.Leaf? && if Leafed(group, child.variable) then child in group else child.fields == group[0].fields
  }

  predicate ByIndex(p: Parent, after: seq<Child>)
  {
    forall i, j :: 0 <= i < j < |after| ==> after[i].Leaf? && after[j].Leaf? && Less(p.index(after[i].variable), p.index(after[j].variable))
  }

  ghost predicate Names(after: seq<Child>, names: seq<string>)
  {
    forall n :: n in names <==> Leafed(after, n)
  }

  function Span(a: nat, b: nat): (r: seq<Token>)
    requires a <= b
    ensures |r| == b - a && forall k :: 0 <= k < b - a ==> r[k] == Old(a + k)
    decreases b - a
  {
    if a == b then [] else [Old(a)] + Span(a + 1, b)
  }

  /** The tokens of a stretch of the list that survive the removes. */
  lemma {:induction false} StaySplits(n: nat, a: nat, b: nat, member: map<nat, string>, wanted: seq<string>) returns (mid: seq<Token>)
    requires a <= b <= n
    ensures Stay(n, a, member, wanted) == mid + Stay(n, b, member, wanted)
    ensures forall t :: t in mid ==> t.Old? && a <= t.at < b && !(t.at in member && member[t.at] !in wanted)
    ensures (forall k :: a <= k < b ==> k !in member) ==> mid == Span(a, b)
    decreases b - a
  {
    if a == b {
      mid := [];
    } else {
      var rest := StaySplits(n, a + 1, b, member, wanted);
      if a in member && member[a] !in wanted {
        mid := rest;
      } else {
        mid := [Old(a)] + rest;
        assert [Old(a)] + (rest + Stay(n, b, member, wanted)) == mid + Stay(n, b, member, wanted);
      }
    }
  }

  /** The members stand at the places from `l` to `h`. */
  ghost predicate Fills(member: map<nat, string>, l: nat, h: nat)
  {
    forall at :: at in member <==> l <= at < h
  }

  /** Before the adds: what was left of the fold, the members that stay, what was right of it. */
  lemma StaysInThree(n: nat, l: nat, h: nat, member: map<nat, string>, wanted: seq<string>) returns (mid: seq<Token>)
    requires l <= h <= n && Fills(member, l, h)
    ensures Stay(n, 0, member, wanted) == Span(0, l) + mid + Span(h, n)
    ensures forall t :: t in mid ==> t in Remaining(member, wanted)
  {
    var before := StaySplits(n, 0, l, member, wanted);
    mid := StaySplits(n, l, h, member, wanted);
    var after := StaySplits(n, h, n, member, wanted);
    forall t | t in mid
      ensures t in Remaining(member, wanted)
    {}
    hide *;
    JoinThree(before, mid, after);
  }

  lemma JoinThree<T>(a: seq<T>, b: seq<T>, c: seq<T>)
    ensures a + (b + (c + [])) == a + b + c
  {
    assert c + [] == c;
    assert a + (b + c) == a + b + c;
  }

  lemma OnlyMembersRemain(member: map<nat, string>, wanted: seq<string>, l: nat, h: nat)
    requires Fills(member, l, h)
    ensures forall t :: t in Remaining(member, wanted) ==> t.Old? && l <= t.at < h
  {}

  lemma {:induction false} OldBelowBeside(a: seq<Token>, b: seq<Token>, where: nat)
    ensures OldBelow(a + b, where) == OldBelow(a, where) + OldBelow(b, where)
  {
    if a == [] {
      assert a + b == b;
    } else {
      assert (a + b)[1..] == a[1..] + b;
      OldBelowBeside(a[1..], b, where);
    }
  }

  lemma {:induction false} OldBelowSpan(a: nat, b: nat, where: nat)
    requires a <= b
    ensures OldBelow(Span(a, b), where) == if b <= where then b - a else if a <= where then where - a else 0
    decreases b - a
  {
    if a < b {
      OldBelowSpan(a + 1, b, where);
    }
  }

  /** The list starts with `a` and ends with `b`. */
  ghost predicate Edged(s: State, a: seq<Token>, b: seq<Token>)
  {
    && |a| + |b| <= |s.order| && s.order[..|a|] == a && s.order[|s.order| - |b|..] == b
  }

  lemma EdgedStays(s: State, t: State, a: seq<Token>, b: seq<Token>)
    requires Edged(s, a, b) && SameEdges(s, t, |a|, |b|)
    ensures Edged(t, a, b)
  {}

  /** Three parts, the middle one the members: a block. */
  lemma PartsAreABlock(s: State, a: seq<Token>, mid: seq<Token>, b: seq<Token>)
    requires s.order == a + mid + b
    requires (forall t :: t in a || t in b ==> t !in s.members) && (forall t :: t in mid ==> t in s.members)
    ensures Block(s, |a|, |b|) && Edged(s, a, b)
  {
    forall k | 0 <= k < |s.order|
      ensures s.order[k] in s.members <==> |a| <= k < |s.order| - |b|
    {
      if k < |a| {
        assert s.order[k] == a[k];
      } else if k < |a| + |mid| {
        assert s.order[k] == mid[k - |a|];
      } else {
        assert s.order[k] == b[k - |a| - |mid|];
      }
    }
  }

  lemma KeptIsBlock(n: nat, l: nat, h: nat, member: map<nat, string>, wanted: seq<string>)
    requires l <= h <= n && Fills(member, l, h)
    ensures var s := State(Stay(n, 0, member, wanted), Remaining(member, wanted));
      && Block(s, l, n - h) && Edged(s, Span(0, l), Span(h, n))
      && (l + (n - h) == |s.order| ==> OldBelow(s.order, l) == l)
  {
    var mid := StaysInThree(n, l, h, member, wanted);
    OnlyMembersRemain(member, wanted, l, h);
    var s := State(Stay(n, 0, member, wanted), Remaining(member, wanted));
    var a, b := Span(0, l), Span(h, n);
    hide Remaining, Stay, Fills;
    PartsAreABlock(s, a, mid, b);
    if l + (n - h) == |s.order| {
      assert mid == [];
      assert s.order == a + b;
      hide Block;
      OldBelowBeside(a, b, l);
      OldBelowSpan(0, l, l);
      OldBelowSpan(h, n, l);
    }
  }

  lemma {:induction false} SpanRealises(p: Parent, template: Child, a: nat, b: nat)
    requires template.Leaf? && a <= b <= |p.children|
    ensures Realised(p, template, Span(a, b)) == p.children[a..b]
    decreases b - a
  {
    if a < b {
      SpanRealises(p, template, a + 1, b);
    }
  }

  lemma LowestIs(places: set<nat>, l: nat, m: nat, n: nat)
    requires 0 < m && l + m <= n && forall at :: at in places <==> l <= at < l + m
    ensures Lowest(places, 0, n) == l
  {
    var r := Lowest(places, 0, n);
    assert l in places;
  }

  lemma TogetherInOrder(p: Parent, left: seq<Child>, group: seq<Child>, right: seq<Child>, names: seq<string>)
    requires Together(p, left, group, right)
    ensures IsAFold(p, Range(|left|, |group|))
    ensures StartInOrder(p, MembersAt(p, Range(|left|, |group|)), names)
    ensures Fills(MembersAt(p, Range(|left|, |group|)), |left|, |left| + |group|)
  {
    PlacesTogether(p, left, group, right);
    var member := MembersAt(p, Range(|left|, |group|));
    hide MembersAt, Range;
    forall x, y | x in member && y in member && x < y
      ensures Less(p.index(member[x]), p.index(member[y]))
    {
      var i, j := x - |left|, y - |left|;
      assert member[|left| + i] == group[i].variable && member[|left| + j] == group[j].variable;
    }
  }

  lemma TogetherSizes(p: Parent, left: seq<Child>, group: seq<Child>, right: seq<Child>)
    requires Together(p, left, group, right)
    ensures |p.children| == |left| + |group| + |right| && 0 < |group| && group[0].Leaf?
    ensures p.children[..|left|] == left && p.children[|left| + |group|..] == right
    ensures forall k :: 0 <= k < |group| ==> p.children[|left| + k] == group[k] && group[k].Leaf?
  {}

  /** After the edit the fold still stands together, where it stood. */
  lemma FinalIsBlock(p: Parent, left: seq<Child>, group: seq<Child>, right: seq<Child>, names: seq<string>)
    requires Together(p, left, group, right) && OneArray(p, names)
    requires NoRivals(left, group, names) && NoRivals(right, group, names)
    ensures IsAFold(p, Range(|left|, |group|))
    ensures var s := Final(p, Range(|left|, |group|), names);
      && Block(s, |left|, |right|) && InOrder(p, s)
      && Edged(s, Span(0, |left|), Span(|left| + |group|, |p.children|))
  {
    hide *;
    var l, h := |left|, |left| + |group|;
    TogetherSizes(p, left, group, right);
    TogetherStarts(p, left, group, right, names);
    TogetherInOrder(p, left, group, right, names);
    FilledIsBlock(p, Range(l, |group|), names, MembersAt(p, Range(l, |group|)), l, h);
  }

  lemma FilledIsBlock(p: Parent, places: seq<nat>, names: seq<string>, member: map<nat, string>, l: nat, h: nat)
    requires IsAFold(p, places) && OneArray(p, names) && Started(p, places, names) == Adopted.Adopted(member, [])
    requires l < h <= |p.children| && Fills(member, l, h) && StartInOrder(p, member, names)
    ensures var s := Final(p, places, names);
      Block(s, l, |p.children| - h) && InOrder(p, s) && Edged(s, Span(0, l), Span(h, |p.children|))
  {
    hide OneArray, StartInOrder, InOrder, Block, Dedup, Started, Stay, Remaining, Final, Edged, IsAFold, Kept, Span;
    KeepsIndexOrder(p, places, names);
    StartedHolds(p, places, names);
    KeptInOrder(p, Adopted.Adopted(member, []), names);
    BlockAfterAdds(p, places, names, member, l, h);
  }

  lemma BlockAfterAdds(p: Parent, places: seq<nat>, names: seq<string>, member: map<nat, string>, l: nat, h: nat)
    requires IsAFold(p, places) && OneArray(p, names) && Started(p, places, names) == Adopted.Adopted(member, [])
    requires l < h <= |p.children| && Fills(member, l, h) && InOrder(p, Kept(p, Adopted.Adopted(member, []), Dedup(names)))
    ensures Block(Final(p, places, names), l, |p.children| - h)
    ensures Edged(Final(p, places, names), Span(0, l), Span(h, |p.children|))
  {
    hide Sound, Addable, InOrder, OneArray, Block, Dedup, Unheld, SortBy, Started, Final, Lowest, Stay, Remaining, Fills, Edged, SameEdges, Span, IsAFold, AddAll;
    var n, wanted := |p.children|, Dedup(names);
    var start := Kept(p, Adopted.Adopted(member, []), wanted);
    var added := SortBy(p.index, Unheld(wanted, start.members.Values));
    BeforeTheAdds(p, places, names);
    assert Lowest(member.Keys, 0, n) == l by { KeysFill(member, l, h, n); }
    KeptIsBlock(n, l, h, member, wanted);
    AddAllInBlock(p, start, added, l, l, n - h, names);
    EdgedStays(start, AddAll(p, start, added, l), Span(0, l), Span(h, n));
  }

  lemma KeysFill(member: map<nat, string>, l: nat, h: nat, n: nat)
    requires l < h <= n && Fills(member, l, h)
    ensures Lowest(member.Keys, 0, n) == l
  {
    LowestIs(member.Keys, l, h - l, n);
  }

  lemma EdgedSplits(s: State, a: seq<Token>, b: seq<Token>)
    requires Edged(s, a, b)
    ensures s.order == a + s.order[|a|..|s.order| - |b|] + b
  {}

  lemma RealisedThree(p: Parent, template: Child, l: nat, mid: seq<Token>, h: nat)
    requires template.Leaf? && l <= h <= |p.children|
    ensures Realised(p, template, Span(0, l) + mid + Span(h, |p.children|))
            == p.children[..l] + Realised(p, template, mid) + p.children[h..]
  {
    hide Realised, Span;
    var n := |p.children|;
    RealisedBeside(p, template, Span(0, l) + mid, Span(h, n));
    RealisedBeside(p, template, Span(0, l), mid);
    SpanRealises(p, template, 0, l);
    SpanRealises(p, template, h, n);
  }

  /** The edit of a fold that stands together: what is left and right of it untouched, its elements by their index. */
  lemma EditStands(p: Parent, left: seq<Child>, group: seq<Child>, right: seq<Child>, names: seq<string>) returns (after: seq<Child>)
    requires Together(p, left, group, right) && OneArray(p, names)
    requires NoRivals(left, group, names) && NoRivals(right, group, names)
    ensures IsAFold(p, Range(|left|, |group|))
    ensures Realised(p, group[0], Final(p, Range(|left|, |group|), names).order) == left + after + right
    ensures Stands(p, group, after, names)
  {
    hide *;
    var l, h, r, places := |left|, |left| + |group|, |right|, Range(|left|, |group|);
    TogetherSizes(p, left, group, right);
    FinalIsBlock(p, left, group, right, names);
    var s := Final(p, places, names);
    EdgedIs(s, l, h, |p.children|);
    var mid := s.order[l..|s.order| - r];
    after := Realised(p, group[0], mid);
    RealisedThree(p, group[0], l, mid, h);
    StandsInBlock(p, left, group, right, names, s, mid, after);
  }

  lemma EdgedIs(s: State, l: nat, h: nat, n: nat)
    requires l <= h <= n && Edged(s, Span(0, l), Span(h, n))
    ensures l + (n - h) <= |s.order| && s.order == Span(0, l) + s.order[l..|s.order| - (n - h)] + Span(h, n)
  {
    EdgedSplits(s, Span(0, l), Span(h, n));
  }

  /** The children of the block, each on the variable of its member. */
  ghost predicate Matched(s: State, mid: seq<Token>, after: seq<Child>)
  {
    && |after| == |mid|
    && forall k :: 0 <= k < |mid| ==> mid[k] in s.members && after[k].Leaf? && after[k].variable == s.members[mid[k]]
  }

  /** What an edit adds are names that no member it started from is on. */
  lemma NewTokens(p: Parent, places: seq<nat>, names: seq<string>)
    requires IsAFold(p, places)
    ensures forall t :: t in Final(p, places, names).order && t.New? ==> t.name !in Started(p, places, names).member.Values
  {
    var a, wanted := Started(p, places, names), Dedup(names);
    BeforeTheAdds(p, places, names);
    StartedHolds(p, places, names);
    KeptHolds(p, a, wanted);
    StayHolds(|p.children|, 0, a.member, wanted);
    DedupHolds(names);
    var start := Kept(p, a, wanted);
    var added := SortBy(p.index, Unheld(wanted, start.members.Values));
    hide Sound, Others, Dedup, Unheld, SortBy, Stay, Remaining, PlaceFor, AddAll, Lowest, Started, Final, MembersAt;
    NewOnes(p, start, added, Lowest(a.member.Keys, 0, |p.children|));
  }

  lemma {:induction false} NewOnes(p: Parent, start: State, names: seq<string>, where: nat)
    requires forall t :: t in start.order ==> t.Old?
    ensures forall t :: t in AddAll(p, start, names, where).order && t.New? ==> t.name in names
  {
    if names != [] {
      var rest, last := names[..|names| - 1], names[|names| - 1];
      assert names == rest + [last];
      NewOnes(p, start, rest, where);
      var s := AddAll(p, start, rest, where);
      var at := PlaceFor(p, s, last, where);
      assert forall t :: t in s.order[..at] || t in s.order[at..] ==> t in s.order;
    }
  }

  /** One child of the block: on its member's variable, its own leaf or a new one. */
  lemma StandsAt(p: Parent, left: seq<Child>, group: seq<Child>, right: seq<Child>, names: seq<string>, s: State, k: nat)
    requires Together(p, left, group, right) && IsAFold(p, Range(|left|, |group|))
    requires s == Final(p, Range(|left|, |group|), names) && k < |s.order| && s.order[k] in s.members
    requires NoRivals(left, group, names) && NoRivals(right, group, names)
    ensures var child := ChildOf(p, group[0], s.order[k]);
      && child.Leaf? && child.variable == s.members[s.order[k]]
      && IsOwnOrNew(group, child)
  {
    var places, l := Range(|left|, |group|), |left|;
    TogetherStarts(p, left, group, right, names);
    NewTokens(p, places, names);
    PlacesTogether(p, left, group, right);
    OldTokens(p, places, names);
    MemberStands(p, places, names, k);
    hide NoRivals, Final, Started, IsAFold, Range, Sound, Realised, MembersAt, Leafed;
    RealisedAt(p, group[0], s.order, k);
    if s.order[k].Old? {
      InTheGroup(p, left, group, right, s.order[k].at);
      InIsLeafed(group, ChildOf(p, group[0], s.order[k]));
    } else {
      assert s.order[k] in s.order;
      HeldByGroup(p, left, group, right, s.order[k].name);
    }
  }

  lemma InIsLeafed(group: seq<Child>, child: Child)
    requires child in group && child.Leaf?
    ensures Leafed(group, child.variable)
  {}

  lemma BlockMatches(p: Parent, left: seq<Child>, group: seq<Child>, right: seq<Child>, names: seq<string>,
                     s: State, mid: seq<Token>, after: seq<Child>)
    requires Together(p, left, group, right) && IsAFold(p, Range(|left|, |group|))
    requires s == Final(p, Range(|left|, |group|), names) && Block(s, |left|, |right|) && |left| + |right| <= |s.order|
    requires NoRivals(left, group, names) && NoRivals(right, group, names)
    requires mid == s.order[|left|..|s.order| - |right|] && after == Realised(p, group[0], mid)
    ensures Matched(s, mid, after) && EachOf(group, after)
  {
    hide NoRivals, Final, IsAFold, Range, ChildOf, Block;
    forall k | 0 <= k < |after|
      ensures mid[k] in s.members && after[k].Leaf? && after[k].variable == s.members[mid[k]]
      ensures IsOwnOrNew(group, after[k])
    {
      BlockToken(s, |left|, |right|, mid, k);
      StandsAt(p, left, group, right, names, s, |left| + k);
    }
  }

  lemma StandsInBlock(p: Parent, left: seq<Child>, group: seq<Child>, right: seq<Child>, names: seq<string>,
                      s: State, mid: seq<Token>, after: seq<Child>)
    requires Together(p, left, group, right) && IsAFold(p, Range(|left|, |group|))
    requires s == Final(p, Range(|left|, |group|), names) && Block(s, |left|, |right|) && InOrder(p, s) && |left| + |right| <= |s.order|
    requires NoRivals(left, group, names) && NoRivals(right, group, names)
    requires mid == s.order[|left|..|s.order| - |right|] && after == Realised(p, group[0], mid)
    ensures Stands(p, group, after, names)
  {
    hide NoRivals, Others, Final, Started, IsAFold, Range, MembersAt, InOrder, Sound, Block, Realised, Matched, EachOf, ByIndex, Names;
    HoldsTheNames(p, Range(|left|, |group|), names);
    BlockMatches(p, left, group, right, names, s, mid, after);
    MatchedInOrder(p, s, |left|, |right|, mid, after);
    MatchedNames(s, |left|, |right|, mid, after, names);
  }

  lemma BlockToken(s: State, l: nat, r: nat, mid: seq<Token>, k: nat)
    requires Block(s, l, r) && l + r <= |s.order| && mid == s.order[l..|s.order| - r] && k < |mid|
    ensures l + k < |s.order| && s.order[l + k] == mid[k] && mid[k] in s.members
  {}

  lemma RealisedAt(p: Parent, template: Child, order: seq<Token>, k: nat)
    requires template.Leaf? && k < |order|
    ensures Realised(p, template, order)[k] == ChildOf(p, template, order[k])
  {}

  lemma InTheGroup(p: Parent, left: seq<Child>, group: seq<Child>, right: seq<Child>, at: nat)
    requires p.children == left + group + right && |left| <= at < |left| + |group|
    ensures p.children[at] in group
  {
    assert p.children[at] == group[at - |left|];
  }

  lemma MatchedInOrder(p: Parent, s: State, l: nat, r: nat, mid: seq<Token>, after: seq<Child>)
    requires InOrder(p, s) && l + r <= |s.order| && mid == s.order[l..|s.order| - r] && Matched(s, mid, after)
    ensures ByIndex(p, after)
  {
    forall i, j | 0 <= i < j < |after|
      ensures after[i].Leaf? && after[j].Leaf? && Less(p.index(after[i].variable), p.index(after[j].variable))
    {
      assert s.order[l + i] == mid[i] && s.order[l + j] == mid[j];
      assert Less(IndexAt(p, s, l + i), IndexAt(p, s, l + j));
    }
  }

  lemma MatchedNames(s: State, l: nat, r: nat, mid: seq<Token>, after: seq<Child>, names: seq<string>)
    requires Sound(s) && Block(s, l, r) && l + r <= |s.order| && mid == s.order[l..|s.order| - r] && Matched(s, mid, after)
    requires forall n :: n in s.members.Values <==> n in names
    ensures Names(after, names)
  {
    forall name
      ensures name in names <==> Leafed(after, name)
    {
      NameStands(s, l, r, mid, name);
      if name in names {
        var k :| 0 <= k < |mid| && s.members[mid[k]] == name;
        assert after[k].variable == name;
      }
      if Leafed(after, name) {
        var k :| 0 <= k < |after| && after[k].Leaf? && after[k].variable == name;
        assert s.members[mid[k]] in s.members.Values;
      }
    }
  }

  /** Every name held stands in the block. */
  lemma NameStands(s: State, l: nat, r: nat, mid: seq<Token>, name: string)
    requires Sound(s) && Block(s, l, r) && l + r <= |s.order| && mid == s.order[l..|s.order| - r]
    requires forall k :: 0 <= k < |mid| ==> mid[k] in s.members
    ensures name in s.members.Values ==> exists k :: 0 <= k < |mid| && s.members[mid[k]] == name
  {
    if name in s.members.Values {
      var t :| t in s.members && s.members[t] == name;
      var k :| 0 <= k < |s.order| && s.order[k] == t;
      assert mid[k - l] == t;
    }
  }
}
