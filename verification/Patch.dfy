/**
 * JSON Patch on one test's entry (RFC 6902, sections 4.1 to 4.3; pointers of
 * RFC 6901, as their tokens), and which two ops are one.
 */
module Patch {
  import opened Common
  import opened Json

  type Pointer = seq<string>

  datatype Op =
    | Add(path: Pointer, value: Value)
    | Replace(path: Pointer, value: Value)
    | Remove(path: Pointer)

  // ----- tokens --------------------------------------------------------------------------------------

  predicate IsDigits(token: string)
  {
    token != "" && forall i :: 0 <= i < |token| ==> '0' <= token[i] <= '9'
  }

  /** The number of a run of digits, underscores between them unread. */
  function Numeral(token: string): nat
  {
    if token == "" then 0
    else
      var n, c := Numeral(token[..|token| - 1]), token[|token| - 1];
      if '0' <= c <= '9' then 10 * n + (c - '0') as int else n
  }

  /** Digits, and single underscores between two of them. */
  predicate IsNumeral(token: string)
  {
    && token != "" && token[0] != '_' && token[|token| - 1] != '_'
    && (forall i :: 0 <= i < |token| ==> '0' <= token[i] <= '9' || token[i] == '_')
    && (forall i :: 0 < i < |token| ==> token[i - 1] != '_' || token[i] != '_')
  }

  predicate IsBlank(c: char)
  {
    || '\t' <= c <= '\r' || '\U{1c}' <= c <= ' ' || c == '\U{85}' || c == '\U{a0}' || c == '\U{1680}' || '\U{2000}' <= c <= '\U{200a}'
    || c == '\U{2028}' || c == '\U{2029}' || c == '\U{202f}' || c == '\U{205f}' || c == '\U{3000}'
  }

  function Stripped(token: string): string
  {
    if token == "" then ""
    else if IsBlank(token[0]) then Stripped(token[1..])
    else if IsBlank(token[|token| - 1]) then Stripped(token[..|token| - 1])
    else token
  }

  /** The number a token spells: a numeral, after a sign or none, between blanks or none. */
  function IntOf(token: string): Option<int>
  {
    var bare := Stripped(token);
    if IsNumeral(bare) then Some(Numeral(bare))
    else if |bare| > 1 && bare[0] == '+' && IsNumeral(bare[1..]) then Some(Numeral(bare[1..]))
    else if |bare| > 1 && bare[0] == '-' && IsNumeral(bare[1..]) then Some(0 - Numeral(bare[1..]))
    else None
  }

  /** A place in a list: `-` is its end, where a list may grow. */
  function PlaceIn(token: string, length: nat, append: bool): Option<nat>
  {
    if token == "-" then (if append then Some(length) else None)
    else
      var n := IntOf(token);
      if n.Some? && n.value >= 0 then Some(n.value) else None
  }

  // ----- one op ----------------------------------------------------------------------------------------

  /** Put `value` at the end of a path: over what is there, which must be, or as a new member or item. */
  function SetAt(cur: Value, path: Pointer, value: Value, mustExist: bool): Option<Value>
    requires path != []
    decreases path
  {
    var token := path[0];
    if |path| == 1 then
      (match cur
       case Arr(items) =>
         var at := PlaceIn(token, |items|, !mustExist);
         if at.None? || at.value > |items| || (mustExist && at.value >= |items|) then None
         else if mustExist then Some(Arr(items[at.value := value]))
         else Some(Arr(items[..at.value] + [value] + items[at.value..]))
       case Obj(members) => if mustExist && token !in members then None else Some(Obj(members[token := value]))
       case _ => None)
    else
      match cur
      case Arr(items) =>
        var at := PlaceIn(token, |items|, false);
        if at.None? || at.value >= |items| then None
        else
          var child := SetAt(items[at.value], path[1..], value, mustExist);
          if child.None? then None else Some(Arr(items[at.value := child.value]))
      case Obj(members) =>
        if token !in members && (mustExist || path[1] == "-" || IsDigits(path[1])) then None
        else
          var child := SetAt(if token in members then members[token] else Obj(map[]), path[1..], value, mustExist);
          if child.None? then None else Some(Obj(members[token := child.value]))
      case _ => None
  }

  function RemoveAt(cur: Value, path: Pointer): Option<Value>
    requires path != []
    decreases path
  {
    var token := path[0];
    match cur
    case Arr(items) =>
      var at := PlaceIn(token, |items|, false);
      if at.None? || at.value >= |items| then None
      else if |path| == 1 then Some(Arr(items[..at.value] + items[at.value + 1..]))
      else
        var child := RemoveAt(items[at.value], path[1..]);
        if child.None? then None else Some(Arr(items[at.value := child.value]))
    case Obj(members) =>
      if token !in members then None
      else if |path| == 1 then Some(Obj(members - {token}))
      else
        var child := RemoveAt(members[token], path[1..]);
        if child.None? then None else Some(Obj(members[token := child.value]))
    case _ => None
  }

  /** The parts of an entry an editor may touch. */
  const WHITELIST := {"comparison", "metrics", "plots"}

  function Apply(entry: Value, op: Op): Option<Value>
  {
    if op.path == [] || op.path[0] !in WHITELIST then None
    else
      match op
      case Add(path, value) => SetAt(entry, path, value, false)
      case Replace(path, value) => SetAt(entry, path, value, true)
      case Remove(path) => RemoveAt(entry, path)
  }

  /** The ops one after the other, or nothing of them. */
  function ApplyAll(entry: Value, ops: seq<Op>): Option<Value>
  {
    if ops == [] then Some(entry)
    else
      var before := ApplyAll(entry, ops[..|ops| - 1]);
      if before.None? then None else Apply(before.value, ops[|ops| - 1])
  }

  lemma {:induction false} ApplyAllBeside(entry: Value, a: seq<Op>, b: seq<Op>)
    ensures ApplyAll(entry, a + b) == if ApplyAll(entry, a).None? then None else ApplyAll(ApplyAll(entry, a).value, b)
  {
    if b == [] {
      assert a + b == a;
    } else {
      assert (a + b)[..|a + b| - 1] == a + b[..|b| - 1];
      ApplyAllBeside(entry, a, b[..|b| - 1]);
    }
  }

  // ----- two ops that are one ----------------------------------------------------------------------------

  /** What the last token of a path is a member or an item of; what an `add` would make on the way. */
  function Holder(cur: Value, path: Pointer): Option<Value>
    requires path != []
    decreases path
  {
    if |path| == 1 then Some(cur)
    else
      match cur
      case Arr(items) =>
        var at := PlaceIn(path[0], |items|, false);
        if at.None? || at.value >= |items| then None else Holder(items[at.value], path[1..])
      case Obj(members) => Holder(if path[0] in members then members[path[0]] else Obj(map[]), path[1..])
      case _ => None
  }

  /** The value a path leads to (RFC 6901, section 4). */
  function Lookup(cur: Value, path: Pointer): Option<Value>
    decreases path
  {
    if path == [] then Some(cur)
    else
      match cur
      case Arr(items) =>
        var at := PlaceIn(path[0], |items|, false);
        if at.None? || at.value >= |items| then None else Lookup(items[at.value], path[1..])
      case Obj(members) => if path[0] in members then Lookup(members[path[0]], path[1..]) else None
      case _ => None
  }

  /** A `replace` applies exactly where there is a value, and puts the new one in its place (section 4.3). */
  lemma {:induction false} ReplaceIs(cur: Value, path: Pointer, v: Value)
    requires path != []
    ensures var r := SetAt(cur, path, v, true);
      && (r.Some? <==> Lookup(cur, path).Some?)
      && (r.Some? ==> Lookup(r.value, path) == Some(v))
    decreases path
  {
    var token := path[0];
    match cur
    case Arr(items) =>
      var at := PlaceIn(token, |items|, false);
      if |path| == 1 {
        assert path[1..] == [];
        PlaceOfAnItem(token, |items|);
      } else if at.Some? && at.value < |items| {
        ReplaceIs(items[at.value], path[1..], v);
      }
    case Obj(members) =>
      if |path| == 1 {
        assert path[1..] == [];
      } else if token in members {
        ReplaceIs(members[token], path[1..], v);
      }
    case _ =>
  }

  lemma PlaceOfAnItem(token: string, n: nat)
    ensures PlaceIn(token, n, true).Some? && PlaceIn(token, n, true).value < n ==> PlaceIn(token, n, false) == PlaceIn(token, n, true)
    ensures PlaceIn(token, n, false).Some? ==> PlaceIn(token, n, true) == PlaceIn(token, n, false)
  {}

  /** A `remove` applies exactly where there is a value (section 4.2). */
  lemma {:induction false} RemoveAppliesIff(cur: Value, path: Pointer)
    requires path != []
    ensures RemoveAt(cur, path).Some? <==> Lookup(cur, path).Some?
    decreases path
  {
    match cur
    case Arr(items) =>
      var at := PlaceIn(path[0], |items|, false);
      if |path| == 1 {
        assert path[1..] == [];
      } else if at.Some? && at.value < |items| {
        RemoveAppliesIff(items[at.value], path[1..]);
      }
    case Obj(members) =>
      if |path| == 1 {
        assert path[1..] == [];
      } else if path[0] in members {
        RemoveAppliesIff(members[path[0]], path[1..]);
      }
    case _ =>
  }

  /** A list with an item more at `at`. */
  predicate GotItem(before: seq<Value>, after: seq<Value>, at: nat, v: Value)
  {
    && at <= |before| && |after| == |before| + 1 && after[at] == v
    && (forall k :: 0 <= k < at ==> after[k] == before[k])
    && (forall k :: at <= k < |before| ==> after[k + 1] == before[k])
  }

  /** What an `add` leaves in the holder of its place: a member, new or over the old one, or an item more (section 4.1). */
  predicate GotValue(before: Value, after: Value, token: string, v: Value)
  {
    match (before, after)
    case (Obj(m), Obj(m')) => m'.Keys == m.Keys + {token} && m'[token] == v && forall k :: k in m && k != token ==> m'[k] == m[k]
    case (Arr(items), Arr(items')) =>
      if token == "-" then GotItem(items, items', |items|, v)
      else IntOf(token).Some? && IntOf(token).value >= 0 && GotItem(items, items', IntOf(token).value, v)
    case _ => false
  }

  /** And what a `remove` leaves: a member or an item less. */
  predicate LostValue(before: Value, after: Value, token: string)
  {
    match (before, after)
    case (Obj(m), Obj(m')) => token in m && m'.Keys == m.Keys - {token} && forall k :: k in m' ==> m'[k] == m[k]
    case (Arr(items), Arr(items')) =>
      && IntOf(token).Some? && 0 <= IntOf(token).value < |items|
      && GotItem(items', items, IntOf(token).value, items[IntOf(token).value])
    case _ => false
  }

  lemma {:induction false} AddIs(cur: Value, path: Pointer, v: Value)
    requires path != [] && SetAt(cur, path, v, false).Some?
    ensures var r := SetAt(cur, path, v, false).value;
      && Holder(cur, path).Some? && Holder(r, path).Some?
      && GotValue(Holder(cur, path).value, Holder(r, path).value, path[|path| - 1], v)
    decreases path
  {
    hide IntOf, IsDigits;
    if |path| > 1 {
      match cur
      case Arr(items) => AddIs(items[PlaceIn(path[0], |items|, false).value], path[1..], v);
      case Obj(members) => AddIs(if path[0] in members then members[path[0]] else Obj(map[]), path[1..], v);
      case _ =>
    }
  }

  lemma {:induction false} RemoveIs(cur: Value, path: Pointer)
    requires path != [] && RemoveAt(cur, path).Some?
    ensures var r := RemoveAt(cur, path).value;
      && Holder(cur, path).Some? && Holder(r, path).Some?
      && LostValue(Holder(cur, path).value, Holder(r, path).value, path[|path| - 1])
    decreases path
  {
    hide IntOf;
    if |path| > 1 {
      match cur
      case Arr(items) => RemoveIs(items[PlaceIn(path[0], |items|, false).value], path[1..]);
      case Obj(members) => RemoveIs(members[path[0]], path[1..]);
      case _ =>
    }
  }

  /** An `add` makes the objects that are missing on its way, but no list: no step of them may look like an item's. */
  lemma {:induction false} AddIntoNothing(path: Pointer, v: Value)
    requires path != []
    ensures var r := SetAt(Obj(map[]), path, v, false);
      && (r.Some? <==> forall k :: 1 <= k < |path| ==> path[k] != "-" && !IsDigits(path[k]))
      && (r.Some? ==> Lookup(r.value, path) == Some(v))
    decreases path
  {
    if |path| == 1 {
      assert path[1..] == [];
    } else {
      AddIntoNothing(path[1..], v);
      assert forall k :: 1 <= k < |path| ==> path[k] == path[1..][k - 1];
    }
  }

  // ----- an index as it is written -------------------------------------------------------------------------

  function Digit(d: nat): char
    requires d < 10
  {
    "0123456789"[d]
  }

  function Decimal(n: nat): (r: string)
    ensures r != ""
  {
    if n < 10 then [Digit(n)] else Decimal(n / 10) + [Digit(n % 10)]
  }

  lemma NoDigits()
    ensures Numeral("") == 0
  {}

  lemma OneDigitMore(token: string, d: nat)
    requires d < 10 && (token == "" || IsDigits(token))
    ensures IsDigits(token + [Digit(d)]) && Numeral(token + [Digit(d)]) == 10 * Numeral(token) + d
  {
    var more := token + [Digit(d)];
    assert more[..|more| - 1] == token && more[|more| - 1] == Digit(d);
    forall i | 0 <= i < |more|
      ensures '0' <= more[i] <= '9'
    {
      assert i < |token| ==> more[i] == token[i];
    }
  }

  lemma {:induction false} DecimalDigits(n: nat)
    ensures IsDigits(Decimal(n)) && Numeral(Decimal(n)) == n
  {
    hide IsDigits, Numeral, Digit;
    if n < 10 {
      OneDigitMore("", n);
      assert "" + [Digit(n)] == [Digit(n)];
      NoDigits();
    } else {
      DecimalDigits(n / 10);
      OneDigitMore(Decimal(n / 10), n % 10);
    }
  }

  /** Written in digits, an index is read back. */
  lemma IndexReadsBack(n: nat)
    ensures IsDigits(Decimal(n)) && IntOf(Decimal(n)) == Some(n)
  {
    DecimalDigits(n);
    var token := Decimal(n);
    assert '0' <= token[0] <= '9' && '0' <= token[|token| - 1] <= '9';
    assert Stripped(token) == token;
  }

  lemma UpdateTwice<T>(s: seq<T>, at: nat, v: T, w: T)
    requires at < |s|
    ensures s[at := v][at := w] == s[at := w]
  {}

  lemma InsertThenUpdate<T>(s: seq<T>, at: nat, v: T, w: T)
    requires at <= |s|
    ensures (s[..at] + [v] + s[at..])[at := w] == s[..at] + [w] + s[at..]
  {}

  lemma UpdateThenRemove<T>(s: seq<T>, at: nat, v: T)
    requires at < |s|
    ensures s[at := v][..at] + s[at := v][at + 1..] == s[..at] + s[at + 1..]
  {
    assert s[at := v][..at] == s[..at] && s[at := v][at + 1..] == s[at + 1..];
  }

  lemma MemberTwice(m: map<string, Value>, k: string, v: Value, w: Value)
    ensures m[k := v][k := w] == m[k := w] && m[k := v] - {k} == m - {k}
  {}

  lemma PlaceSpelled(token: string, n: nat, m: nat, append: bool)
    requires token != "-"
    ensures PlaceIn(token, n, append) == PlaceIn(token, m, false)
  {}

  /** The last step, in a list. */
  lemma ReplaceOntoInsert(items: seq<Value>, token: string, v: Value, w: Value)
    requires token != "-"
    ensures var first := SetAt(Arr(items), [token], v, false);
      (if first.None? then None else SetAt(first.value, [token], w, true)) == SetAt(Arr(items), [token], w, false)
  {
    hide PlaceIn;
    PlaceSpelled(token, |items|, |items| + 1, true);
    PlaceSpelled(token, |items| + 1, |items| + 1, true);
    var at := PlaceIn(token, |items|, true);
    if at.Some? && at.value <= |items| {
      InsertThenUpdate(items, at.value, v, w);
    }
  }

  /** A step through a list, not the last. */
  lemma SetInItem(items: seq<Value>, path: Pointer, v: Value, mustExist: bool)
    requires |path| > 1
    ensures var at := PlaceIn(path[0], |items|, false);
      SetAt(Arr(items), path, v, mustExist) ==
      if at.None? || at.value >= |items| then None
      else
        var child := SetAt(items[at.value], path[1..], v, mustExist);
        if child.None? then None else Some(Arr(items[at.value := child.value]))
  {}

  /** A step through an object, not the last. */
  lemma SetInMember(members: map<string, Value>, path: Pointer, v: Value, mustExist: bool)
    requires |path| > 1 && (path[0] in members || !mustExist)
    ensures var child := SetAt(if path[0] in members then members[path[0]] else Obj(map[]), path[1..], v, mustExist);
      SetAt(Obj(members), path, v, mustExist) ==
      if child.None? || (path[0] !in members && (path[1] == "-" || IsDigits(path[1]))) then None
      else Some(Obj(members[path[0] := child.value]))
  {}

  /** A `replace` after an `add` of the same path: the `add` of the new value. */
  lemma {:induction false} ReplaceOntoAdd(cur: Value, path: Pointer, v: Value, w: Value)
    requires path != [] && path[|path| - 1] != "-"
    ensures var first := SetAt(cur, path, v, false);
      (if first.None? then None else SetAt(first.value, path, w, true)) == SetAt(cur, path, w, false)
    decreases path
  {
    match cur
    case Arr(items) =>
      if |path| == 1 {
        assert path == [path[0]];
        ReplaceOntoInsert(items, path[0], v, w);
      } else {
        var at := PlaceIn(path[0], |items|, false);
        if at.Some? && at.value < |items| {
          ReplaceOntoAdd(items[at.value], path[1..], v, w);
        }
        ReplaceInItem(items, path, v, w);
      }
    case Obj(members) =>
      if |path| == 1 {
        MemberTwice(members, path[0], v, w);
      } else {
        ReplaceOntoAdd(if path[0] in members then members[path[0]] else Obj(map[]), path[1..], v, w);
        ReplaceInMember(members, path, v, w);
      }
    case _ =>
  }

  lemma ReplaceInItem(items: seq<Value>, path: Pointer, v: Value, w: Value)
    requires |path| > 1
    requires var at := PlaceIn(path[0], |items|, false);
      at.Some? && at.value < |items| ==>
        var first := SetAt(items[at.value], path[1..], v, false);
        (if first.None? then None else SetAt(first.value, path[1..], w, true)) == SetAt(items[at.value], path[1..], w, false)
    ensures var first := SetAt(Arr(items), path, v, false);
      (if first.None? then None else SetAt(first.value, path, w, true)) == SetAt(Arr(items), path, w, false)
  {
    hide SetAt, PlaceIn;
    SetInItem(items, path, v, false);
    SetInItem(items, path, w, false);
    var at := PlaceIn(path[0], |items|, false);
    if at.Some? && at.value < |items| {
      var a, b := SetAt(items[at.value], path[1..], v, false), SetAt(items[at.value], path[1..], w, false);
      if a.Some? {
        SetInItem(items[at.value := a.value], path, w, true);
        if b.Some? {
          UpdateTwice(items, at.value, a.value, b.value);
        }
      }
    }
  }

  lemma ReplaceInMember(members: map<string, Value>, path: Pointer, v: Value, w: Value)
    requires |path| > 1
    requires var child := if path[0] in members then members[path[0]] else Obj(map[]);
      var first := SetAt(child, path[1..], v, false);
      (if first.None? then None else SetAt(first.value, path[1..], w, true)) == SetAt(child, path[1..], w, false)
    ensures var first := SetAt(Obj(members), path, v, false);
      (if first.None? then None else SetAt(first.value, path, w, true)) == SetAt(Obj(members), path, w, false)
  {
    hide SetAt, IsDigits;
    SetInMember(members, path, v, false);
    SetInMember(members, path, w, false);
    var child := if path[0] in members then members[path[0]] else Obj(map[]);
    var a, b := SetAt(child, path[1..], v, false), SetAt(child, path[1..], w, false);
    if a.Some? {
      SetInMember(members[path[0] := a.value], path, w, true);
      if b.Some? {
        MemberTwice(members, path[0], a.value, b.value);
      }
    }
  }

  /** A `replace` after a `replace`: the second alone. */
  lemma {:induction false} ReplaceOntoReplace(cur: Value, path: Pointer, v: Value, w: Value)
    requires path != []
    ensures var first := SetAt(cur, path, v, true);
      (if first.None? then None else SetAt(first.value, path, w, true)) == SetAt(cur, path, w, true)
    decreases path
  {
    hide PlaceIn, IsDigits;
    match cur
    case Arr(items) =>
      var at := PlaceIn(path[0], |items|, false);
      if at.Some? && at.value < |items| {
        if |path| == 1 {
          UpdateTwice(items, at.value, v, w);
        } else {
          ReplaceOntoReplace(items[at.value], path[1..], v, w);
          var a, b := SetAt(items[at.value], path[1..], v, true), SetAt(items[at.value], path[1..], w, true);
          assert SetAt(cur, path, v, true) == if a.None? then None else Some(Arr(items[at.value := a.value]));
          if a.Some? && b.Some? {
            UpdateTwice(items, at.value, a.value, b.value);
          }
        }
      }
    case Obj(members) =>
      if path[0] in members {
        if |path| == 1 {
          MemberTwice(members, path[0], v, w);
        } else {
          ReplaceOntoReplace(members[path[0]], path[1..], v, w);
          var a, b := SetAt(members[path[0]], path[1..], v, true), SetAt(members[path[0]], path[1..], w, true);
          if a.Some? && b.Some? {
            MemberTwice(members, path[0], a.value, b.value);
          }
        }
      }
    case _ =>
  }

  /** A `remove` after a `replace`: the `remove` alone. */
  lemma {:induction false} RemoveOntoReplace(cur: Value, path: Pointer, v: Value)
    requires path != []
    ensures var first := SetAt(cur, path, v, true);
      (if first.None? then None else RemoveAt(first.value, path)) == RemoveAt(cur, path)
    decreases path
  {
    match cur
    case Arr(items) =>
      var at := PlaceIn(path[0], |items|, false);
      if at.Some? && at.value < |items| {
        if |path| == 1 {
          UpdateThenRemove(items, at.value, v);
        } else {
          RemoveOntoReplace(items[at.value], path[1..], v);
          var a, b := SetAt(items[at.value], path[1..], v, true), RemoveAt(items[at.value], path[1..]);
          if a.Some? && b.Some? {
            UpdateTwice(items, at.value, a.value, b.value);
          }
        }
      }
    case Obj(members) =>
      if path[0] in members {
        if |path| == 1 {
          MemberTwice(members, path[0], v, v);
        } else {
          RemoveOntoReplace(members[path[0]], path[1..], v);
          var a, b := SetAt(members[path[0]], path[1..], v, true), RemoveAt(members[path[0]], path[1..]);
          if a.Some? && b.Some? {
            MemberTwice(members, path[0], a.value, b.value);
          }
        }
      }
    case _ =>
  }

  /** An `add` after an `add`: the second alone, exactly when the path names a member of an object. */
  lemma {:induction false} AddOntoAdd(cur: Value, path: Pointer, v: Value, w: Value)
    requires path != [] && SetAt(cur, path, v, false).Some?
    ensures Holder(cur, path).Some?
    ensures SetAt(SetAt(cur, path, v, false).value, path, w, false) == SetAt(cur, path, w, false) <==> Holder(cur, path).value.Obj?
    decreases path
  {
    match cur
    case Arr(items) =>
      if |path| == 1 {
        var once, twice := SetAt(cur, path, w, false), SetAt(SetAt(cur, path, v, false).value, path, w, false);
        assert once.value.Arr? && |once.value.items| == |items| + 1;
        assert twice.Some? ==> twice.value.Arr? && |twice.value.items| == |items| + 2;
      } else {
        var at := PlaceIn(path[0], |items|, false).value;
        AddOntoAdd(items[at], path[1..], v, w);
        AddInItem(items, at, path, v, w);
      }
    case Obj(members) =>
      if |path| == 1 {
        MemberTwice(members, path[0], v, w);
      } else {
        var child := if path[0] in members then members[path[0]] else Obj(map[]);
        AddOntoAdd(child, path[1..], v, w);
        AddInMember(members, child, path, v, w);
      }
    case _ =>
  }

  lemma AddInItem(items: seq<Value>, at: nat, path: Pointer, v: Value, w: Value)
    requires |path| > 1 && at < |items| && PlaceIn(path[0], |items|, false) == Some(at)
    requires SetAt(items[at], path[1..], v, false).Some?
    ensures SetAt(SetAt(Arr(items), path, v, false).value, path, w, false) == SetAt(Arr(items), path, w, false)
            <==> SetAt(SetAt(items[at], path[1..], v, false).value, path[1..], w, false) == SetAt(items[at], path[1..], w, false)
  {
    var a := SetAt(items[at], path[1..], v, false).value;
    var twice, once := SetAt(a, path[1..], w, false), SetAt(items[at], path[1..], w, false);
    assert SetAt(Arr(items), path, v, false) == Some(Arr(items[at := a]));
    if twice.Some? {
      UpdateTwice(items, at, a, twice.value);
      assert items[at := twice.value][at] == twice.value;
    }
    if once.Some? {
      assert items[at := once.value][at] == once.value;
    }
  }

  lemma AddInMember(members: map<string, Value>, child: Value, path: Pointer, v: Value, w: Value)
    requires |path| > 1 && child == (if path[0] in members then members[path[0]] else Obj(map[]))
    requires SetAt(Obj(members), path, v, false).Some? && SetAt(child, path[1..], v, false).Some?
    ensures SetAt(SetAt(Obj(members), path, v, false).value, path, w, false) == SetAt(Obj(members), path, w, false)
            <==> SetAt(SetAt(child, path[1..], v, false).value, path[1..], w, false) == SetAt(child, path[1..], w, false)
  {
    var a := SetAt(child, path[1..], v, false).value;
    var twice, once := SetAt(a, path[1..], w, false), SetAt(child, path[1..], w, false);
    assert SetAt(Obj(members), path, v, false) == Some(Obj(members[path[0] := a]));
    if twice.Some? {
      MemberTwice(members, path[0], a, twice.value);
      assert members[path[0] := twice.value][path[0]] == twice.value;
    }
    if once.Some? {
      assert members[path[0] := once.value][path[0]] == once.value;
    }
  }

  /** Whether a path can be written to does not depend on what is written. */
  lemma {:induction false} SomeWhatever(cur: Value, path: Pointer, v: Value, w: Value, mustExist: bool)
    requires path != []
    ensures SetAt(cur, path, v, mustExist).Some? <==> SetAt(cur, path, w, mustExist).Some?
    decreases path
  {
    if |path| > 1 {
      match cur
      case Arr(items) =>
        var at := PlaceIn(path[0], |items|, false);
        if at.Some? && at.value < |items| {
          SomeWhatever(items[at.value], path[1..], v, w, mustExist);
        }
      case Obj(members) =>
        SomeWhatever(if path[0] in members then members[path[0]] else Obj(map[]), path[1..], v, w, mustExist);
      case _ =>
    }
  }

  /** The op that supersedes the last pending one and itself, where the Session folds the two. */
  function Folded(last: Op, next: Op): Option<Op>
  {
    if last.path != next.path || next.path == [] || next.path[|next.path| - 1] == "-" then None
    else if next.Replace? && last.Add? then Some(Add(next.path, next.value))
    else if next.Replace? && last.Replace? then Some(Replace(next.path, next.value))
    else if next.Remove? && last.Replace? then Some(next)
    else if next.Add? && last.Add? && !IsDigits(next.path[|next.path| - 1]) then Some(next)
    else None
  }

  /** Two ops on one place are one, but for a `remove` that undoes an `add`, an add into a list, and the end of a list, which names no place. */
  lemma FoldsWhen(last: Op, next: Op)
    requires next.path != []
    ensures var token := next.path[|next.path| - 1];
      Folded(last, next).Some? <==>
      && last.path == next.path && token != "-"
      && (next.Replace? || next.Remove? ==> last.Replace? || (last.Add? && next.Replace?))
      && (next.Add? ==> last.Add? && !IsDigits(token))
    ensures Folded(last, next).Some? ==>
              var one := Folded(last, next).value;
              && one.path == next.path && (next.Remove? ==> one == next) && (!next.Remove? ==> !one.Remove? && one.value == next.value)
              && (one.Add? <==> last.Add?)
  {}

  /** Both ops, one after the other. */
  function ApplyTwo(entry: Value, last: Op, next: Op): Option<Value>
  {
    var first := Apply(entry, last);
    if first.None? then None else Apply(first.value, next)
  }

  /** The folded op does what the two did, on every entry, and applies exactly when they did - two adds only on an object. */
  lemma FoldIff(entry: Value, last: Op, next: Op)
    requires Folded(last, next).Some?
    ensures ApplyTwo(entry, last, next) == Apply(entry, Folded(last, next).value)
            <==> (last.Add? && next.Add? && Apply(entry, last).Some? ==> Holder(entry, last.path).Some? && Holder(entry, last.path).value.Obj?)
  {
    var path := last.path;
    if path[0] in WHITELIST {
      match next
      case Replace(_, w) =>
        if last.Add? {
          ReplaceOntoAdd(entry, path, last.value, w);
        } else {
          ReplaceOntoReplace(entry, path, last.value, w);
        }
      case Remove(_) => RemoveOntoReplace(entry, path, last.value);
      case Add(_, w) =>
        SomeWhatever(entry, path, last.value, w, false);
        if Apply(entry, last).Some? {
          AddOntoAdd(entry, path, last.value, w);
        }
    }
  }

  /** A character of a number that is no digit. */
  predicate IsMark(c: char)
  {
    c == '+' || c == '-' || c == '_' || IsBlank(c)
  }

  lemma MarkedIsNoDigits(token: string)
    requires IntOf(token).Some? && !IsDigits(token)
    ensures exists i :: 0 <= i < |token| && IsMark(token[i])
  {
    if forall i :: 0 <= i < |token| ==> !IsMark(token[i]) {
      if token != "" {
        assert !IsMark(token[0]) && !IsMark(token[|token| - 1]);
      }
      assert Stripped(token) == token;
    }
  }

  /** The two adds that are not one: at a place of a list that is read off a sign, an underscore or a blank, which are no digits. */
  lemma {:induction false} FoldedTwiceIsMarked(cur: Value, path: Pointer, v: Value)
    requires path != [] && SetAt(cur, path, v, false).Some? && Holder(cur, path).Some? && !Holder(cur, path).value.Obj?
    requires path[|path| - 1] != "-" && !IsDigits(path[|path| - 1])
    ensures Holder(cur, path).value.Arr?
    ensures var token := path[|path| - 1]; IntOf(token).Some? && exists i :: 0 <= i < |token| && IsMark(token[i])
    decreases path
  {
    if |path| > 1 {
      match cur
      case Arr(items) => FoldedTwiceIsMarked(items[PlaceIn(path[0], |items|, false).value], path[1..], v);
      case Obj(members) => FoldedTwiceIsMarked(if path[0] in members then members[path[0]] else Obj(map[]), path[1..], v);
      case _ =>
    } else {
      MarkedIsNoDigits(path[0]);
    }
  }

  lemma InsertFirst(items: seq<Value>, token: string, v: Value)
    requires PlaceIn(token, |items|, true) == Some(0)
    ensures SetAt(Arr(items), [token], v, false) == Some(Arr([v] + items))
  {
    assert items[..0] + [v] + items[0..] == [v] + items;
  }

  lemma PlusZero(token: string)
    requires token == "+0"
    ensures PlaceIn(token, 0, true) == Some(0) && PlaceIn(token, 1, true) == Some(0) && !IsDigits(token)
  {
    assert Stripped(token) == token;
    assert token[1..] == "0" && IsNumeral("0");
    assert token[0] == '+' && !IsNumeral(token);
    assert Numeral("0") == 0 by {
      assert "0"[..0] == "";
    }
  }

  /** Such a fold loses one of two criteria. */
  lemma SignedFoldLosesOne(v: Value, w: Value)
    ensures var entry := Obj(map["metrics" := Arr([])]);
      var last, next := Add(["metrics", "+0"], v), Add(["metrics", "+0"], w);
      && Folded(last, next) == Some(next)
      && ApplyTwo(entry, last, next) == Some(Obj(map["metrics" := Arr([w, v])]))
      && Apply(entry, next) == Some(Obj(map["metrics" := Arr([w])]))
  {
    var token := "+0";
    PlusZero(token);
    var last, next := Add(["metrics", token], v), Add(["metrics", token], w);
    assert |token| == 2 && next.path[|next.path| - 1] == token;
    assert Folded(last, next) == Some(next);
    InMetrics([], token, v);
    InMetrics([v], token, w);
    InMetrics([], token, w);
    var entry := Obj(map["metrics" := Arr([])]);
    assert Apply(entry, next) == Some(Obj(map["metrics" := Arr([w])])) by { assert [w] + [] == [w]; }
    assert Apply(entry, last) == Some(Obj(map["metrics" := Arr([v])])) by { assert [v] + [] == [v]; }
    assert ApplyTwo(entry, last, next) == Some(Obj(map["metrics" := Arr([w, v])])) by { assert [w] + [v] == [w, v]; }
  }

  lemma InMetrics(items: seq<Value>, token: string, v: Value)
    requires PlaceIn(token, |items|, true) == Some(0)
    ensures Apply(Obj(map["metrics" := Arr(items)]), Add(["metrics", token], v)) == Some(Obj(map["metrics" := Arr([v] + items)]))
  {
    var path, members := ["metrics", token], map["metrics" := Arr(items)];
    assert path[1..] == [token];
    InsertFirst(items, token, v);
    assert SetAt(Obj(members), path, v, false) == Some(Obj(members["metrics" := Arr([v] + items)]));
    assert members["metrics" := Arr([v] + items)] == map["metrics" := Arr([v] + items)];
  }

  // ----- the parts of an entry ---------------------------------------------------------------------------

  function Member(m: map<string, Value>, k: string): Option<Value>
  {
    if k in m then Some(m[k]) else None
  }

  /** An op changes no other part of the entry than the one its path starts with. */
  lemma Confined(m: map<string, Value>, op: Op)
    requires Apply(Obj(m), op).Some?
    ensures Apply(Obj(m), op).value.Obj? && op.path != [] && op.path[0] in WHITELIST
    ensures forall k :: k != op.path[0] ==> Member(Apply(Obj(m), op).value.members, k) == Member(m, k)
  {}

  /** And what it does there depends on nothing else. */
  lemma OwnPart(m: map<string, Value>, n: map<string, Value>, op: Op)
    requires op.path != [] ==> Member(m, op.path[0]) == Member(n, op.path[0])
    ensures Apply(Obj(m), op).Some? <==> Apply(Obj(n), op).Some?
    ensures Apply(Obj(m), op).Some? ==>
              && Apply(Obj(m), op).value.Obj? && Apply(Obj(n), op).value.Obj?
              && Member(Apply(Obj(m), op).value.members, op.path[0]) == Member(Apply(Obj(n), op).value.members, op.path[0])
  {}

  predicate On(op: Op, part: string)
  {
    op.path != [] && op.path[0] == part
  }

  /** The ops that are not on one part of the entry. */
  function Off(ops: seq<Op>, part: string): seq<Op>
  {
    if ops == [] then []
    else Off(ops[..|ops| - 1], part) + if On(ops[|ops| - 1], part) then [] else [ops[|ops| - 1]]
  }

  lemma {:induction false} StaysAnObject(m: map<string, Value>, ops: seq<Op>)
    requires ApplyAll(Obj(m), ops).Some?
    ensures ApplyAll(Obj(m), ops).value.Obj?
    ensures forall k :: k !in WHITELIST ==> Member(ApplyAll(Obj(m), ops).value.members, k) == Member(m, k)
  {
    if ops != [] {
      StaysAnObject(m, ops[..|ops| - 1]);
      Confined(ApplyAll(Obj(m), ops[..|ops| - 1]).value.members, ops[|ops| - 1]);
    }
  }

  /** Dropping every op on one part: the rest still applies, that part is as it was, every other as with them. */
  lemma {:induction false} DropPart(m: map<string, Value>, ops: seq<Op>, part: string)
    requires ApplyAll(Obj(m), ops).Some?
    ensures ApplyAll(Obj(m), Off(ops, part)).Some?
    ensures ApplyAll(Obj(m), ops).value.Obj? && ApplyAll(Obj(m), Off(ops, part)).value.Obj?
    ensures var given, without := ApplyAll(Obj(m), ops).value.members, ApplyAll(Obj(m), Off(ops, part)).value.members;
      && Member(without, part) == Member(m, part)
      && forall k :: k != part ==> Member(without, k) == Member(given, k)
  {
    if ops != [] {
      var rest, op := ops[..|ops| - 1], ops[|ops| - 1];
      DropPart(m, rest, part);
      StaysAnObject(m, ops);
      var given, without := ApplyAll(Obj(m), rest).value.members, ApplyAll(Obj(m), Off(rest, part)).value.members;
      hide Apply;
      Confined(given, op);
      if On(op, part) {
        assert Off(ops, part) == Off(rest, part);
      } else {
        assert (Off(rest, part) + [op])[..|Off(rest, part)|] == Off(rest, part);
        OwnPart(given, without, op);
        Confined(without, op);
      }
    }
  }
}
