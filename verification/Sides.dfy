/**
 * The two-sided tolerance control without its widgets: two number fields and a
 * link between them, over what the spec holds.
 */
module Sides {
  import opened Common

  datatype Side = Lower | Upper {
    function Other(): Side { if this == Lower then Upper else Lower }
  }

  datatype Scalar = Blank | Flag(b: bool) | Number(n: real) | Text(t: string)

  /** What a spec holds for a tolerance: a scalar (Blank: nothing), a pair, anything else. */
  datatype Value = Single(s: Scalar) | Pair(lower: Scalar, upper: Scalar) | Junk(tag: string)

  const NOTHING := Single(Blank)

  /** What a number field shows for a scalar. */
  function Shown(s: Scalar): Option<real>
  {
    if s.Number? then Some(s.n) else None
  }

  function Scale(v: Option<real>): Scalar
  {
    if v.Some? then Number(v.value) else Blank
  }

  /** The comparison the control makes: the host language's, where true is 1 and false is 0. */
  predicate SameScalar(a: Scalar, b: Scalar)
  {
    a == b || (AsNumber(a).Some? && AsNumber(a) == AsNumber(b))
  }

  function AsNumber(s: Scalar): Option<real>
  {
    match s
    case Number(n) => Some(n)
    case Flag(b) => Some(if b then 1.0 else 0.0)
    case _ => None
  }

  predicate Same(a: Value, b: Value)
  {
    match (a, b)
    case (Single(x), Single(y)) => SameScalar(x, y)
    case (Pair(l, u), Pair(l', u')) => SameScalar(l, l') && SameScalar(u, u')
    case _ => a == b
  }

  /** `handed` are the values `on_change` got, in order. */
  datatype State = State(
    linked: bool,
    lower: Option<real>,
    upper: Option<real>,
    held: Value,
    atFocus: Value,
    editing: Option<Side>,
    unusable: bool,
    handed: seq<Value>)
  {
    function With(side: Side, v: Option<real>): State { if side == Lower then this.(lower := v) else this.(upper := v) }
    /** One side blank and the other not, unlinked: no value. */
    predicate Half() { !linked && lower.Some? != upper.Some? }
  }

  /** `half`: what the fields of a rebuilt control show in place of the value. */
  function Init(value: Value, half: Option<(Option<real>, Option<real>)>): State
  {
    var (lower, upper) :=
      if half.Some? then half.value
      else match value
        case Pair(l, u) => (Shown(l), Shown(u))
        case Single(s) => (Shown(s), Shown(s))
        case Junk(_) => (None, None);
    State(half.None? && !value.Pair?, lower, upper, value, value, None,
      value != NOTHING && lower.None? && upper.None?, [])
  }

  function Hand(s: State, v: Value): State
  {
    s.(held := v, handed := s.handed + [v])
  }

  function Enter(s: State, side: Option<Side>): State
  {
    s.(editing := side, atFocus := s.held)
  }

  function Larger(a: Option<real>, b: Option<real>): Option<real>
  {
    if a.Some? && b.Some? then (if a.value < b.value then b else a) else if a.Some? then a else b
  }

  function Toggle(s: State): State
  {
    var t := s.(linked := !s.linked);
    var present := Larger(s.lower, s.upper);
    var u :=
      if present.None? then t
      else if !t.linked then
        Hand(t, Pair(Scale(if s.lower.Some? then s.lower else s.upper), Scale(if s.lower.Some? then s.lower else s.upper)))
      else Hand(t.(lower := present, upper := present), Scaled(present));
    Enter(u, None)
  }

  function Scaled(v: Option<real>): Value { Single(Scale(v)) }

  function Take(s: State, side: Side, v: Option<real>): State
  {
    var entered := if s.editing == Some(side) then s else Enter(s, Some(side));
    var t := entered.(unusable := false).With(side, v);
    if t.linked then Hand(t.With(side.Other(), v), Scaled(v)) else Weigh(t)
  }

  /** Two sides of their own: both, neither, or one without the other, which is no value. */
  function Weigh(t: State): State
  {
    if t.lower.None? && t.upper.None? then Hand(t.(linked := true), NOTHING)
    else if t.lower.Some? && t.upper.Some? then Hand(t, Pair(Scale(t.lower), Scale(t.upper)))
    else if !Same(t.held, t.atFocus) then Hand(t, t.atFocus)
    else t
  }

  datatype Event = Focus(side: Side) | Edit(side: Side, value: Option<real>) | Click

  function Step(s: State, e: Event): State
  {
    match e
    case Focus(side) => Enter(s, Some(side))
    case Edit(side, v) => Take(s, side, v)
    case Click => Toggle(s)
  }

  function Run(s: State, events: seq<Event>): State
    decreases |events|
  {
    if events == [] then s else Run(Step(s, events[0]), events[1..])
  }

  // ----- what holds after every sequence of events -------------------------------------

  /** A value with a meaning: nothing, a number, or a pair of two. */
  predicate Whole(v: Value)
  {
    match v
    case Single(s) => s.Blank? || s.Number?
    case Pair(l, u) => l.Number? && u.Number?
    case Junk(_) => false
  }

  /** What the fields show, as a value. */
  function Fields(s: State): Value
  {
    if s.linked || (s.lower.None? && s.upper.None?) then Scaled(s.lower) else Pair(Scale(s.lower), Scale(s.upper))
  }

  ghost predicate InvShown(s: State, initial: Value)
  {
    && (s.linked ==> s.lower == s.upper)
    && (s.unusable ==> s.lower.None? && s.upper.None? && s.held == s.atFocus == initial)
    && (s.Half() ==> Same(s.held, s.atFocus))
    && (!s.unusable && !s.Half() ==> s.held == Fields(s))
  }

  ghost predicate InvHeld(s: State, initial: Value)
  {
    (s.held == initial || Whole(s.held)) && (s.atFocus == initial || Whole(s.atFocus))
  }

  ghost predicate InvHanded(s: State, initial: Value)
  {
    && (forall k :: 0 <= k < |s.handed| ==> s.handed[k] == initial || Whole(s.handed[k]))
    && (s.handed != [] ==> s.handed[|s.handed| - 1] == s.held)
    && (s.handed == [] ==> s.held == initial)
  }

  ghost predicate Inv(s: State, initial: Value) { InvShown(s, initial) && InvHeld(s, initial) && InvHanded(s, initial) }

  predicate GoodStart(half: Option<(Option<real>, Option<real>)>)
  {
    half.Some? ==> half.value.0.Some? != half.value.1.Some?
  }

  /**
   * Linked fields are equal; a half pair is never handed over (what is put back
   * may be the initial value); while one side is blank the spec holds what it
   * held at focus; otherwise, once an unusable initial value is gone, it holds
   * what the fields show.
   */
  lemma {:induction false} EveryRunKeeps(s: State, events: seq<Event>, initial: Value)
    requires Inv(s, initial)
    ensures Inv(Run(s, events), initial)
    decreases |events|
  {
    if events != [] {
      StepKeeps(s, events[0], initial);
      EveryRunKeeps(Step(s, events[0]), events[1..], initial);
    }
  }

  lemma StepKeeps(s: State, e: Event, initial: Value)
    requires Inv(s, initial)
    ensures Inv(Step(s, e), initial)
  {
    if e.Edit? {
      TakeShows(s, e.side, e.value, initial);
    }
    StepHolds(s, e, initial);
    StepHands(s, e, initial);
  }

  lemma TakeShows(s: State, side: Side, v: Option<real>, initial: Value)
    requires InvShown(s, initial)
    ensures InvShown(Take(s, side, v), initial)
  {}

  lemma StepHolds(s: State, e: Event, initial: Value)
    requires InvHeld(s, initial)
    ensures InvHeld(Step(s, e), initial)
  {
    match e
    case Edit(side, v) => TakeHolds(s, side, v, initial);
    case Click => ToggleHolds(s, initial);
    case Focus(_) =>
  }

  lemma TakeHolds(s: State, side: Side, v: Option<real>, initial: Value)
    requires InvHeld(s, initial)
    ensures InvHeld(Take(s, side, v), initial)
  {
    hide Same;
  }

  lemma ToggleHolds(s: State, initial: Value)
    requires InvHeld(s, initial)
    ensures InvHeld(Toggle(s), initial)
  {}

  lemma StepHands(s: State, e: Event, initial: Value)
    requires InvHanded(s, initial) && InvHeld(Step(s, e), initial)
    ensures InvHanded(Step(s, e), initial)
  {
    HandsOverAtMostOnce(s, e);
    if Step(s, e).handed == s.handed { HoldsWhatItHeld(s, e); }
    hide Step;
  }

  lemma HoldsWhatItHeld(s: State, e: Event)
    requires Step(s, e).handed == s.handed
    ensures Step(s, e).held == s.held
  {}

  lemma InitKeeps(value: Value, half: Option<(Option<real>, Option<real>)>)
    requires GoodStart(half)
    ensures Inv(Init(value, half), value)
  {}

  lemma RunsFromInitKeep(value: Value, half: Option<(Option<real>, Option<real>)>, events: seq<Event>)
    requires GoodStart(half)
    ensures Inv(Run(Init(value, half), events), value)
  {
    InitKeeps(value, half);
    EveryRunKeeps(Init(value, half), events, value);
  }

  /** Each edit, and each click on the link, hands over at most once; a focus never does. */
  lemma HandsOverAtMostOnce(s: State, e: Event)
    ensures Step(s, e).handed == s.handed || Step(s, e).handed == s.handed + [Step(s, e).held]
    ensures e.Focus? ==> Step(s, e).handed == s.handed
  {}

  /** Linking never narrows what the criterion allows. */
  lemma LinkTakesTheLarger(s: State)
    requires !s.linked
    ensures var t := Toggle(s);
      && t.linked && t.lower == t.upper
      && (s.lower.Some? ==> t.lower.Some? && t.lower.value >= s.lower.value)
      && (s.upper.Some? ==> t.upper.Some? && t.upper.value >= s.upper.value)
      && (t.lower == s.lower || t.lower == s.upper)
  {}

  function SideOf(s: State, side: Side): Option<real> { if side == Lower then s.lower else s.upper }

  /** A field shows what was typed into it, and the other the same while they are linked; only blanking both links them again. */
  lemma EditShows(s: State, side: Side, v: Option<real>)
    ensures var t := Take(s, side, v);
      && SideOf(t, side) == v && SideOf(t, side.Other()) == (if s.linked then v else SideOf(s, side.Other()))
      && (t.linked <==> s.linked || (t.lower.None? && t.upper.None?))
      && !t.unusable && t.editing == Some(side)
      && t.atFocus == (if s.editing == Some(side) then s.atFocus else s.held)
  {}

  /** Unlinking moves no field: each side gets the one value there is, handed over as a pair; without one nothing is handed over. */
  lemma UnlinkKeepsTheValue(s: State)
    requires s.linked && s.lower == s.upper
    ensures var t := Toggle(s);
      && !t.linked && t.lower == s.lower && t.upper == s.upper && t.editing.None? && t.atFocus == t.held
      && t.handed == (if s.lower.Some? then s.handed + [Pair(Number(s.lower.value), Number(s.lower.value))] else s.handed)
  {}

  /** Entering a field remembers what is held, and changes nothing else. */
  lemma FocusRemembers(s: State, side: Side)
    ensures Step(s, Focus(side)) == s.(editing := Some(side), atFocus := s.held)
  {}

  // ----- exactly what is put back ----------------------------------------------------------

  /**
   * The control asks whether the spec still holds what it held at focus with a
   * comparison that takes true for 1.  A pair of numbers and booleans, one of
   * them a boolean, can so be lost: the numbers typed over it stay.
   */
  predicate MixedPair(v: Value)
  {
    v.Pair? && AsNumber(v.lower).Some? && AsNumber(v.upper).Some? && (v.lower.Flag? || v.upper.Flag?)
  }

  ghost predicate PutsBackExactly(s: State)
  {
    s.Half() ==> s.held == s.atFocus
  }

  lemma {:induction false} UnmixedIsPutBack(s: State, events: seq<Event>, initial: Value)
    requires Inv(s, initial) && PutsBackExactly(s) && !MixedPair(initial)
    ensures PutsBackExactly(Run(s, events))
    decreases |events|
  {
    if events != [] {
      StepKeeps(s, events[0], initial);
      UnmixedStepPutsBack(s, events[0], initial);
      UnmixedIsPutBack(Step(s, events[0]), events[1..], initial);
    }
  }

  /** Nothing, or two numbers, is like no other value a control of an unmixed one holds. */
  lemma SameIsIt(held: Value, other: Value, initial: Value)
    requires held == NOTHING || (held.Pair? && held.lower.Number? && held.upper.Number?)
    requires (other == initial || Whole(other)) && !MixedPair(initial) && Same(held, other)
    ensures held == other
  {}

  /** Unlinked, and both sides blank or neither: what is held is nothing, or two numbers. */
  lemma UnlinkedHolds(s: State, initial: Value)
    requires InvShown(s, initial) && !s.linked && !s.unusable && !s.Half()
    ensures s.held == NOTHING || (s.held.Pair? && s.held.lower.Number? && s.held.upper.Number?)
  {}

  lemma EditPutsBack(s: State, side: Side, v: Option<real>, initial: Value)
    requires Inv(s, initial) && PutsBackExactly(s) && !MixedPair(initial)
    ensures PutsBackExactly(Take(s, side, v))
  {
    if s.editing == Some(side) && !s.linked && !s.unusable && !s.Half() {
      UnlinkedHolds(s, initial);
      if Same(s.held, s.atFocus) {
        SameIsIt(s.held, s.atFocus, initial);
      }
    }
    hide Same, Whole, MixedPair, Fields;
  }

  lemma UnmixedStepPutsBack(s: State, e: Event, initial: Value)
    requires Inv(s, initial) && PutsBackExactly(s) && !MixedPair(initial)
    ensures PutsBackExactly(Step(s, e))
  {
    match e
    case Edit(side, v) => EditPutsBack(s, side, v, initial);
    case _ => hide Inv, Same, MixedPair;
  }

  /** A run that leaves the numbers typed in place of a mixed pair. */
  function Loses(v: Value): seq<Event>
    requires MixedPair(v)
  {
    var l, u := AsNumber(v.lower), AsNumber(v.upper);
    if v.lower.Flag? && v.upper.Flag? then [Edit(Lower, l), Edit(Upper, u), Edit(Upper, None)]
    else if v.lower.Flag? then [Edit(Lower, l), Edit(Lower, None)]
    else [Edit(Upper, u), Edit(Upper, None)]
  }

  lemma MixedPairIsLost(v: Value)
    requires MixedPair(v)
    ensures !PutsBackExactly(Run(Init(v, None), Loses(v)))
  {
    var s, e := Init(v, None), Loses(v);
    var s1 := Step(s, e[0]);
    var s2 := Step(s1, e[1]);
    assert Run(s, e) == Run(s1, e[1..]) == Run(s2, e[1..][1..]);
    if |e| == 3 {
      assert e[1..][1..][0] == e[2];
      assert Run(s2, e[1..][1..]) == Run(Step(s2, e[2]), e[1..][1..][1..]) == Step(s2, e[2]);
    }
  }

  /** The same from a rebuilt control, whose fields show one side: that side first, then the other, and blank again. */
  function LosesHalf(v: Value, shown: Side): seq<Event>
    requires MixedPair(v)
  {
    var first := AsNumber(if shown == Lower then v.lower else v.upper);
    var second := AsNumber(if shown == Lower then v.upper else v.lower);
    [Edit(shown, first), Edit(shown.Other(), second), Edit(shown.Other(), None)]
  }

  lemma RunOfThree(s: State, a: Event, b: Event, c: Event)
    ensures Run(s, [a, b, c]) == Step(Step(Step(s, a), b), c)
  {
    assert [a, b, c][1..] == [b, c] && [b, c][1..] == [c] && [c][1..] == [];
    hide Step;
    assert Run(Step(s, a), [b, c]) == Run(Step(Step(s, a), b), [c]);
    assert Run(Step(Step(s, a), b), [c]) == Run(Step(Step(Step(s, a), b), c), []);
  }

  lemma MixedPairIsLostHalf(v: Value, half: (Option<real>, Option<real>))
    requires MixedPair(v) && half.0.Some? != half.1.Some?
    ensures !PutsBackExactly(Run(Init(v, Some(half)), LosesHalf(v, if half.0.Some? then Lower else Upper)))
  {
    var s, e := Init(v, Some(half)), LosesHalf(v, if half.0.Some? then Lower else Upper);
    RunOfThree(s, e[0], e[1], e[2]);
    assert Step(s, e[0]).held == v;
    var t := Step(Step(s, e[0]), e[1]);
    assert t.atFocus == v && t.held == Pair(Number(AsNumber(v.lower).value), Number(AsNumber(v.upper).value));
  }

  /** What was held at focus is put back exactly, in every run, just when the initial value is no mixed pair. */
  lemma PutBackExactlyIff(v: Value, half: Option<(Option<real>, Option<real>)>)
    requires GoodStart(half)
    ensures (forall events :: PutsBackExactly(Run(Init(v, half), events))) <==> !MixedPair(v)
  {
    hide *;
    if MixedPair(v) {
      LostFrom(v, half);
    } else {
      forall events
        ensures PutsBackExactly(Run(Init(v, half), events))
      {
        InitKeeps(v, half);
        InitPutsBack(v, half);
        UnmixedIsPutBack(Init(v, half), events, v);
      }
    }
  }

  lemma LostFrom(v: Value, half: Option<(Option<real>, Option<real>)>)
    requires MixedPair(v) && GoodStart(half)
    ensures exists events :: !PutsBackExactly(Run(Init(v, half), events))
  {
    if half.None? {
      MixedPairIsLost(v);
    } else {
      MixedPairIsLostHalf(v, half.value);
    }
  }

  lemma InitPutsBack(v: Value, half: Option<(Option<real>, Option<real>)>)
    ensures PutsBackExactly(Init(v, half))
  {}

  // ----- the control as an object ------------------------------------------------------

  class SidesControl {
    var linked: bool
    var sides: map<Side, Option<real>>
    var held: Value
    var atFocus: Value
    var editing: Option<Side>
    var unusable: bool
    var syncing: bool
    var fields: map<Side, Option<real>>     // what the two widgets show
    var handed: seq<Value>

    predicate Valid()
      reads this
    {
      sides.Keys == {Lower, Upper} && fields == sides && !syncing
    }

    function Abs(): State
      reads this
      requires sides.Keys == {Lower, Upper}
    {
      State(linked, sides[Lower], sides[Upper], held, atFocus, editing, unusable, handed)
    }

    constructor (value: Value, half: Option<(Option<real>, Option<real>)>)
      ensures Valid() && Abs() == Init(value, half)
    {
      var start := Init(value, half);
      linked, unusable := start.linked, start.unusable;
      sides := map[Lower := start.lower, Upper := start.upper];
      fields := map[Lower := start.lower, Upper := start.upper];
      held, atFocus, editing, syncing, handed := value, value, None, false, [];
    }

    method Entered(side: Option<Side>)
      modifies this`editing, this`atFocus
      ensures editing == side && atFocus == held
    {
      editing, atFocus := side, held;
    }

    method HandOver(v: Value)
      modifies this`held, this`handed
      ensures held == v && handed == old(handed) + [v]
    {
      held := v;
      handed := handed + [v];
    }

    /** A field's own change handler: every write of a field comes through here. */
    method FieldChanged(side: Side, v: Option<real>)
      requires sides.Keys == {Lower, Upper} && fields.Keys == {Lower, Upper}
      requires !syncing ==> forall other :: other in sides && other != side ==> fields[other] == sides[other]
      modifies this
      ensures old(syncing) ==>
        && fields == old(fields)[side := v] && sides == old(sides) && syncing
        && linked == old(linked) && held == old(held) && atFocus == old(atFocus)
        && editing == old(editing) && unusable == old(unusable) && handed == old(handed)
      ensures !old(syncing) ==> Valid() && Abs() == Take(old(Abs()), side, v)
      decreases if syncing then 0 else 4
    {
      fields := fields[side := v];
      if !syncing {
        TakeEdit(side, v);
      }
    }

    method TakeEdit(side: Side, v: Option<real>)
      requires sides.Keys == {Lower, Upper} && fields == sides[side := v] && !syncing
      modifies this
      ensures Valid() && Abs() == Take(old(Abs()), side, v)
      decreases 3
    {
      hide Same, Weigh;
      if editing != Some(side) {
        Entered(Some(side));
      }
      unusable := false;
      sides := sides[side := v];
      if linked {
        TakeBoth(side.Other(), v);
      } else {
        WeighSides();
      }
    }

    /** Linked, the other side is what this one is. */
    method TakeBoth(other: Side, v: Option<real>)
      requires sides.Keys == {Lower, Upper} && fields.Keys == {Lower, Upper} && !syncing
      modifies this
      ensures fields == old(fields)[other := v] && sides == old(sides)[other := v] && !syncing
      ensures held == Scaled(v) && handed == old(handed) + [Scaled(v)]
      ensures linked == old(linked) && atFocus == old(atFocus) && editing == old(editing) && unusable == old(unusable)
      decreases 2
    {
      sides := sides[other := v];
      Show(other, v);
      HandOver(Scaled(v));
    }

    method WeighSides()
      requires sides.Keys == {Lower, Upper}
      modifies this`linked, this`held, this`handed
      ensures Abs() == Weigh(old(Abs()))
    {
      hide Same;
      var lower, upper := sides[Lower], sides[Upper];
      if lower.None? && upper.None? {
        linked := true;
        HandOver(NOTHING);
      } else if lower.Some? && upper.Some? {
        HandOver(Pair(Scale(lower), Scale(upper)));
      } else if !Same(held, atFocus) {
        HandOver(atFocus);
      }
    }

    /** A field set from here is not an edit: its handler finds the guard up. */
    method Show(side: Side, v: Option<real>)
      requires sides.Keys == {Lower, Upper} && fields.Keys == {Lower, Upper} && !syncing
      modifies this
      ensures fields == old(fields)[side := v] && sides == old(sides) && !syncing
      ensures linked == old(linked) && held == old(held) && atFocus == old(atFocus)
      ensures editing == old(editing) && unusable == old(unusable) && handed == old(handed)
      decreases 1
    {
      syncing := true;
      FieldChanged(side, v);
      syncing := false;
    }

    method ToggleLink()
      requires Valid() && (linked ==> sides[Lower] == sides[Upper])
      modifies this
      ensures Valid() && Abs() == Toggle(old(Abs()))
    {
      linked := !linked;
      var lower, upper := sides[Lower], sides[Upper];
      if !linked {
        if lower.Some? {
          HandOver(Pair(Scale(lower), Scale(lower)));
        }
      } else if lower.Some? || upper.Some? {
        var both := Larger(lower, upper);
        sides := sides[Lower := both];
        Show(Lower, both);
        sides := sides[Upper := both];
        Show(Upper, both);
        HandOver(Scaled(both));
      }
      Entered(None);
    }
  }
}
