/** JSON values, and when two of them are one. */
module Json {

  /** A value as it was parsed: `1` and `1.0` are two spellings of a number. */
  datatype Value =
    | Null
    | Bool(b: bool)
    | Int(i: int)
    | Float(r: real)
    | Str(s: string)
    | Arr(items: seq<Value>)
    | Obj(members: map<string, Value>)

  /** Whether `a` and `b` are one JSON value: objects by their members, arrays in order, numbers by value. */
  predicate Equal(a: Value, b: Value)
    decreases a
  {
    match (a, b)
    case (Bool(x), Bool(y)) => x == y
    case (Bool(_), _) => false
    case (_, Bool(_)) => false
    case (Obj(x), Obj(y)) => x.Keys == y.Keys && forall k :: k in x.Keys ==> Equal(x[k], y[k])
    case (Arr(x), Arr(y)) => |x| == |y| && forall i :: 0 <= i < |x| ==> Equal(x[i], y[i])
    case (Obj(_), _) => false
    case (_, Obj(_)) => false
    case (Arr(_), _) => false
    case (_, Arr(_)) => false
    case (Int(x), Float(y)) => x as real == y
    case (Float(x), Int(y)) => x == y as real
    case _ => a == b
  }

  /** The one spelling of each value: every number as a float. */
  function Canonical(a: Value): Value
  {
    match a
    case Int(i) => Float(i as real)
    case Arr(items) => Arr(seq(|items|, i requires 0 <= i < |items| => Canonical(items[i])))
    case Obj(members) => Obj(map k | k in members :: Canonical(members[k]))
    case _ => a
  }

  /** Two values are one exactly when they have one spelling: so "one value" is an equivalence. */
  lemma {:induction false} EqualIff(a: Value, b: Value)
    ensures Equal(a, b) <==> Canonical(a) == Canonical(b)
    decreases a
  {
    match (a, b)
    case (Arr(x), Arr(y)) =>
      forall i | 0 <= i < |x| && i < |y|
        ensures Equal(x[i], y[i]) <==> Canonical(x[i]) == Canonical(y[i])
      {
        EqualIff(x[i], y[i]);
      }
      if Canonical(a) == Canonical(b) {
        assert |x| == |y|;
        forall i | 0 <= i < |x|
          ensures Equal(x[i], y[i])
        {
          assert Canonical(a).items[i] == Canonical(x[i]) && Canonical(b).items[i] == Canonical(y[i]);
        }
      }
    case (Obj(x), Obj(y)) =>
      forall k | k in x && k in y
        ensures Equal(x[k], y[k]) <==> Canonical(x[k]) == Canonical(y[k])
      {
        EqualIff(x[k], y[k]);
      }
      assert Canonical(a).members.Keys == x.Keys && Canonical(b).members.Keys == y.Keys;
      if Canonical(a) == Canonical(b) {
        assert x.Keys == y.Keys;
        forall k | k in x.Keys
          ensures Equal(x[k], y[k])
        {
          assert Canonical(a).members[k] == Canonical(x[k]) && Canonical(b).members[k] == Canonical(y[k]);
        }
      }
    case _ =>
  }

  lemma EqualIsAnEquivalence(a: Value, b: Value, c: Value)
    ensures Equal(a, a)
    ensures Equal(a, b) ==> Equal(b, a)
    ensures Equal(a, b) && Equal(b, c) ==> Equal(a, c)
  {
    EqualIff(a, a);
    EqualIff(a, b);
    EqualIff(b, a);
    EqualIff(b, c);
    EqualIff(a, c);
  }

  /** A truth value is no number, though Python's own `==` calls `True` and `1` equal. */
  lemma TrueIsNoNumber(b: bool, i: int, r: real)
    ensures !Equal(Bool(b), Int(i)) && !Equal(Int(i), Bool(b)) && !Equal(Bool(b), Float(r))
    ensures Equal(Int(i), Float(r)) <==> i as real == r
  {}

  /** A value as Python's `==` sees it: `True` is the number 1, and `False` 0. */
  function Loose(a: Value): Value
  {
    match a
    case Bool(b) => Float(if b then 1.0 else 0.0)
    case Int(i) => Float(i as real)
    case Arr(items) => Arr(seq(|items|, i requires 0 <= i < |items| => Loose(items[i])))
    case Obj(members) => Obj(map k | k in members :: Loose(members[k]))
    case _ => a
  }

  /** Values that are one JSON value are one to Python too. */
  lemma {:induction false} EqualIsLoose(a: Value, b: Value)
    requires Equal(a, b)
    ensures Loose(a) == Loose(b)
    decreases a
  {
    match (a, b)
    case (Arr(x), Arr(y)) =>
      forall i | 0 <= i < |x|
        ensures Loose(x[i]) == Loose(y[i])
      {
        EqualIsLoose(x[i], y[i]);
      }
    case (Obj(x), Obj(y)) =>
      forall k | k in x
        ensures Loose(x[k]) == Loose(y[k])
      {
        EqualIsLoose(x[k], y[k]);
      }
      assert Loose(a).members == Loose(b).members;
    case _ =>
  }
}
