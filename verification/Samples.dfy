/** A running test's trace: bounded by thinning, drawn through LTTB decimation. */
module Samples {
  import opened Common

  // ----- decimation (Largest-Triangle-Three-Buckets) ---------------------------------

  ghost predicate Increasing(s: seq<nat>)
  {
    forall j, k :: 0 <= j < k < |s| ==> s[j] < s[k]
  }

  function Scaled(nIn: nat, nOut: nat, i: nat): real
    requires 3 <= nOut < nIn
  {
    i as real * ((nIn - 2) as real / (nOut - 2) as real)
  }

  /** The first sample of bucket `i`, in exact arithmetic; bucket `i` ends where `i + 1` begins. */
  function Boundary(nIn: nat, nOut: nat, i: nat): int
    requires 3 <= nOut < nIn
  {
    Scaled(nIn, nOut, i).Floor + 1
  }

  /** No bucket is empty. */
  lemma BoundariesGrow(nIn: nat, nOut: nat, i: nat)
    requires 3 <= nOut < nIn
    ensures Boundary(nIn, nOut, i) < Boundary(nIn, nOut, i + 1)
  {
    var size := (nIn - 2) as real / (nOut - 2) as real;
    assert size >= 1.0;
    assert (i + 1) as real * size == i as real * size + size;
  }

  /** The buckets are the samples between the first and the last, all of them. */
  lemma BoundaryEnds(nIn: nat, nOut: nat)
    requires 3 <= nOut < nIn
    ensures Boundary(nIn, nOut, 0) == 1 && Boundary(nIn, nOut, nOut - 2) == nIn - 1
  {
    var a, d := (nIn - 2) as real, (nOut - 2) as real;
    assert d * (a / d) == a;
    assert a.Floor == nIn - 2;
  }

  lemma {:induction false} BoundaryWithin(nIn: nat, nOut: nat, i: nat)
    requires 3 <= nOut < nIn && i <= nOut - 2
    ensures 1 <= Boundary(nIn, nOut, i) <= nIn - 1
    decreases nOut - i
  {
    BoundaryEnds(nIn, nOut);
    if i < nOut - 2 {
      BoundaryWithin(nIn, nOut, i + 1);
      BoundariesGrow(nIn, nOut, i);
      BoundaryPositive(nIn, nOut, i);
    }
  }

  lemma BoundaryPositive(nIn: nat, nOut: nat, i: nat)
    requires 3 <= nOut < nIn
    ensures Boundary(nIn, nOut, i) >= 1
  {
    assert Scaled(nIn, nOut, i) >= 0.0;
  }

  function Sum(s: seq<real>, lo: nat, hi: nat): real
    requires lo <= hi <= |s|
    decreases hi
  {
    if lo == hi then 0.0 else Sum(s, lo, hi - 1) + s[hi - 1]
  }

  function Mean(s: seq<real>, lo: nat, hi: nat): real
    requires lo < hi <= |s|
  {
    Sum(s, lo, hi) / (hi - lo) as real
  }

  /** Twice the triangle over the kept sample `a`, the candidate `j` and the next bucket's mean. */
  function Area(time: seq<real>, values: seq<real>, a: nat, j: nat, lo: nat, hi: nat): real
    requires |time| == |values| && a < |time| && j < |time| && lo < hi <= |time|
  {
    Abs((time[a] - Mean(time, lo, hi)) * (values[j] - values[a])
        - (time[a] - time[j]) * (Mean(values, lo, hi) - values[a]))
  }

  function Abs(x: real): real { if x < 0.0 then -x else x }

  function NextEnd(nIn: nat, nOut: nat, i: nat): int
    requires 3 <= nOut < nIn
  {
    var b := Boundary(nIn, nOut, i + 2);
    if b < nIn then b else nIn
  }

  /** It is the shoelace formula's, over the three corners. */
  lemma AreaIsTheTriangle(time: seq<real>, values: seq<real>, a: nat, j: nat, lo: nat, hi: nat)
    requires |time| == |values| && a < |time| && j < |time| && lo < hi <= |time|
    ensures var t, v := Mean(time, lo, hi), Mean(values, lo, hi);
      var twice := time[a] * (values[j] - v) + time[j] * (v - values[a]) + t * (values[a] - values[j]);
      Area(time, values, a, j, lo, hi) == if twice < 0.0 then -twice else twice
  {
    var t, v := Mean(time, lo, hi), Mean(values, lo, hi);
    hide Mean;
    assert (time[a] - t) * (values[j] - values[a]) == time[a] * values[j] - time[a] * values[a] - t * values[j] + t * values[a];
    assert (time[a] - time[j]) * (v - values[a]) == time[a] * v - time[a] * values[a] - time[j] * v + time[j] * values[a];
  }

  /** In whole numbers: as many samples lie before bucket `i` as its share of them is, rounded down, and the first. */
  lemma BoundaryIsTheShare(nIn: nat, nOut: nat, i: nat)
    requires 3 <= nOut < nIn
    ensures (Boundary(nIn, nOut, i) - 1) * (nOut - 2) <= i * (nIn - 2) < Boundary(nIn, nOut, i) * (nOut - 2)
  {
    var b, d, x := Boundary(nIn, nOut, i), nOut - 2, Scaled(nIn, nOut, i);
    ScaledTimes(nIn, nOut, i);
    assert (b - 1) as real <= x < b as real;
    TimesBelow((b - 1) as real, x, d as real);
    TimesLess(x, b as real, d as real);
    AsOneReal(b - 1, d);
    AsOneReal(b, d);
  }

  lemma ScaledTimes(nIn: nat, nOut: nat, i: nat)
    requires 3 <= nOut < nIn
    ensures Scaled(nIn, nOut, i) * (nOut - 2) as real == (i * (nIn - 2)) as real
  {
    var a, d := (nIn - 2) as real, (nOut - 2) as real;
    assert a / d * d == a;
    assert i as real * (a / d) * d == i as real * (a / d * d);
    assert i as real * a == (i * (nIn - 2)) as real;
  }

  lemma AsOneReal(b: int, d: int)
    ensures b as real * d as real == (b * d) as real
  {}

  lemma TimesBelow(x: real, y: real, d: real)
    requires x <= y && d > 0.0
    ensures x * d <= y * d
  {}

  lemma TimesLess(x: real, y: real, d: real)
    requires x < y && d > 0.0
    ensures x * d < y * d
  {}

  /** The samples averaged for a bucket are the next bucket's; for the last one, the last sample alone. */
  lemma NextBucketIs(nIn: nat, nOut: nat, i: nat)
    requires 3 <= nOut < nIn && i <= nOut - 3
    ensures NextEnd(nIn, nOut, i) == if i < nOut - 3 then Boundary(nIn, nOut, i + 2) else nIn
    ensures i == nOut - 3 ==> Boundary(nIn, nOut, i + 1) == nIn - 1
  {
    BoundaryEnds(nIn, nOut);
    if i < nOut - 3 {
      BoundaryWithin(nIn, nOut, i + 2);
    } else {
      BoundariesGrow(nIn, nOut, i + 1);
    }
  }

  /** A mean is what, taken for each, adds up to the same. */
  lemma MeanAddsUp(s: seq<real>, lo: nat, hi: nat)
    requires lo < hi <= |s|
    ensures Mean(s, lo, hi) * (hi - lo) as real == Sum(s, lo, hi)
    ensures hi == lo + 1 ==> Mean(s, lo, hi) == s[lo]
  {
    if hi == lo + 1 {
      assert Sum(s, lo, lo) == 0.0;
    }
  }

  /** The kept samples: first and last, and in each bucket the first of the largest triangle. */
  ghost predicate IsLttb(time: seq<real>, values: seq<real>, nOut: nat, picks: seq<nat>)
    requires 3 <= nOut < |time| == |values|
  {
    && |picks| == nOut && picks[0] == 0 && picks[nOut - 1] == |time| - 1
    && forall i :: 0 <= i < nOut - 2 ==> PickOfBucket(time, values, nOut, i, picks[i], picks[i + 1])
  }

  ghost predicate PickOfBucket(time: seq<real>, values: seq<real>, nOut: nat, i: nat, a: nat, pick: nat)
    requires 3 <= nOut < |time| == |values|
  {
    var start, end, next := Boundary(|time|, nOut, i), Boundary(|time|, nOut, i + 1), NextEnd(|time|, nOut, i);
    && a < |time| && 0 <= start <= pick < end < next <= |time|
    && IsFirstLargest(time, values, a, start, end, next, pick)
  }

  ghost predicate IsFirstLargest(time: seq<real>, values: seq<real>, a: nat, start: nat, end: nat, next: nat, pick: nat)
    requires |time| == |values| && a < |time| && start <= pick < end < next <= |time|
  {
    && (forall j :: start <= j < end ==> Area(time, values, a, j, end, next) <= Area(time, values, a, pick, end, next))
    && (forall j :: start <= j < pick ==> Area(time, values, a, j, end, next) < Area(time, values, a, pick, end, next))
  }

  function Picked<T>(s: seq<T>, picks: seq<nat>): seq<T>
    requires forall k :: 0 <= k < |picks| ==> picks[k] < |s|
  {
    seq(|picks|, k requires 0 <= k < |picks| => s[picks[k]])
  }

  lemma LttbIncreases(time: seq<real>, values: seq<real>, nOut: nat, picks: seq<nat>)
    requires 3 <= nOut < |time| == |values| && IsLttb(time, values, nOut, picks)
    ensures Increasing(picks) && forall k :: 0 <= k < |picks| ==> picks[k] < |time|
  {
    BoundaryEnds(|time|, nOut);
    forall i | 0 <= i < nOut - 1
      ensures picks[i] < picks[i + 1]
    {
      if i < nOut - 2 {
        assert PickOfBucket(time, values, nOut, i, picks[i], picks[i + 1]);
        BoundaryWithin(|time|, nOut, i);
      }
      if i > 0 {
        assert PickOfBucket(time, values, nOut, i - 1, picks[i - 1], picks[i]);
        BoundaryWithin(|time|, nOut, i);
      }
    }
    StepsIncrease(picks);
  }

  lemma {:induction false} StepsIncrease(s: seq<nat>)
    requires forall i :: 0 <= i < |s| - 1 ==> s[i] < s[i + 1]
    ensures Increasing(s)
  {
    if |s| > 1 {
      var front := s[..|s| - 1];
      StepsIncrease(front);
      forall j | 0 <= j < |s| - 1
        ensures s[j] < s[|s| - 1]
      {
        assert front[j] <= front[|s| - 2];
      }
    }
  }

  /** The first sample of a bucket with the largest triangle. */
  method FirstLargest(time: seq<real>, values: seq<real>, a: nat, start: nat, end: nat, next: nat) returns (pick: nat)
    requires |time| == |values| && a < |time| && start < end < next <= |time|
    ensures start <= pick < end && IsFirstLargest(time, values, a, start, end, next, pick)
  {
    hide Area;
    pick := start;
    for j := start to end
      invariant start <= pick < end
      invariant pick <= j
      invariant forall k :: start <= k < j ==> Area(time, values, a, k, end, next) <= Area(time, values, a, pick, end, next)
      invariant forall k :: start <= k < pick ==> Area(time, values, a, k, end, next) < Area(time, values, a, pick, end, next)
    {
      if Area(time, values, a, pick, end, next) < Area(time, values, a, j, end, next) {
        pick := j;
      }
    }
  }

  /** At most `nOut` of the samples, in order, from the first to the last. */
  method Lttb(time: seq<real>, values: seq<real>, nOut: nat)
    returns (shownTime: seq<real>, shownValues: seq<real>, ghost picks: seq<nat>)
    requires |time| == |values|
    ensures Increasing(picks) && forall k :: 0 <= k < |picks| ==> picks[k] < |time|
    ensures shownTime == Picked(time, picks) && shownValues == Picked(values, picks)
    ensures nOut >= |time| || nOut < 3 ==> shownTime == time && shownValues == values
    ensures 3 <= nOut < |time| ==> IsLttb(time, values, nOut, picks)
    ensures time != [] ==> picks != [] && picks[0] == 0 && picks[|picks| - 1] == |time| - 1
  {
    if nOut >= |time| || nOut < 3 {
      picks := seq(|time|, k => k);
      assert Picked(time, picks) == time && Picked(values, picks) == values;
      return time, values, picks;
    }
    BoundaryEnds(|time|, nOut);
    var kept: seq<nat> := [0];
    for i := 0 to nOut - 2
      invariant |kept| == i + 1 && kept[0] == 0 && kept[i] < |time|
      invariant forall k :: 0 <= k < i ==> PickOfBucket(time, values, nOut, k, kept[k], kept[k + 1])
    {
      BoundaryWithin(|time|, nOut, i);
      BoundaryWithin(|time|, nOut, i + 1);
      BoundariesGrow(|time|, nOut, i);
      BoundariesGrow(|time|, nOut, i + 1);
      var start, end, next := Boundary(|time|, nOut, i), Boundary(|time|, nOut, i + 1), NextEnd(|time|, nOut, i);
      var a := kept[i];
      var pick := FirstLargest(time, values, a, start, end, next);
      assert PickOfBucket(time, values, nOut, i, a, pick);
      kept := kept + [pick];
    }
    kept := kept + [|time| - 1];
    LttbIncreases(time, values, nOut, kept);
    return Picked(time, kept), Picked(values, kept), kept;
  }

  // ----- one name's samples -------------------------------------------------------------

  /** How many of `n` numbers `range(skip, n, stride)` yields. */
  function Count(n: nat, skip: nat, stride: nat): nat
    requires stride >= 1
  {
    if skip < n then (n - skip - 1) / stride + 1 else 0
  }

  /** The last of them. */
  function LastOf(n: nat, skip: nat, stride: nat): int
    requires stride >= 1
  {
    skip + (Count(n, skip, stride) - 1) * stride
  }

  lemma CountLast(n: nat, skip: nat, stride: nat)
    requires stride >= 1 && skip < n
    ensures skip + (Count(n, skip, stride) - 1) * stride < n <= skip + Count(n, skip, stride) * stride
    ensures Count(n, skip, stride) <= n
  {
    var d := n - skip - 1;
    assert d == stride * (d / stride) + d % stride;
    assert Count(n, skip, stride) * stride == stride * (d / stride) + stride;
    Times(1, stride, d / stride);
  }

  lemma Times(j: nat, k: nat, stride: nat)
    requires j <= k
    ensures j * stride <= k * stride
  {}

  /** `s[skip::stride]`. */
  function Every<T>(s: seq<T>, skip: nat, stride: nat): (kept: seq<T>)
    requires stride >= 1
    ensures |kept| == Count(|s|, skip, stride)
  {
    seq(Count(|s|, skip, stride), j requires 0 <= j < Count(|s|, skip, stride) =>
      CountLast(|s|, skip, stride); Times(j, Count(|s|, skip, stride) - 1, stride); s[skip + j * stride])
  }

  /** `held` is the history at the multiples of the stride. */
  ghost predicate IsStrided<T>(held: seq<T>, past: seq<T>, stride: nat)
  {
    forall k :: 0 <= k < |held| ==> k * stride < |past| && held[k] == past[k * stride]
  }

  lemma Split(held: nat, j: nat, stride: nat)
    ensures (held + j) * stride == held * stride + j * stride
  {}

  lemma EveryAt<T>(s: seq<T>, skip: nat, stride: nat, j: nat)
    requires stride >= 1 && j < |Every(s, skip, stride)|
    ensures 0 <= skip + j * stride < |s| && Every(s, skip, stride)[j] == s[skip + j * stride]
  {
    CountLast(|s|, skip, stride);
    Times(j, Count(|s|, skip, stride) - 1, stride);
  }

  lemma AddedAt<T>(held: seq<T>, past: seq<T>, kept: seq<T>, s: seq<T>, j: nat, at: nat, from: nat)
    requires j < |kept| && from < |s| && kept[j] == s[from] && at == |past| + from
    ensures at < |past + s| && (held + kept)[|held| + j] == (past + s)[at]
  {}

  /** More history, kept every stride from where the last one left off. */
  lemma AddedIsStrided<T>(held: seq<T>, past: seq<T>, stride: nat, skip: nat, s: seq<T>)
    requires stride >= 1 && IsStrided(held, past, stride) && |past| + skip == |held| * stride
    ensures IsStrided(held + Every(s, skip, stride), past + s, stride)
  {
    var kept := Every(s, skip, stride);
    hide Every;
    forall k | 0 <= k < |held| + |kept|
      ensures k * stride < |past + s| && (held + kept)[k] == (past + s)[k * stride]
    {
      if k >= |held| {
        var j := k - |held|;
        hide IsStrided;
        EveryAt(s, skip, stride, j);
        Split(|held|, j, stride);
        AddedAt(held, past, kept, s, j, k * stride, skip + j * stride);
      }
    }
  }

  /** Every second of them is the history at twice the stride. */
  lemma ThinnedIsStrided<T>(held: seq<T>, past: seq<T>, stride: nat)
    requires IsStrided(held, past, stride)
    ensures IsStrided(Every(held, 0, 2), past, 2 * stride)
  {
    var thin := Every(held, 0, 2);
    forall k | 0 <= k < |thin|
      ensures k * (2 * stride) < |past| && thin[k] == past[k * (2 * stride)]
    {
      CountLast(|held|, 0, 2);
      assert k * (2 * stride) == (0 + k * 2) * stride;
    }
  }

  /** What `add` holds next, from what it held: past the bound, half of it. */
  function HeldAfter(held: nat, added: nat, bound: nat): nat
  {
    if held + added > bound then (held + added + 1) / 2 else held + added
  }

  class SampleTrace {
    const bound: nat
    var time: seq<real>
    var values: seq<real>
    var taken: nat
    var stride: nat
    var skip: nat
    var newest: Option<(real, real)>
    var head: Option<(seq<real>, seq<real>)>
    var headOf: nat
    /** Everything ever handed in, which samples the head is, and the cap it was made for. */
    ghost var pastTime: seq<real>
    ghost var pastValues: seq<real>
    ghost var headPicks: seq<nat>
    ghost var headCap: nat

    ghost predicate Valid()
      reads this
    {
      Kept() && (head.Some? ==> headCap >= 4 && HeadIs(headCap))
    }

    /** What is held is the history at the multiples of the stride, the newest beside it. */
    ghost predicate Kept()
      reads this
    {
      && stride >= 1 && skip < stride
      && |time| == |values| && |pastTime| == |pastValues| == taken
      && taken + skip == |time| * stride
      && IsStrided(time, pastTime, stride) && IsStrided(values, pastValues, stride)
      && newest == (if taken == 0 || skip == stride - 1 then None else Some((pastTime[taken - 1], pastValues[taken - 1])))
    }

    /** The head is a drawing of the first `headOf` held samples, made for `cap`. */
    ghost predicate HeadIs(cap: nat)
      reads this
    {
      && head.Some? && 0 < headOf <= |time| == |values|
      && 0 < |headPicks| <= cap - cap / 4 && Increasing(headPicks)
      && (forall k :: 0 <= k < |headPicks| ==> headPicks[k] < headOf)
      && headPicks[|headPicks| - 1] == headOf - 1
      && head.value == (Picked(time, headPicks), Picked(values, headPicks))
    }

    constructor (bound: nat)
      ensures Valid() && this.bound == bound && pastTime == pastValues == [] && head.None?
    {
      this.bound := bound;
      time, values, taken, stride, skip, newest := [], [], 0, 1, 0, None;
      head, headOf := None, 0;
      pastTime, pastValues, headPicks, headCap := [], [], [], 0;
    }

    method Add(t: seq<real>, v: seq<real>)
      requires Valid() && |t| == |v|
      modifies this
      ensures Valid()
      ensures pastTime == old(pastTime) + t && pastValues == old(pastValues) + v
      ensures |time| == if t == [] then old(|time|) else HeldAfter(old(|time|), Count(|t|, old(skip), old(stride)), bound)
      ensures old(|time|) + Count(|t|, old(skip), old(stride)) <= bound ==>
                |time| == old(|time|) + Count(|t|, old(skip), old(stride)) && stride == old(stride)
      ensures head.None? || (head == old(head) && headCap == old(headCap))
    {
      if |t| == 0 {
        assert pastTime + t == pastTime && pastValues + v == pastValues;
        return;
      }
      ghost var moreT, moreV := Every(t, skip, stride), Every(v, skip, stride);
      if head.Some? {
        PickedOfLonger(time, moreT, headPicks);
        PickedOfLonger(values, moreV, headPicks);
      }
      Extend(t, v);
      if |time| > bound {
        Thin();
      }
    }

    method Extend(t: seq<real>, v: seq<real>)
      requires Kept() && |t| == |v| > 0
      modifies this`taken, this`time, this`values, this`skip, this`newest, this`pastTime, this`pastValues
      ensures Kept()
      ensures pastTime == old(pastTime) + t && pastValues == old(pastValues) + v
      ensures time == old(time) + Every(t, old(skip), stride) && values == old(values) + Every(v, old(skip), stride)
    {
      hide Count, LastOf, IsStrided, Picked, Increasing;
      var n := |t|;
      AddedIsStrided(time, pastTime, stride, skip, t);
      AddedIsStrided(values, pastValues, stride, skip, v);
      SkipAfter(|time|, taken, stride, skip, n);
      var count := Count(n, skip, stride);
      var lastKept, passOver := false, skip - n;
      if count > 0 {
        var last := LastOf(n, skip, stride);
        passOver := last + stride - n;
        lastKept := last == n - 1;
      }
      newest := if lastKept then None else Some((t[n - 1], v[n - 1]));
      time, values := time + Every(t, skip, stride), values + Every(v, skip, stride);
      taken, skip := taken + n, passOver;
      pastTime, pastValues := pastTime + t, pastValues + v;
    }

    /** Every second held sample goes, and the stride doubles for those to come. */
    method Thin()
      requires Kept() && time != []
      modifies this
      ensures Valid() && head.None? && pastTime == old(pastTime) && pastValues == old(pastValues)
      ensures |time| == (old(|time|) + 1) / 2 && stride == 2 * old(stride)
    {
      var odd := |time| % 2 == 1;
      var last := |time| - 1;
      assert last * stride == |time| * stride - stride;
      if !odd && newest.None? {
        newest := Some((time[last], values[last]));
      }
      ThinnedIsStrided(time, pastTime, stride);
      ThinnedIsStrided(values, pastValues, stride);
      HalfCount(|time|, stride);
      time, values := Every(time, 0, 2), Every(values, 0, 2);
      if odd {
        skip := skip + stride;
      }
      stride := 2 * stride;
      head := None;
    }

    /** Everything held, the newest sample last. */
    function Arrays(): (seq<real>, seq<real>)
      reads this
    {
      match newest
      case None => (time, values)
      case Some((t, v)) => (time + [t], values + [v])
    }

    lemma ArraysEndAtTheNewest()
      requires Valid() && taken > 0
      ensures var (t, v) := Arrays();
        t != [] && |t| == |v| && t[|t| - 1] == pastTime[taken - 1] && v[|v| - 1] == pastValues[taken - 1]
    {
      if newest.None? {
        assert (|time| - 1) * stride == |time| * stride - stride;
      }
    }

    method Decimate(cap: nat)
      requires Valid() && cap >= 4 && time != []
      modifies this`head, this`headOf, this`headPicks, this`headCap
      ensures Valid() && HeadIs(cap) && headCap == cap && headOf == |time|
    {
      hide IsStrided, IsLttb;
      ghost var chosen;
      var ht, hv;
      ht, hv, chosen := Lttb(time, values, cap - cap / 4);
      head, headOf, headPicks, headCap := Some((ht, hv)), |time|, chosen, cap;
    }

    /** At most `cap` of what is held, in order, ending at the newest. */
    method Drawn(cap: nat) returns (shownTime: seq<real>, shownValues: seq<real>, ghost picks: seq<nat>)
      requires Valid() && cap >= 4 && (head.None? || headCap == cap)
      modifies this`head, this`headOf, this`headPicks, this`headCap
      ensures Valid() && (head.None? || headCap == cap)
      ensures |picks| <= cap && Increasing(picks) && forall k :: 0 <= k < |picks| ==> picks[k] < |Arrays().0|
      ensures shownTime == Picked(Arrays().0, picks) && |Arrays().1| == |Arrays().0| && shownValues == Picked(Arrays().1, picks)
      ensures taken > 0 ==> picks != [] && picks[|picks| - 1] == |Arrays().0| - 1
      ensures |Arrays().0| <= cap ==> shownTime == Arrays().0 && shownValues == Arrays().1
    {
      hide IsStrided, IsLttb, Picked, Increasing, From;
      var (t, v) := Arrays();
      if |t| <= cap {
        picks := From(0, |t|);
        AllPicked(t);
        AllPicked(v);
        return t, v, picks;
      }
      var keep := cap - cap / 4;
      if head.None? || |t| - headOf > cap - keep {
        Decimate(cap);
      }
      picks := headPicks + From(headOf, |t|);
      RestEnds(headPicks, headOf, |t|);
      HeadAndRest(time, t, headPicks, headOf);
      HeadAndRest(values, v, headPicks, headOf);
      shownTime, shownValues := head.value.0 + t[headOf..], head.value.1 + v[headOf..];
    }
  }

  /** The new skip keeps the count exact; a sample is newest and kept together when it is the last one due. */
  lemma SkipAfter(held: nat, taken: nat, stride: nat, skip: nat, n: nat)
    requires stride >= 1 && skip < stride && n > 0 && taken + skip == held * stride
    ensures Count(n, skip, stride) > 0 <==> skip < n
    ensures skip >= n ==> taken + n + (skip - n) == held * stride
    ensures skip < n ==>
      var last := LastOf(n, skip, stride);
      && n <= last + stride < n + stride
      && taken + n + (last + stride - n) == (held + Count(n, skip, stride)) * stride
  {
    if skip < n {
      CountLast(n, skip, stride);
      var count := Count(n, skip, stride);
      assert (count - 1) * stride == count * stride - stride;
      assert (held + count) * stride == held * stride + count * stride;
    }
  }

  lemma PickedOfLonger<T>(s: seq<T>, more: seq<T>, picks: seq<nat>)
    requires forall k :: 0 <= k < |picks| ==> picks[k] < |s|
    ensures Picked(s + more, picks) == Picked(s, picks)
  {}

  function From(lo: nat, hi: nat): seq<nat>
    requires lo <= hi
  {
    seq(hi - lo, k requires 0 <= k < hi - lo => lo + k)
  }

  lemma AllPicked<T>(s: seq<T>)
    ensures Increasing(From(0, |s|)) && |From(0, |s|)| == |s| && forall k :: 0 <= k < |s| ==> From(0, |s|)[k] == k
    ensures Picked(s, From(0, |s|)) == s
  {}

  lemma RestEnds(picks: seq<nat>, headOf: nat, n: nat)
    requires headOf <= n && picks != [] && picks[|picks| - 1] == headOf - 1
    requires forall k :: 0 <= k < |picks| ==> picks[k] < headOf
    ensures var all := picks + From(headOf, n);
      |all| == |picks| + n - headOf && all[|all| - 1] == n - 1 && forall k :: 0 <= k < |all| ==> all[k] < n
  {}

  /** A decimated head and everything after it are a drawing of the whole. */
  lemma HeadAndRest<T>(held: seq<T>, all: seq<T>, picks: seq<nat>, headOf: nat)
    requires held <= all && headOf <= |held| && Increasing(picks)
    requires forall k :: 0 <= k < |picks| ==> picks[k] < headOf
    ensures Increasing(picks + From(headOf, |all|))
    ensures Picked(all, picks + From(headOf, |all|)) == Picked(held, picks) + all[headOf..]
  {}

  lemma HalfCount(n: nat, stride: nat)
    ensures Count(n, 0, 2) == (n + 1) / 2
    ensures n % 2 == 0 ==> (n + 1) / 2 * (2 * stride) == n * stride
    ensures n % 2 == 1 ==> (n + 1) / 2 * (2 * stride) == n * stride + stride
  {
    var h := (n + 1) / 2;
    if n % 2 == 0 {
      assert n == 2 * h;
    } else {
      assert n + 1 == 2 * h;
      assert (n + 1) * stride == n * stride + stride;
    }
    assert h * (2 * stride) == (2 * h) * stride;
  }

  /**
   * The bound is kept exactly when no more than twice of it comes together: a
   * trace is thinned once an `add`, however much one brings.
   */
  lemma BoundKeptIff(held: nat, added: nat, bound: nat)
    ensures HeldAfter(held, added, bound) <= bound <==> held + added <= 2 * bound
  {}

  /** So it is kept by every batch no larger than the bound. */
  lemma BatchWithinBoundKeepsIt(held: nat, n: nat, skip: nat, stride: nat, bound: nat)
    requires stride >= 1 && held <= bound && n <= bound
    ensures HeldAfter(held, Count(n, skip, stride), bound) <= bound
  {
    if skip < n { CountLast(n, skip, stride); }
  }

  /** And not by every batch: five samples at once into an empty trace of two leave three. */
  lemma LargeBatchPassesTheBound()
    ensures HeldAfter(0, Count(5, 0, 1), 2) == 3
  {}

  // ----- every name of one run ---------------------------------------------------------------

  /** One poll's findings: the run it read, and each name's samples since the last poll. */
  datatype Snapshot = Snapshot(run: int, series: map<string, (seq<real>, seq<real>)>)

  class LiveTrace {
    const bound: nat
    var run: Option<int>
    var names: map<string, SampleTrace>
    var moved: set<string>

    ghost predicate Valid()
      reads this`names, names.Values
    {
      && (forall n :: n in names ==> names[n].Valid() && names[n].bound == bound)
      && (forall m, n :: m in names && n in names && names[m] == names[n] ==> m == n)
    }

    /** Each name with every sample handed in for it since the run began. */
    ghost function History(): map<string, seq<real>>
      reads this`names, names.Values
    {
      map n | n in names :: names[n].pastTime
    }

    constructor (bound: nat)
      ensures Valid() && this.bound == bound && History() == map[] && run == None
    {
      this.bound, run, names, moved := bound, None, map[], {};
    }

    /** A name has its samples from its first series on. */
    method Name(name: string)
      requires Valid()
      modifies this`names
      ensures Valid() && name in names
      ensures forall n :: n in old(names) ==> n in names && names[n] == old(names[n])
      ensures forall n :: n in names ==> (n in old(names) || (n == name && fresh(names[n])))
      ensures History() == old(History())[name := Past(old(History()), name)]
    {
      hide SampleTrace.Kept, SampleTrace.HeadIs;
      if name !in names {
        var made := new SampleTrace(bound);
        names := names[name := made];
      }
    }

    method TakeSeries(name: string, t: seq<real>, v: seq<real>)
      requires Valid() && |t| == |v| && name in names
      modifies this`moved, names[name]
      ensures Valid() && History() == old(History())[name := old(History())[name] + t]
      ensures moved == old(moved) + if t == [] then {} else {name}
    {
      hide SampleTrace.Kept, SampleTrace.HeadIs;
      ghost var held := names[name].pastTime;
      assert held + [] == held;
      if t != [] {
        names[name].Add(t, v);
        moved := moved + {name};
      }
      forall n | n in names && n != name
        ensures names[n].pastTime == old(names[n].pastTime) && names[n].Valid()
      {
        assert names[n] != names[name];
      }
    }

    method TakeName(name: string, t: seq<real>, v: seq<real>)
      requires Valid() && |t| == |v|
      modifies this`names, this`moved, names.Values
      ensures Valid() && names.Values <= old(names.Values) + set n | n in names && fresh(names[n]) :: names[n]
      ensures History() == old(History())[name := Past(old(History()), name) + t]
      ensures moved == old(moved) + if t == [] then {} else {name}
    {
      hide SampleTrace.Valid;
      Name(name);
      TakeSeries(name, t, v);
    }

    /** Each name's history is that of this run alone, the snapshot's samples last: another run drops every sample first. */
    method Take(s: Snapshot)
      requires Valid() && forall n :: n in s.series ==> |s.series[n].0| == |s.series[n].1|
      modifies this, names.Values
      ensures Valid() && run == Some(s.run)
      ensures History() == Taken(if old(run) == Some(s.run) then old(History()) else map[], s.series, s.series.Keys)
      ensures moved == MovedIn(s.series, s.series.Keys)
    {
      hide SampleTrace.Valid, Taken;
      ghost var base := if run == Some(s.run) then History() else map[];
      if run != Some(s.run) {
        run := Some(s.run);
        names := map[];
      }
      moved := {};
      assert History() == base;
      TakeAll(s.series);
    }

    method TakeAll(series: map<string, (seq<real>, seq<real>)>)
      requires Valid() && moved == {} && forall n :: n in series ==> |series[n].0| == |series[n].1|
      modifies this`names, this`moved, names.Values
      ensures Valid() && History() == Taken(old(History()), series, series.Keys) && run == old(run)
      ensures moved == MovedIn(series, series.Keys)
    {
      hide Valid, History, Taken, MovedIn, Past;
      ghost var base := History();
      var done: set<string> := {};
      NothingTaken(base, series);
      assert MovedIn(series, done) == {} by { NothingMoved(series); }
      while done != series.Keys
        invariant done <= series.Keys && Valid() && run == old(run)
        invariant forall o :: o in names.Values ==> o in old(names.Values) || fresh(o)
        invariant History() == Taken(base, series, done)
        invariant moved == MovedIn(series, done)
        decreases |series.Keys - done|
      {
        var name :| name in series.Keys - done;
        TakenOneMore(base, series, done, name);
        TakeName(name, series[name].0, series[name].1);
        MovedOneMore(series, done, name);
        assert series.Keys - (done + {name}) < series.Keys - done;
        done := done + {name};
      }
    }
  }

  /** The names of which the snapshot has samples. */
  function MovedIn(series: map<string, (seq<real>, seq<real>)>, done: set<string>): set<string>
    requires done <= series.Keys
  {
    set n | n in done && series[n].0 != []
  }

  lemma NothingMoved(series: map<string, (seq<real>, seq<real>)>)
    ensures MovedIn(series, {}) == {}
  {}

  lemma MovedOneMore(series: map<string, (seq<real>, seq<real>)>, done: set<string>, name: string)
    requires done <= series.Keys && name in series
    ensures MovedIn(series, done + {name}) == MovedIn(series, done) + if series[name].0 == [] then {} else {name}
  {}

  lemma NothingTaken(h: map<string, seq<real>>, series: map<string, (seq<real>, seq<real>)>)
    ensures Taken(h, series, {}) == h
  {
    forall n | n in h
      ensures Taken(h, series, {})[n] == h[n]
    {
      assert h[n] + [] == h[n];
    }
  }

  function Past(h: map<string, seq<real>>, name: string): seq<real>
  {
    if name in h then h[name] else []
  }

  /** The history with the samples of some of the snapshot's names. */
  function Taken(h: map<string, seq<real>>, series: map<string, (seq<real>, seq<real>)>, done: set<string>): map<string, seq<real>>
    requires done <= series.Keys
  {
    map n | n in h.Keys + done :: Past(h, n) + if n in done then series[n].0 else []
  }

  lemma TakenOneMore(h: map<string, seq<real>>, series: map<string, (seq<real>, seq<real>)>, done: set<string>, name: string)
    requires done <= series.Keys && name in series && name !in done
    ensures Taken(h, series, done + {name}) == Taken(h, series, done)[name := Past(Taken(h, series, done), name) + series[name].0]
  {
    assert Past(h, name) + [] == Past(h, name);
    assert Past(Taken(h, series, done), name) == Past(h, name);
  }
}
