/** Which criteria trees pass: the evaluator's rule, and the static reading of which nodes can never fail. */
module Verdicts {
  import opened Common
  import opened Tree

  function Count(bs: seq<bool>): nat
  {
    if bs == [] then 0 else (if bs[0] then 1 else 0) + Count(bs[1..])
  }

  // ----- the evaluator -----------------------------------------------------------------------

  /** A node's verdict, and its score if it has one. */
  datatype Result = Result(passed: bool, score: Option<real>)

  /** What a run makes of each criterion. */
  type Outcome = nat -> Result

  /** A weighted sum's threshold, and the side of it that passes. */
  datatype Terms = Terms(threshold: real, less: bool)

  /** The terms, read off what else a node holds. */
  type Reader = string -> Terms

  function Evaluate(n: Node, read: Reader, o: Outcome): Result
  {
    match n
    case Leaf(id, _) => o(id)
    case Group(_, comb, k, weights, rest, kids) => Combine(comb, k, weights, read(rest), Results(kids, read, o))
  }

  function Results(kids: seq<Node>, read: Reader, o: Outcome): (r: seq<Result>)
    ensures |r| == |kids|
  {
    if kids == [] then [] else [Evaluate(kids[0], read, o)] + Results(kids[1..], read, o)
  }

  function Combine(comb: Comb, k: Option<int>, weights: Option<seq<real>>, terms: Terms, c: seq<Result>): Result
  {
    match comb
    case And => Result(false !in Passed(c), Worst(Scores(c)))
    case Or => Result(true in Passed(c), Best(Scores(c)))
    case KOfN => Result(k.Some? && Count(Passed(c)) >= k.value, if k.Some? then KthBest(k.value, Descending(Scores(c))) else None)
    case Warn => Result(true, None)
    case Weighted =>
      if weights.None? || |weights.value| != |c| || |Scores(c)| != |c| then Result(false, None)
      else
        var sum := WeightedSum(weights.value, Scores(c));
        Result(if terms.less then sum < terms.threshold else sum > terms.threshold, Some(sum))
  }

  function Passed(c: seq<Result>): (r: seq<bool>)
    ensures |r| == |c| && forall i :: 0 <= i < |c| ==> r[i] == c[i].passed
  {
    if c == [] then [] else [c[0].passed] + Passed(c[1..])
  }

  /** The scores there are. */
  function Scores(c: seq<Result>): (r: seq<real>)
    ensures |r| <= |c|
  {
    if c == [] then [] else (if c[0].score.Some? then [c[0].score.value] else []) + Scores(c[1..])
  }

  function Worst(scores: seq<real>): (r: Option<real>)
    ensures r.Some? <==> scores != []
    ensures r.Some? ==> r.value in scores && forall x :: x in scores ==> r.value <= x
  {
    if scores == [] then None
    else
      var rest := Worst(scores[1..]);
      assert scores == [scores[0]] + scores[1..];
      if rest.Some? && rest.value < scores[0] then rest else Some(scores[0])
  }

  function Best(scores: seq<real>): (r: Option<real>)
    ensures r.Some? <==> scores != []
    ensures r.Some? ==> r.value in scores && forall x :: x in scores ==> x <= r.value
  {
    if scores == [] then None
    else
      var rest := Best(scores[1..]);
      assert scores == [scores[0]] + scores[1..];
      if rest.Some? && rest.value > scores[0] then rest else Some(scores[0])
  }

  function Descending(scores: seq<real>): seq<real>
  {
    if scores == [] then [] else PutDown(scores[0], Descending(scores[1..]))
  }

  function PutDown(x: real, sorted: seq<real>): seq<real>
  {
    if sorted == [] || x >= sorted[0] then [x] + sorted else [sorted[0]] + PutDown(x, sorted[1..])
  }

  predicate Falling(s: seq<real>)
  {
    forall i, j :: 0 <= i < j < |s| ==> s[i] >= s[j]
  }

  lemma {:induction false} PutDownHolds(x: real, sorted: seq<real>)
    ensures multiset(PutDown(x, sorted)) == multiset(sorted) + multiset{x}
    ensures forall y :: y in PutDown(x, sorted) <==> y in sorted || y == x
  {
    if sorted != [] {
      assert sorted == [sorted[0]] + sorted[1..];
      PutDownHolds(x, sorted[1..]);
    }
  }

  lemma {:induction false} PutDownFalls(x: real, sorted: seq<real>)
    requires Falling(sorted)
    ensures Falling(PutDown(x, sorted))
  {
    if sorted != [] && x < sorted[0] {
      var rest := PutDown(x, sorted[1..]);
      PutDownFalls(x, sorted[1..]);
      PutDownHolds(x, sorted[1..]);
      forall j | 0 <= j < |rest|
        ensures sorted[0] >= rest[j]
      {
        assert rest[j] in rest;
      }
    }
  }

  /** The same scores, the best first. */
  lemma {:induction false} DescendingIs(scores: seq<real>)
    ensures multiset(Descending(scores)) == multiset(scores) && Falling(Descending(scores))
  {
    if scores != [] {
      assert scores == [scores[0]] + scores[1..];
      DescendingIs(scores[1..]);
      PutDownHolds(scores[0], Descending(scores[1..]));
      PutDownFalls(scores[0], Descending(scores[1..]));
    }
  }

  function KthBest(k: int, sorted: seq<real>): Option<real>
  {
    if sorted == [] then None
    else if k <= 0 then Some(sorted[0])
    else Some(sorted[if k <= |sorted| then k - 1 else |sorted| - 1])
  }

  function WeightedSum(weights: seq<real>, scores: seq<real>): real
    requires |weights| == |scores|
  {
    if weights == [] then 0.0 else weights[0] * scores[0] + WeightedSum(weights[1..], scores[1..])
  }

  // ----- the static reading --------------------------------------------------------------------

  /** Can this node never fail, whatever its criteria score? */
  predicate AlwaysPasses(n: Node)
  {
    n.Group? &&
    match n.comb
    case Warn => true
    case And => n.kids != [] && false !in Sure(n.kids)
    case Or => true in Sure(n.kids)
    case KOfN => n.k.Some? && Count(Sure(n.kids)) >= n.k.value
    case Weighted => false
  }

  function Sure(kids: seq<Node>): (r: seq<bool>)
    ensures |r| == |kids|
    ensures forall i :: 0 <= i < |kids| ==> r[i] == AlwaysPasses(kids[i])
  {
    if kids == [] then [] else [AlwaysPasses(kids[0])] + Sure(kids[1..])
  }

  predicate AtMost(a: seq<bool>, b: seq<bool>)
  {
    |a| == |b| && forall i :: 0 <= i < |a| && a[i] ==> b[i]
  }

  lemma {:induction false} CountGrows(a: seq<bool>, b: seq<bool>)
    requires AtMost(a, b)
    ensures Count(a) <= Count(b)
  {
    if a != [] {
      assert AtMost(a[1..], b[1..]);
      CountGrows(a[1..], b[1..]);
    }
  }

  /** Sound: a node read as one that can never fail passes under every outcome. */
  lemma {:induction false} AlwaysPassesPasses(n: Node, read: Reader, o: Outcome)
    requires AlwaysPasses(n)
    ensures Evaluate(n, read, o).passed
    decreases n, 0
  {
    SurePasses(n.kids, read, o);
    CountGrows(Sure(n.kids), Passed(Results(n.kids, read, o)));
    hide Worst, Best, Scores, Descending, KthBest, WeightedSum, Count;
  }

  lemma {:induction false} SurePasses(kids: seq<Node>, read: Reader, o: Outcome)
    ensures AtMost(Sure(kids), Passed(Results(kids, read, o)))
    decreases kids, 1
  {
    if kids != [] {
      if AlwaysPasses(kids[0]) {
        AlwaysPassesPasses(kids[0], read, o);
      }
      SurePasses(kids[1..], read, o);
      assert Results(kids, read, o)[1..] == Results(kids[1..], read, o);
      assert Sure(kids)[1..] == Sure(kids[1..]);
      hide Evaluate, AlwaysPasses;
    }
  }

  /** Nothing passes, nothing has a score. */
  const ALL_FAIL: Outcome := _ => Result(false, None)

  predicate Scoreless(c: seq<Result>)
  {
    forall i :: 0 <= i < |c| ==> c[i].score.None?
  }

  lemma {:induction false} NoScores(c: seq<Result>)
    requires Scoreless(c)
    ensures Scores(c) == []
  {
    if c != [] {
      NoScores(c[1..]);
    }
  }

  /** A group of children without scores has none, and a weighted sum of them is undefined: it fails. */
  lemma CombineScoreless(comb: Comb, k: Option<int>, weights: Option<seq<real>>, terms: Terms, c: seq<Result>)
    requires Scoreless(c) && c != []
    ensures Combine(comb, k, weights, terms, c).score.None?
    ensures comb == Weighted ==> !Combine(comb, k, weights, terms, c).passed
  {
    NoScores(c);
  }

  /** When no criterion passes or has a score, exactly the nodes read as sure pass. */
  lemma {:induction false} AllFailing(ks: seq<Node>, read: Reader)
    requires Well(ks)
    ensures Passed(Results(ks, read, ALL_FAIL)) == Sure(ks) && Scoreless(Results(ks, read, ALL_FAIL))
  {
    if ks != [] {
      var head, c := ks[0], Results(ks, read, ALL_FAIL);
      assert c[1..] == Results(ks[1..], read, ALL_FAIL);
      if head.Group? {
        AllFailing(head.kids, read);
        assert head.kids != [];
        CombineScoreless(head.comb, head.k, head.weights, read(head.rest), Results(head.kids, read, ALL_FAIL));
      }
      AllFailing(ks[1..], read);
      hide Scores, Worst, Best, Descending, KthBest, WeightedSum, Count;
    }
  }

  /** Sound and complete on a well-formed tree: the reading is exactly "passes whatever the outcome". */
  lemma AlwaysPassesIff(n: Node, read: Reader)
    requires Well([n])
    ensures AlwaysPasses(n) <==> forall o: Outcome :: Evaluate(n, read, o).passed
  {
    if AlwaysPasses(n) {
      forall o: Outcome
        ensures Evaluate(n, read, o).passed
      {
        AlwaysPassesPasses(n, read, o);
      }
    } else {
      AllFailing([n], read);
      assert Results([n], read, ALL_FAIL)[0] == Evaluate(n, read, ALL_FAIL);
      assert Sure([n])[0] == AlwaysPasses(n);
      assert !Evaluate(n, read, ALL_FAIL).passed;
    }
  }

  // ----- when every criterion has a score ----------------------------------------------------------

  /** Every criterion has a number. */
  ghost predicate Scored(o: Outcome)
  {
    forall id :: o(id).score.Some?
  }

  predicate NoWeighted(ks: seq<Node>)
  {
    ks != [] ==> (ks[0].Group? ==> ks[0].comb != Weighted && NoWeighted(ks[0].kids)) && NoWeighted(ks[1..])
  }

  const ALL_FAIL_SCORED: Outcome := _ => Result(false, Some(0.0))

  lemma {:induction false} AllFailingScored(ks: seq<Node>, read: Reader)
    requires Well(ks) && NoWeighted(ks)
    ensures Passed(Results(ks, read, ALL_FAIL_SCORED)) == Sure(ks)
  {
    if ks != [] {
      var head, c := ks[0], Results(ks, read, ALL_FAIL_SCORED);
      assert c[1..] == Results(ks[1..], read, ALL_FAIL_SCORED);
      if head.Group? {
        AllFailingScored(head.kids, read);
        assert head.kids != [];
      }
      AllFailingScored(ks[1..], read);
      hide Scores, Worst, Best, Descending, KthBest, WeightedSum, Count;
    }
  }

  /** Then too the reading is exact, where there is no `weighted`. */
  lemma ScoredIff(n: Node, read: Reader)
    requires Well([n]) && NoWeighted([n])
    ensures AlwaysPasses(n) <==> forall o: Outcome :: Scored(o) ==> Evaluate(n, read, o).passed
  {
    if AlwaysPasses(n) {
      forall o: Outcome | Scored(o)
        ensures Evaluate(n, read, o).passed
      {
        AlwaysPassesPasses(n, read, o);
      }
    } else {
      AllFailingScored([n], read);
      assert Results([n], read, ALL_FAIL_SCORED)[0] == Evaluate(n, read, ALL_FAIL_SCORED);
      assert Sure([n])[0] == AlwaysPasses(n);
      assert Scored(ALL_FAIL_SCORED) && !Evaluate(n, read, ALL_FAIL_SCORED).passed;
    }
  }

  predicate AllZero(weights: seq<real>)
  {
    forall i :: 0 <= i < |weights| ==> weights[i] == 0.0
  }

  /** The sum of nothing is on the side that passes. */
  predicate ZeroPasses(terms: Terms)
  {
    if terms.less then 0.0 < terms.threshold else 0.0 > terms.threshold
  }

  /** A `weighted` of criteria alone. */
  ghost predicate OfCriteria(n: Node)
  {
    && n.Group? && n.comb == Weighted && Well([n]) && (forall i :: 0 <= i < |n.kids| ==> n.kids[i].Leaf?)
    && (forall i, j :: 0 <= i < j < |n.kids| ==> n.kids[i].id != n.kids[j].id)
  }

  /** The score `x` for one criterion and none to speak of for the rest. */
  function Only(id: nat, x: real): Outcome
  {
    k => Result(false, Some(if k == id then x else 0.0))
  }

  lemma {:induction false} LeafScores(kids: seq<Node>, read: Reader, o: Outcome)
    requires Scored(o) && forall i :: 0 <= i < |kids| ==> kids[i].Leaf?
    ensures var r := Scores(Results(kids, read, o));
      |r| == |kids| && forall i :: 0 <= i < |kids| ==> r[i] == o(kids[i].id).score.value
  {
    if kids != [] {
      LeafScores(kids[1..], read, o);
      assert Results(kids, read, o)[1..] == Results(kids[1..], read, o);
    }
  }

  lemma {:induction false} ZeroSum(weights: seq<real>, scores: seq<real>)
    requires |weights| == |scores| && forall i :: 0 <= i < |weights| ==> weights[i] == 0.0 || scores[i] == 0.0
    ensures WeightedSum(weights, scores) == 0.0
  {
    if weights != [] {
      ZeroSum(weights[1..], scores[1..]);
    }
  }

  lemma {:induction false} OneSum(weights: seq<real>, scores: seq<real>, j: nat)
    requires |weights| == |scores| && j < |weights| && forall i :: 0 <= i < |weights| && i != j ==> scores[i] == 0.0
    ensures WeightedSum(weights, scores) == weights[j] * scores[j]
  {
    if j == 0 {
      ZeroSum(weights[1..], scores[1..]);
    } else {
      OneSum(weights[1..], scores[1..], j - 1);
    }
  }

  /** A `weighted` of criteria is never read as sure; with a number for each it is, exactly when it weighs nothing and nothing passes. */
  lemma WeightedScoredIff(n: Node, read: Reader)
    requires OfCriteria(n)
    ensures !AlwaysPasses(n)
    ensures (forall o: Outcome :: Scored(o) ==> Evaluate(n, read, o).passed) <==> AllZero(n.weights.value) && ZeroPasses(read(n.rest))
  {
    var weights, terms := n.weights.value, read(n.rest);
    assert Well([n]) ==> |weights| == |n.kids|;
    if AllZero(weights) {
      forall o: Outcome | Scored(o)
        ensures Evaluate(n, read, o).passed == ZeroPasses(terms)
      {
        LeafScores(n.kids, read, o);
        ZeroSum(weights, Scores(Results(n.kids, read, o)));
      }
      assert Scored(ALL_FAIL_SCORED);
    } else {
      var j :| 0 <= j < |weights| && weights[j] != 0.0;
      FailsAtThreshold(n, read, j);
    }
  }

  lemma FailsAtThreshold(n: Node, read: Reader, j: nat)
    requires OfCriteria(n) && j < |n.weights.value| == |n.kids| && n.weights.value[j] != 0.0
    ensures exists o: Outcome :: Scored(o) && !Evaluate(n, read, o).passed
  {
    var weights, terms := n.weights.value, read(n.rest);
    var x := terms.threshold / weights[j];
    var o := Only(n.kids[j].id, x);
    assert Scored(o);
    LeafScores(n.kids, read, o);
    var scores := Scores(Results(n.kids, read, o));
    OneSum(weights, scores, j);
    assert weights[j] * x == terms.threshold;
    assert !Evaluate(n, read, o).passed;
  }

  /** A node sure of passing under an `or` makes it pass; under a `k-of-n` it is one of the `k` at no cost. */
  lemma FreePassPasses(parent: Node, i: nat, read: Reader, o: Outcome)
    requires parent.Group? && i < |parent.kids| && AlwaysPasses(parent.kids[i])
    ensures parent.comb == Or ==> Evaluate(parent, read, o).passed
    ensures parent.comb == KOfN && parent.k == Some(1) ==> Evaluate(parent, read, o).passed
  {
    SurePasses(parent.kids, read, o);
    assert Sure(parent.kids)[i];
    var v := Passed(Results(parent.kids, read, o));
    assert v[i];
    CountsOne(v, i);
  }

  lemma {:induction false} CountsOne(bs: seq<bool>, i: nat)
    requires i < |bs| && bs[i]
    ensures Count(bs) >= 1
  {
    if i > 0 {
      CountsOne(bs[1..], i - 1);
    }
  }

  /** An empty `and` is where the reading and the evaluator part: the parser refuses one. */
  lemma EmptyAndParts(id: nat, read: Reader, o: Outcome)
    ensures var n := Group(id, And, None, None, "", []);
      Evaluate(n, read, o).passed && !AlwaysPasses(n) && !Well([n])
  {}

  // ----- free passes ---------------------------------------------------------------------------

  /** Every pair of an `or` or `k-of-n` and a child of it that can never fail. */
  function FreePasses(ks: seq<Node>): set<(nat, nat)>
  {
    if ks == [] then {}
    else
      (if ks[0].Group? then FreeUnder(ks[0]) + FreePasses(ks[0].kids) else {}) + FreePasses(ks[1..])
  }

  function FreeUnder(n: Node): set<(nat, nat)>
    requires n.Group?
  {
    if n.comb == Or || n.comb == KOfN then set i | 0 <= i < |n.kids| && AlwaysPasses(n.kids[i]) :: (n.id, n.kids[i].id)
    else {}
  }

  /** The pairs, read one by one. */
  lemma {:induction false} FreePassIff(ks: seq<Node>, parent: nat, child: nat)
    requires Unique(ks)
    ensures (parent, child) in FreePasses(ks) <==>
            && parent in Ids(ks)
            && var p := Find(ks, parent).value;
               p.Group? && (p.comb == Or || p.comb == KOfN) && exists i :: 0 <= i < |p.kids| && p.kids[i].id == child && AlwaysPasses(p.kids[i])
  {
    if ks != [] {
      Headed(ks);
      FindHeaded(ks, parent);
      FreePassIff(ks[1..], parent, child);
      if ks[0].Group? {
        FreePassIff(ks[0].kids, parent, child);
      }
      FreePassOwner(ks[1..], parent, child);
      if ks[0].Group? {
        FreePassOwner(ks[0].kids, parent, child);
      }
    }
  }

  lemma {:induction false} FreePassOwner(ks: seq<Node>, parent: nat, child: nat)
    ensures (parent, child) in FreePasses(ks) ==> parent in Ids(ks)
  {
    if ks != [] {
      FreePassOwner(ks[1..], parent, child);
      if ks[0].Group? {
        FreePassOwner(ks[0].kids, parent, child);
      }
    }
  }
}
