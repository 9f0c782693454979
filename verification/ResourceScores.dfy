/** The least-allocated and most-allocated scores, and the plugin's bonus for nodes that need no reconfiguration. */
module ResourceScores {
  import opened Arithmetic
  import opened Common
  import opened Fit

  const MAX_NODE_SCORE := 100

  datatype Strategy = LeastAllocated | MostAllocated

  /** Go's integer division truncates toward zero. */
  function GoDiv(a: int, b: int): int
    requires b != 0
  {
    if (a >= 0) == (b > 0) then Abs(a) / Abs(b) else -(Abs(a) / Abs(b))
  }

  /** The quotient is the one whose product is nearest to a on the side of zero. */
  lemma GoDivTruncates(a: int, b: int)
    requires b > 0
    ensures a >= 0 ==> GoDiv(a, b) * b <= a < (GoDiv(a, b) + 1) * b
    ensures a < 0 ==> (GoDiv(a, b) - 1) * b < a <= GoDiv(a, b) * b
  {
    var q := Abs(a) / b;
    QuotientBounds(Abs(a), b);
    if a < 0 {
      assert GoDiv(a, b) == -q;
      assert (-q) * b == -(q * b) && (-q - 1) * b == -((q + 1) * b);
    }
  }

  function Abs(x: int): nat {
    if x < 0 then -x else x
  }

  function LeastRequestedScore(requested: int, capacity: int): int {
    if capacity == 0 || requested > capacity then 0 else GoDiv((capacity - requested) * MAX_NODE_SCORE, capacity)
  }

  function MostRequestedScore(requested: int, capacity: int): int {
    if capacity == 0 then 0
    else GoDiv((if requested > capacity then capacity else requested) * MAX_NODE_SCORE, capacity)
  }

  function RequestedScore(strategy: Strategy, requested: int, capacity: int): int {
    if strategy.LeastAllocated? then LeastRequestedScore(requested, capacity) else MostRequestedScore(requested, capacity)
  }

  /** Weighted score and weight of the resources the node has. */
  datatype Totals = Totals(score: int, weight: int)

  function Sum(strategy: Strategy, requested: seq<int>, allocable: seq<int>, weights: seq<int>): Totals
    requires |requested| == |allocable| == |weights|
  {
    if requested == [] then Totals(0, 0) else
      var n := |requested| - 1;
      var init := Sum(strategy, requested[..n], allocable[..n], weights[..n]);
      if allocable[n] == 0 then init
      else Totals(init.score + RequestedScore(strategy, requested[n], allocable[n]) * weights[n], init.weight + weights[n])
  }

  function Score(strategy: Strategy, requested: seq<int>, allocable: seq<int>, weights: seq<int>): int
    requires |requested| == |allocable| == |weights|
  {
    var t := Sum(strategy, requested, allocable, weights);
    if t.weight == 0 then 0 else GoDiv(t.score, t.weight)
  }

  lemma PrefixStep(requested: seq<int>, allocable: seq<int>, weights: seq<int>, i: nat)
    requires |requested| == |allocable| == |weights| && i < |requested|
    ensures requested[..i + 1][..i] == requested[..i] && allocable[..i + 1][..i] == allocable[..i]
            && weights[..i + 1][..i] == weights[..i]
  {
  }

  method LeastResourceScorer(requested: seq<int>, allocable: seq<int>, weights: seq<int>) returns (score: int)
    requires |requested| == |allocable| == |weights|
    ensures score == Score(LeastAllocated, requested, allocable, weights)
  {
    hide LeastRequestedScore, GoDiv;
    var nodeScore, weightSum := 0, 0;
    for i := 0 to |requested|
      invariant Totals(nodeScore, weightSum) == Sum(LeastAllocated, requested[..i], allocable[..i], weights[..i])
    {
      PrefixStep(requested, allocable, weights, i);
      if allocable[i] != 0 {
        var resourceScore := LeastRequestedScore(requested[i], allocable[i]);
        nodeScore := nodeScore + resourceScore * weights[i];
        weightSum := weightSum + weights[i];
      }
    }
    assert requested[..|requested|] == requested && allocable[..|requested|] == allocable && weights[..|requested|] == weights;
    score := if weightSum == 0 then 0 else GoDiv(nodeScore, weightSum);
  }

  method MostResourceScorer(requested: seq<int>, allocable: seq<int>, weights: seq<int>) returns (score: int)
    requires |requested| == |allocable| == |weights|
    ensures score == Score(MostAllocated, requested, allocable, weights)
  {
    hide MostRequestedScore, GoDiv;
    var nodeScore, weightSum := 0, 0;
    for i := 0 to |requested|
      invariant Totals(nodeScore, weightSum) == Sum(MostAllocated, requested[..i], allocable[..i], weights[..i])
    {
      PrefixStep(requested, allocable, weights, i);
      if allocable[i] != 0 {
        var resourceScore := MostRequestedScore(requested[i], allocable[i]);
        nodeScore := nodeScore + resourceScore * weights[i];
        weightSum := weightSum + weights[i];
      }
    }
    assert requested[..|requested|] == requested && allocable[..|requested|] == allocable && weights[..|requested|] == weights;
    score := if weightSum == 0 then 0 else GoDiv(nodeScore, weightSum);
  }

  // ---------------------------------------------------------------- arithmetic

  /** 100 times the requested share, split into quotient and remainder. */
  lemma Shares(requested: int, capacity: int)
    requires 0 <= requested <= capacity && capacity > 0
    ensures var q, t := (100 * requested) / capacity, (100 * requested) % capacity;
            && MostRequestedScore(requested, capacity) == q
            && LeastRequestedScore(requested, capacity) == (if t == 0 then 100 - q else 99 - q)
            && 0 <= q <= 100 && (t != 0 ==> q <= 99)
  {
    var q, t := (100 * requested) / capacity, (100 * requested) % capacity;
    assert 100 * requested == q * capacity + t;
    var rest := (capacity - requested) * MAX_NODE_SCORE;
    assert rest == (100 - q) * capacity - t;
    if t == 0 {
      QuotientIs(rest, capacity, 100 - q);
    } else {
      assert (99 - q) * capacity == (100 - q) * capacity - capacity;
      QuotientIs(rest, capacity, 99 - q);
    }
    QuotientMonotone(0, 100 * requested, capacity);
    QuotientMonotone(100 * requested, 100 * capacity, capacity);
    QuotientIs(100 * capacity, capacity, 100);
  }

  /** The two scores of one resource complement each other, up to one point lost to rounding. */
  lemma LeastMostDuality(requested: int, capacity: int)
    requires requested >= 0 && capacity > 0
    ensures var sum := LeastRequestedScore(requested, capacity) + MostRequestedScore(requested, capacity);
            && (sum == 99 || sum == 100)
            && (sum == 100 <==> requested > capacity || (100 * requested) % capacity == 0)
  {
    if requested <= capacity {
      Shares(requested, capacity);
    } else {
      QuotientIs(capacity * MAX_NODE_SCORE, capacity, 100);
    }
  }

  lemma ScoreInRange(strategy: Strategy, requested: int, capacity: int)
    requires requested >= 0 && capacity >= 0
    ensures 0 <= RequestedScore(strategy, requested, capacity) <= 100
  {
    if capacity > 0 {
      if requested <= capacity {
        Shares(requested, capacity);
      } else {
        QuotientIs(capacity * MAX_NODE_SCORE, capacity, 100);
      }
    }
  }

  predicate NonNegatives(xs: seq<int>) {
    forall i :: 0 <= i < |xs| ==> xs[i] >= 0
  }

  predicate Positives(xs: seq<int>) {
    forall i :: 0 <= i < |xs| ==> xs[i] > 0
  }

  /** A well-posed scoring problem: what a node has, what is asked of it, and how much each resource matters. */
  predicate Proper(requested: seq<int>, allocable: seq<int>, weights: seq<int>) {
    |requested| == |allocable| == |weights| && NonNegatives(requested) && NonNegatives(allocable) && Positives(weights)
  }

  lemma {:induction false} SumBounds(strategy: Strategy, requested: seq<int>, allocable: seq<int>, weights: seq<int>)
    requires Proper(requested, allocable, weights)
    ensures var t := Sum(strategy, requested, allocable, weights);
            0 <= t.weight && 0 <= t.score <= 100 * t.weight
  {
    hide RequestedScore;
    if requested != [] {
      var n := |requested| - 1;
      SumBounds(strategy, requested[..n], allocable[..n], weights[..n]);
      ScoreInRange(strategy, requested[n], allocable[n]);
      ProductOrder(0, RequestedScore(strategy, requested[n], allocable[n]), weights[n]);
      ProductOrder(RequestedScore(strategy, requested[n], allocable[n]), 100, weights[n]);
    }
  }

  lemma NodeScoreInRange(strategy: Strategy, requested: seq<int>, allocable: seq<int>, weights: seq<int>)
    requires Proper(requested, allocable, weights)
    ensures 0 <= Score(strategy, requested, allocable, weights) <= 100
  {
    SumBounds(strategy, requested, allocable, weights);
    var t := Sum(strategy, requested, allocable, weights);
    if t.weight > 0 {
      QuotientMonotone(0, t.score, t.weight);
      QuotientMonotone(t.score, 100 * t.weight, t.weight);
      QuotientIs(100 * t.weight, t.weight, 100);
      QuotientIs(0, t.weight, 0);
    }
  }

  lemma {:induction false} SumsComplement(requested: seq<int>, allocable: seq<int>, weights: seq<int>)
    requires Proper(requested, allocable, weights)
    ensures var l, m := Sum(LeastAllocated, requested, allocable, weights), Sum(MostAllocated, requested, allocable, weights);
            && l.weight == m.weight
            && 99 * l.weight <= l.score + m.score <= 100 * l.weight
            && (l.weight > 0 <==> exists i :: 0 <= i < |allocable| && allocable[i] != 0)
  {
    hide LeastRequestedScore, MostRequestedScore;
    if requested != [] {
      var n := |requested| - 1;
      SumsComplement(requested[..n], allocable[..n], weights[..n]);
      SumBounds(LeastAllocated, requested[..n], allocable[..n], weights[..n]);
      if allocable[n] != 0 {
        LeastMostDuality(requested[n], allocable[n]);
        var x, y := LeastRequestedScore(requested[n], allocable[n]), MostRequestedScore(requested[n], allocable[n]);
        assert x * weights[n] + y * weights[n] == (x + y) * weights[n];
        ProductOrder(99, x + y, weights[n]);
        ProductOrder(x + y, 100, weights[n]);
      } else {
        assert (exists i :: 0 <= i < |allocable| && allocable[i] != 0)
          <==> (exists i :: 0 <= i < n && allocable[..n][i] != 0);
      }
    }
  }

  /** For whole nodes, two roundings can cost two points. */
  lemma NodeScoresComplement(requested: seq<int>, allocable: seq<int>, weights: seq<int>)
    requires Proper(requested, allocable, weights)
    requires exists i :: 0 <= i < |allocable| && allocable[i] != 0
    ensures 98 <= Score(LeastAllocated, requested, allocable, weights) + Score(MostAllocated, requested, allocable, weights) <= 100
  {
    SumsComplement(requested, allocable, weights);
    SumBounds(LeastAllocated, requested, allocable, weights);
    SumBounds(MostAllocated, requested, allocable, weights);
    var l, m := Sum(LeastAllocated, requested, allocable, weights), Sum(MostAllocated, requested, allocable, weights);
    FloorsAdd(l.score, m.score, l.weight);
  }

  lemma FloorsAdd(a: int, b: int, w: int)
    requires w > 0 && 99 * w <= a + b <= 100 * w
    ensures 98 <= a / w + b / w <= 100
  {
    var p, q := a / w, b / w;
    assert p * w <= a < (p + 1) * w && q * w <= b < (q + 1) * w;
    assert (p + q) * w <= 100 * w < (101) * w;
    assert 99 * w < (p + q + 2) * w;
    if p + q > 100 {
      ProductOrder(101, p + q, w);
    }
    if p + q < 98 {
      ProductOrder(p + q + 2, 99, w);
    }
  }

  /** The bound 98 is reached. */
  lemma TwoPointsCanBeLost()
    ensures Proper([1, 1, 1], [3, 3, 7], [1, 1, 1])
    ensures Score(LeastAllocated, [1, 1, 1], [3, 3, 7], [1, 1, 1]) + Score(MostAllocated, [1, 1, 1], [3, 3, 7], [1, 1, 1]) == 98
  {
    var r, a, w := [1, 1, 1], [3, 3, 7], [1, 1, 1];
    assert r[..2] == [1, 1] && r[..2][..1] == [1] && r[..2][..1][..0] == [];
    assert a[..2] == [3, 3] && a[..2][..1] == [3] && a[..2][..1][..0] == [];
    assert w[..2] == [1, 1] && w[..2][..1] == [1] && w[..2][..1][..0] == [];
    assert Sum(LeastAllocated, [1], [3], [1]) == Totals(66, 1);
    assert Sum(MostAllocated, [1], [3], [1]) == Totals(33, 1);
    assert Sum(LeastAllocated, [1, 1], [3, 3], [1, 1]) == Totals(132, 2);
    assert Sum(MostAllocated, [1, 1], [3, 3], [1, 1]) == Totals(66, 2);
  }

  lemma RequestedScoreMonotone(requested: int, more: int, capacity: int)
    requires 0 <= requested <= more && capacity >= 0
    ensures MostRequestedScore(requested, capacity) <= MostRequestedScore(more, capacity)
    ensures LeastRequestedScore(more, capacity) <= LeastRequestedScore(requested, capacity)
  {
    if capacity > 0 {
      var clamped := if more > capacity then capacity else more;
      var clamped' := if requested > capacity then capacity else requested;
      QuotientMonotone(clamped' * MAX_NODE_SCORE, clamped * MAX_NODE_SCORE, capacity);
      ScoreInRange(LeastAllocated, requested, capacity);
      if more <= capacity {
        QuotientMonotone((capacity - more) * MAX_NODE_SCORE, (capacity - requested) * MAX_NODE_SCORE, capacity);
      }
    }
  }

  lemma {:induction false} SumsMonotone(requested: seq<int>, more: seq<int>, allocable: seq<int>, weights: seq<int>)
    requires Proper(requested, allocable, weights) && Proper(more, allocable, weights)
    requires forall i :: 0 <= i < |requested| ==> requested[i] <= more[i]
    ensures forall s: Strategy :: Sum(s, requested, allocable, weights).weight == Sum(s, more, allocable, weights).weight
    ensures Sum(MostAllocated, requested, allocable, weights).score <= Sum(MostAllocated, more, allocable, weights).score
    ensures Sum(LeastAllocated, more, allocable, weights).score <= Sum(LeastAllocated, requested, allocable, weights).score
  {
    hide LeastRequestedScore, MostRequestedScore;
    if requested != [] {
      var n := |requested| - 1;
      SumsMonotone(requested[..n], more[..n], allocable[..n], weights[..n]);
      RequestedScoreMonotone(requested[n], more[n], allocable[n]);
      ProductOrder(MostRequestedScore(requested[n], allocable[n]), MostRequestedScore(more[n], allocable[n]), weights[n]);
      ProductOrder(LeastRequestedScore(more[n], allocable[n]), LeastRequestedScore(requested[n], allocable[n]), weights[n]);
    }
  }

  /** The more is requested, the higher the most-allocated score and the lower the least-allocated score. */
  lemma NodeScoresMonotone(requested: seq<int>, more: seq<int>, allocable: seq<int>, weights: seq<int>)
    requires Proper(requested, allocable, weights) && Proper(more, allocable, weights)
    requires forall i :: 0 <= i < |requested| ==> requested[i] <= more[i]
    ensures Score(MostAllocated, requested, allocable, weights) <= Score(MostAllocated, more, allocable, weights)
    ensures Score(LeastAllocated, more, allocable, weights) <= Score(LeastAllocated, requested, allocable, weights)
  {
    SumsMonotone(requested, more, allocable, weights);
    SumBounds(MostAllocated, requested, allocable, weights);
    SumBounds(MostAllocated, more, allocable, weights);
    SumBounds(LeastAllocated, requested, allocable, weights);
    SumBounds(LeastAllocated, more, allocable, weights);
    var w := Sum(MostAllocated, requested, allocable, weights).weight;
    if w > 0 {
      QuotientMonotone(Sum(MostAllocated, requested, allocable, weights).score, Sum(MostAllocated, more, allocable, weights).score, w);
    }
    var v := Sum(LeastAllocated, requested, allocable, weights).weight;
    if v > 0 {
      QuotientMonotone(Sum(LeastAllocated, more, allocable, weights).score, Sum(LeastAllocated, requested, allocable, weights).score, v);
    }
  }

  // ---------------------------------------------------------------- what a weight is

  function Copies(x: int, n: nat): (r: seq<int>)
    ensures |r| == n && forall i :: 0 <= i < n ==> r[i] == x
  {
    if n == 0 then [] else Copies(x, n - 1) + [x]
  }

  lemma SumAppend(strategy: Strategy, requested: seq<int>, allocable: seq<int>, weights: seq<int>, r: int, c: int, w: int)
    requires |requested| == |allocable| == |weights|
    ensures var before := Sum(strategy, requested, allocable, weights);
            Sum(strategy, requested + [r], allocable + [c], weights + [w])
            == if c == 0 then before else Totals(before.score + RequestedScore(strategy, r, c) * w, before.weight + w)
  {
    hide RequestedScore;
    assert (requested + [r])[..|requested|] == requested && (allocable + [c])[..|requested|] == allocable
           && (weights + [w])[..|requested|] == weights;
  }

  lemma {:induction false} SumOfCopies(strategy: Strategy, requested: seq<int>, allocable: seq<int>, weights: seq<int>,
                                       r: int, c: int, n: nat)
    requires |requested| == |allocable| == |weights|
    ensures Sum(strategy, requested + Copies(r, n), allocable + Copies(c, n), weights + Copies(1, n))
            == Sum(strategy, requested + [r], allocable + [c], weights + [n])
  {
    hide RequestedScore, Sum;
    SumAppend(strategy, requested, allocable, weights, r, c, n);
    if n == 0 {
      assert requested + [] == requested && allocable + [] == allocable && weights + [] == weights;
    } else {
      SumOfCopies(strategy, requested, allocable, weights, r, c, n - 1);
      SumAppend(strategy, requested, allocable, weights, r, c, n - 1);
      SumAppend(strategy, requested + Copies(r, n - 1), allocable + Copies(c, n - 1), weights + Copies(1, n - 1), r, c, 1);
      assert requested + Copies(r, n) == requested + Copies(r, n - 1) + [r];
      assert allocable + Copies(c, n) == allocable + Copies(c, n - 1) + [c];
      assert weights + Copies(1, n) == weights + Copies(1, n - 1) + [1];
      MulStep(RequestedScore(strategy, r, c), n - 1);
    }
  }

  /** A resource of weight n scores like n resources of weight 1 with the same numbers. */
  lemma WeightIsCopies(strategy: Strategy, requested: seq<int>, allocable: seq<int>, weights: seq<int>, r: int, c: int, n: nat)
    requires |requested| == |allocable| == |weights|
    ensures Score(strategy, requested + Copies(r, n), allocable + Copies(c, n), weights + Copies(1, n))
            == Score(strategy, requested + [r], allocable + [c], weights + [n])
  {
    SumOfCopies(strategy, requested, allocable, weights, r, c, n);
  }

  /** One resource alone scores the same whatever its weight. */
  lemma SingleResourceScore(strategy: Strategy, requested: int, capacity: int, weight: int)
    requires requested >= 0 && capacity > 0 && weight > 0
    ensures Score(strategy, [requested], [capacity], [weight]) == RequestedScore(strategy, requested, capacity)
  {
    ScoreInRange(strategy, requested, capacity);
    SumAppend(strategy, [], [], [], requested, capacity, weight);
    assert [] + [requested] == [requested] && [] + [capacity] == [capacity] && [] + [weight] == [weight];
    var score := RequestedScore(strategy, requested, capacity);
    hide RequestedScore;
    ProductOrder(0, score, weight);
    QuotientIs(score * weight, weight, score);
  }
}
