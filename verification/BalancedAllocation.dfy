/** The balanced-allocation score over real numbers, with the square root as a parameter. */
module BalancedAllocation {
  const MAX_NODE_SCORE := 100.0

  ghost predicate IsSquareRoot(sqrt: real -> real) {
    forall x: real :: x >= 0.0 ==> sqrt(x) >= 0.0 && sqrt(x) * sqrt(x) == x
  }

  function Fraction(requested: int, allocable: int): real
    requires allocable != 0
  {
    var fraction := requested as real / allocable as real;
    if fraction > 1.0 then 1.0 else fraction
  }

  function Fractions(requested: seq<int>, allocable: seq<int>): seq<real>
    requires |requested| == |allocable|
  {
    if requested == [] then [] else
      var n := |requested| - 1;
      var init := Fractions(requested[..n], allocable[..n]);
      if allocable[n] == 0 then init else init + [Fraction(requested[n], allocable[n])]
  }

  function Total(xs: seq<real>): real {
    if xs == [] then 0.0 else Total(xs[..|xs| - 1]) + xs[|xs| - 1]
  }

  function Mean(xs: seq<real>): real
    requires xs != []
  {
    Total(xs) / |xs| as real
  }

  /** The sum of the squared distances from m. */
  function Spread(xs: seq<real>, m: real): real {
    if xs == [] then 0.0 else Spread(xs[..|xs| - 1], m) + (xs[|xs| - 1] - m) * (xs[|xs| - 1] - m)
  }

  function Variance(xs: seq<real>): real
    requires xs != []
  {
    Spread(xs, Mean(xs)) / |xs| as real
  }

  function Abs(x: real): real {
    if x < 0.0 then -x else x
  }

  function Deviation(xs: seq<real>, sqrt: real -> real): real {
    if |xs| == 2 then Abs((xs[0] - xs[1]) / 2.0)
    else if |xs| > 2 then sqrt(Variance(xs))
    else 0.0
  }

  /** Go's conversion to an integer drops the fractional part. */
  function Trunc(x: real): int {
    if x < 0.0 then -((-x).Floor) else x.Floor
  }

  function BalancedScore(xs: seq<real>, sqrt: real -> real): int {
    Trunc((1.0 - Deviation(xs, sqrt)) * MAX_NODE_SCORE)
  }

  method CollectFractions(requested: seq<int>, allocable: seq<int>) returns (fractions: seq<real>, totalFraction: real)
    requires |requested| == |allocable|
    ensures fractions == Fractions(requested, allocable) && totalFraction == Total(fractions)
  {
    hide Fraction;
    fractions, totalFraction := [], 0.0;
    for i := 0 to |requested|
      invariant fractions == Fractions(requested[..i], allocable[..i])
      invariant totalFraction == Total(fractions)
    {
      assert requested[..i + 1][..i] == requested[..i] && allocable[..i + 1][..i] == allocable[..i];
      if allocable[i] != 0 {
        var fraction := Fraction(requested[i], allocable[i]);
        totalFraction := totalFraction + fraction;
        assert (fractions + [fraction])[..|fractions|] == fractions;
        fractions := fractions + [fraction];
      }
    }
    assert requested[..|requested|] == requested && allocable[..|requested|] == allocable;
  }

  method SumOfSquares(fractions: seq<real>, mean: real) returns (sum: real)
    ensures sum == Spread(fractions, mean)
  {
    sum := 0.0;
    for i := 0 to |fractions|
      invariant sum == Spread(fractions[..i], mean)
    {
      assert fractions[..i + 1][..i] == fractions[..i];
      sum := sum + (fractions[i] - mean) * (fractions[i] - mean);
    }
    assert fractions[..|fractions|] == fractions;
  }

  method BalancedResourceScorer(requested: seq<int>, allocable: seq<int>, sqrt: real -> real) returns (score: int)
    requires |requested| == |allocable|
    ensures score == BalancedScore(Fractions(requested, allocable), sqrt)
  {
    hide Fractions, Total, Spread, Trunc;
    var fractions, totalFraction := CollectFractions(requested, allocable);
    var std := 0.0;
    if |fractions| == 2 {
      std := Abs((fractions[0] - fractions[1]) / 2.0);
    } else if |fractions| > 2 {
      var mean := totalFraction / |fractions| as real;
      var sum := SumOfSquares(fractions, mean);
      std := sqrt(sum / |fractions| as real);
    }
    score := Trunc((1.0 - std) * MAX_NODE_SCORE);
  }

  // ---------------------------------------------------------------- properties

  predicate Unit(xs: seq<real>) {
    forall i :: 0 <= i < |xs| ==> 0.0 <= xs[i] <= 1.0
  }

  lemma {:induction false} FractionsAreUnit(requested: seq<int>, allocable: seq<int>)
    requires |requested| == |allocable|
    requires forall i :: 0 <= i < |requested| ==> requested[i] >= 0 && allocable[i] >= 0
    ensures Unit(Fractions(requested, allocable))
  {
    if requested != [] {
      var n := |requested| - 1;
      FractionsAreUnit(requested[..n], allocable[..n]);
      if allocable[n] != 0 {
        QuotientNonNegative(requested[n] as real, allocable[n] as real);
      }
    }
  }

  lemma QuotientNonNegative(a: real, b: real)
    requires a >= 0.0 && b > 0.0
    ensures a / b >= 0.0
  {
  }

  lemma QuotientTimes(a: real, b: real)
    requires b != 0.0
    ensures (a / b) * b == a
  {
  }

  lemma ProductPositive(a: real, b: real)
    ensures a > 0.0 && b > 0.0 ==> a * b > 0.0
  {
  }

  lemma ProductNonNegative(a: real, b: real)
    requires a >= 0.0 && b >= 0.0
    ensures a * b >= 0.0
  {
  }

  lemma NamedProductPositive(a: real, b: real, product: real)
    requires product == a * b
    ensures a > 0.0 && b > 0.0 ==> product > 0.0
  {
  }

  lemma SameSquare(x: real, y: real, square: real)
    requires y == -x && square == x * x
    ensures square == y * y
  {
  }

  lemma Square(x: real, square: real)
    requires square == x * x
    ensures square >= 0.0
    ensures square == 0.0 <==> x == 0.0
  {
    var y := -x;
    SameSquare(x, y, square);
    NamedProductPositive(x, x, square);
    NamedProductPositive(y, y, square);
    if x == 0.0 {
      assert square == 0.0;
    } else {
      assert x > 0.0 || y > 0.0;
    }
  }

  lemma Distribute(a: real, b: real, k: real)
    ensures (a + b) * k == a * k + b * k
    ensures (a - b) * k == a * k - b * k
  {
  }

  lemma SquareOfUnit(x: real, m: real, k: real, q: real)
    requires 0.0 <= x <= 1.0 && k == 1.0 - 2.0 * m && q == m * m
    ensures (x - m) * (x - m) <= x * k + q
  {
    ProductNonNegative(x, 1.0 - x);
    assert x * (1.0 - x) == x - x * x;
    assert (x - m) * (x - m) == x * x - 2.0 * (m * x) + m * m;
    assert x * k == x - 2.0 * (m * x);
  }

  lemma SpreadStep(spread: real, square: real, total: real, x: real, k: real, n: real, q: real)
    requires spread <= total * k + n * q && square <= x * k + q
    ensures spread + square <= (total + x) * k + (n + 1.0) * q
  {
    Distribute(total, x, k);
    Distribute(n, 1.0, q);
  }

  lemma {:induction false} SpreadBound(xs: seq<real>, m: real)
    requires Unit(xs)
    ensures Spread(xs, m) <= Total(xs) * (1.0 - 2.0 * m) + |xs| as real * (m * m)
  {
    if xs != [] {
      var n := |xs| - 1;
      var init, x := xs[..n], xs[n];
      SpreadBound(init, m);
      var k, q := 1.0 - 2.0 * m, m * m;
      SquareOfUnit(x, m, k, q);
      assert |init| as real == n as real && |xs| as real == n as real + 1.0;
      SpreadStep(Spread(init, m), (x - m) * (x - m), Total(init), x, k, n as real, q);
    } else {
      Distribute(0.0, 0.0, 1.0 - 2.0 * m);
    }
  }

  lemma {:induction false} SpreadNonNegative(xs: seq<real>, m: real)
    ensures Spread(xs, m) >= 0.0
    ensures Spread(xs, m) == 0.0 <==> forall i :: 0 <= i < |xs| ==> xs[i] == m
  {
    if xs != [] {
      var n := |xs| - 1;
      var init, square := xs[..n], (xs[n] - m) * (xs[n] - m);
      SpreadNonNegative(init, m);
      Square(xs[n] - m, square);
      assert Spread(xs, m) == Spread(init, m) + square;
      assert (forall i :: 0 <= i < |xs| ==> xs[i] == m) <==> (forall i :: 0 <= i < n ==> init[i] == m) && xs[n] == m;
    }
  }

  lemma QuarterBound(total: real, n: real, m: real)
    requires total == m * n && n > 0.0
    ensures total * (1.0 - 2.0 * m) + n * (m * m) <= n * 0.25
  {
    Square(m - 0.5, (m - 0.5) * (m - 0.5));
    assert (m - 0.5) * (m - 0.5) == m * m - m + 0.25;
    ProductNonNegative(n, m * m - m + 0.25);
    assert n * (m * m - m + 0.25) == n * (m * m) - n * m + n * 0.25;
    assert total * (1.0 - 2.0 * m) == n * m - 2.0 * (n * (m * m));
  }

  /** However many fractions of the unit interval there are, their variance is at most a quarter. */
  lemma VarianceBound(xs: seq<real>)
    requires xs != [] && Unit(xs)
    ensures 0.0 <= Variance(xs) <= 0.25
  {
    hide Total, Spread, Unit;
    var n, m := |xs| as real, Mean(xs);
    SpreadBound(xs, m);
    SpreadNonNegative(xs, m);
    QuotientTimes(Total(xs), n);
    QuarterBound(Total(xs), n, m);
    Quotients(Spread(xs, m), n, 0.25);
  }

  lemma Quotients(a: real, b: real, c: real)
    requires b > 0.0 && 0.0 <= a <= b * c
    ensures 0.0 <= a / b <= c
  {
    QuotientTimes(a, b);
    ProductPositive(a / b - c, b);
    Distribute(a / b, c, b);
  }

  lemma RootIsUnique(x: real, y: real)
    requires x >= 0.0 && y >= 0.0 && x * x == y * y
    ensures x == y
  {
    assert (x - y) * (x + y) == x * x - y * y;
    assert (y - x) * (x + y) == y * y - x * x;
    ProductPositive(y - x, x + y);
    ProductPositive(x - y, x + y);
  }

  /** The shortcut for two resources, and 0 for one, are the general formula. */
  lemma ShortcutIsDeviation(xs: seq<real>, sqrt: real -> real)
    requires xs != [] && IsSquareRoot(sqrt)
    ensures Deviation(xs, sqrt) == sqrt(Variance(xs))
  {
    SpreadNonNegative(xs, Mean(xs));
    QuotientNonNegative(Spread(xs, Mean(xs)), |xs| as real);
    if |xs| == 1 {
      SingleVariance(xs);
      Square(sqrt(0.0), 0.0);
    } else if |xs| == 2 {
      PairVariance(xs);
      RootIsUnique(Deviation(xs, sqrt), sqrt(Variance(xs)));
    }
  }

  lemma SingleVariance(xs: seq<real>)
    requires |xs| == 1
    ensures Variance(xs) == 0.0
  {
    hide Total, Spread;
    var m := Mean(xs);
    LastStep(xs, [], xs[0], m);
    Empty(m);
    assert m == xs[0];
    Square(xs[0] - m, (xs[0] - m) * (xs[0] - m));
  }

  lemma LastStep(xs: seq<real>, init: seq<real>, last: real, m: real)
    requires xs == init + [last]
    ensures Total(xs) == Total(init) + last
    ensures Spread(xs, m) == Spread(init, m) + (last - m) * (last - m)
  {
    assert xs[..|xs| - 1] == init;
  }

  lemma PairVariance(xs: seq<real>)
    requires |xs| == 2
    ensures Variance(xs) == ((xs[0] - xs[1]) / 2.0) * ((xs[0] - xs[1]) / 2.0)
  {
    hide Total, Spread;
    var a, b, m := xs[0], xs[1], Mean(xs);
    LastStep([a], [], a, m);
    LastStep(xs, [a], b, m);
    Empty(m);
    var h := (a - b) / 2.0;
    assert m == (a + b) / 2.0;
    assert a - m == h && b - m == -h;
    SameSquare(h, -h, h * h);
    assert Spread(xs, m) == h * h + h * h;
  }

  lemma Empty(m: real)
    ensures Total([]) == 0.0 && Spread([], m) == 0.0
  {
  }

  lemma HalfRoot(d: real)
    requires d >= 0.0 && d * d <= 0.25
    ensures d <= 0.5
  {
    ProductPositive(d - 0.5, d + 0.5);
    assert (d - 0.5) * (d + 0.5) == d * d - 0.25;
  }

  lemma DeviationBound(xs: seq<real>, sqrt: real -> real)
    requires Unit(xs) && IsSquareRoot(sqrt)
    ensures 0.0 <= Deviation(xs, sqrt) <= 0.5
  {
    if |xs| > 2 {
      VarianceBound(xs);
      HalfRoot(sqrt(Variance(xs)));
    }
  }

  /** The score always lies in 50..100, and it is 100 exactly if all resources are used to the same degree. */
  lemma BalancedScoreRange(xs: seq<real>, sqrt: real -> real)
    requires Unit(xs) && IsSquareRoot(sqrt)
    ensures 50 <= BalancedScore(xs, sqrt) <= 100
    ensures BalancedScore(xs, sqrt) == 100 <==> forall i, j :: 0 <= i < |xs| && 0 <= j < |xs| ==> xs[i] == xs[j]
  {
    DeviationBound(xs, sqrt);
    var d := Deviation(xs, sqrt);
    assert BalancedScore(xs, sqrt) == 100 <==> d == 0.0;
    if xs != [] {
      ShortcutIsDeviation(xs, sqrt);
      ZeroDeviation(xs, sqrt);
    }
  }

  lemma ZeroDeviation(xs: seq<real>, sqrt: real -> real)
    requires xs != [] && IsSquareRoot(sqrt)
    ensures sqrt(Variance(xs)) == 0.0 <==> forall i, j :: 0 <= i < |xs| && 0 <= j < |xs| ==> xs[i] == xs[j]
  {
    var n, m := |xs| as real, Mean(xs);
    SpreadNonNegative(xs, m);
    QuotientNonNegative(Spread(xs, m), n);
    QuotientTimes(Spread(xs, m), n);
    Square(sqrt(Variance(xs)), Variance(xs));
    if forall i, j :: 0 <= i < |xs| && 0 <= j < |xs| ==> xs[i] == xs[j] {
      MeanOfEqual(xs);
      assert Variance(xs) == 0.0;
    }
  }

  lemma {:induction false} TotalOfEqual(xs: seq<real>, x: real)
    requires forall i :: 0 <= i < |xs| ==> xs[i] == x
    ensures Total(xs) == |xs| as real * x
  {
    if xs != [] {
      TotalOfEqual(xs[..|xs| - 1], x);
    }
  }

  lemma MeanOfEqual(xs: seq<real>)
    requires xs != [] && forall i, j :: 0 <= i < |xs| && 0 <= j < |xs| ==> xs[i] == xs[j]
    ensures forall i :: 0 <= i < |xs| ==> xs[i] == Mean(xs)
  {
    TotalOfEqual(xs, xs[0]);
  }

  // ---------------------------------------------------------------- the score and the deviation

  /** A fraction is the requested share of what there is, and 1 if more is requested. */
  lemma FractionIsShare(requested: int, allocable: int)
    requires requested >= 0 && allocable > 0
    ensures requested <= allocable ==> Fraction(requested, allocable) * allocable as real == requested as real
    ensures requested > allocable ==> Fraction(requested, allocable) == 1.0
  {
    var r, a := requested as real, allocable as real;
    var q := r / a;
    QuotientTimes(r, a);
    assert q * a == r;
    ProductPositive(q - 1.0, a);
    ProductPositive(1.0 - q, a);
    Distribute(q, 1.0, a);
    Distribute(1.0, q, a);
  }

  /** The score is what the standard deviation leaves of 100 points, rounded down. */
  lemma ScoreIsRoundedDeviation(xs: seq<real>, sqrt: real -> real)
    requires xs != [] && Unit(xs) && IsSquareRoot(sqrt)
    ensures var score, rest := BalancedScore(xs, sqrt) as real, 100.0 * (1.0 - sqrt(Variance(xs)));
            score <= rest < score + 1.0
  {
    DeviationBound(xs, sqrt);
    ShortcutIsDeviation(xs, sqrt);
    hide Variance, Deviation;
  }

  lemma RootGrows(x: real, y: real, sqrt: real -> real)
    requires 0.0 <= x <= y && IsSquareRoot(sqrt)
    ensures sqrt(x) <= sqrt(y)
  {
    var a, b := sqrt(x), sqrt(y);
    assert a >= 0.0 && a * a == x && b >= 0.0 && b * b == y;
    hide IsSquareRoot;
    NamedProductPositive(a - b, a + b, x - y);
  }

  /** The more evenly the resources are used, the higher the score. */
  lemma LessSpreadScoresHigher(xs: seq<real>, ys: seq<real>, sqrt: real -> real)
    requires xs != [] && ys != [] && Unit(xs) && Unit(ys) && IsSquareRoot(sqrt)
    requires Variance(xs) <= Variance(ys)
    ensures BalancedScore(xs, sqrt) >= BalancedScore(ys, sqrt)
  {
    VarianceBound(xs);
    RootGrows(Variance(xs), Variance(ys), sqrt);
    ScoreIsRoundedDeviation(xs, sqrt);
    ScoreIsRoundedDeviation(ys, sqrt);
    hide BalancedScore, Variance;
  }
}
