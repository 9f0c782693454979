/** Normalisation of the node scores in place, and what becomes of the bonus for nodes that are ready. */
module NormalizeScore {
  import opened Arithmetic
  import opened Common
  import opened Text
  import opened Fit
  import opened ResourceScores

  datatype NodeScore = NodeScore(name: string, score: int64)

  function Min(scores: seq<NodeScore>): int64 {
    if scores == [] then MAX_INT64 else
      var init, last := Min(scores[..|scores| - 1]), scores[|scores| - 1].score;
      if last < init then last else init
  }

  function Max(scores: seq<NodeScore>): int64 {
    if scores == [] then MIN_INT64 else
      var init, last := Max(scores[..|scores| - 1]), scores[|scores| - 1].score;
      if last > init then last else init
  }

  /** One score, given the extremes. */
  function Rescaled(score: int, min: int, max: int): int
  {
    if max > min then 100 * (score - min) / (max - min) else 0
  }

  method GetMinMaxScores(scores: seq<NodeScore>) returns (min: int64, max: int64)
    ensures min == Min(scores) && max == Max(scores)
  {
    max, min := MIN_INT64, MAX_INT64;
    for i := 0 to |scores|
      invariant min == Min(scores[..i]) && max == Max(scores[..i])
    {
      assert scores[..i + 1][..i] == scores[..i];
      if scores[i].score > max {
        max := scores[i].score;
      }
      if scores[i].score < min {
        min := scores[i].score;
      }
    }
    assert scores[..|scores|] == scores;
  }

  /** The extremes are attained and bound every score. */
  lemma {:induction false} Extremes(scores: seq<NodeScore>)
    ensures forall i :: 0 <= i < |scores| ==> Min(scores) <= scores[i].score <= Max(scores)
    ensures scores != [] ==> exists i :: 0 <= i < |scores| && scores[i].score == Min(scores)
    ensures scores != [] ==> exists i :: 0 <= i < |scores| && scores[i].score == Max(scores)
  {
    if scores != [] {
      var init, n := scores[..|scores| - 1], |scores| - 1;
      Extremes(init);
      assert forall i :: 0 <= i < n ==> init[i] == scores[i];
      if init != [] {
        var i :| 0 <= i < |init| && init[i].score == Min(init);
        var k :| 0 <= k < |init| && init[k].score == Max(init);
        assert scores[i].score == Min(init) && scores[k].score == Max(init);
      }
      assert scores[n].score == Min(scores) || Min(init) == Min(scores);
      assert scores[n].score == Max(scores) || Max(init) == Max(scores);
    }
  }

  /** The extremes are determined by being attained bounds. */
  lemma ExtremesAre(scores: seq<NodeScore>, min: int, max: int)
    requires scores != []
    requires forall i :: 0 <= i < |scores| ==> min <= scores[i].score <= max
    requires exists i :: 0 <= i < |scores| && scores[i].score == min
    requires exists i :: 0 <= i < |scores| && scores[i].score == max
    ensures Min(scores) == min && Max(scores) == max
  {
    Extremes(scores);
  }

  lemma RescaledInRange(score: int, min: int, max: int)
    requires min <= score <= max
    ensures 0 <= Rescaled(score, min, max) <= 100
    ensures max > min ==> Rescaled(min, min, max) == 0 && Rescaled(max, min, max) == 100
  {
    if max > min {
      QuotientMonotone(0, 100 * (score - min), max - min);
      QuotientMonotone(100 * (score - min), 100 * (max - min), max - min);
      QuotientIs(100 * (max - min), max - min, 100);
      QuotientIs(0, max - min, 0);
    }
  }

  function RescaleAll(scores: seq<NodeScore>, min: int, max: int): (r: seq<NodeScore>)
    requires forall i :: 0 <= i < |scores| ==> min <= scores[i].score <= max
    ensures |r| == |scores|
    ensures forall i :: 0 <= i < |scores| ==> r[i].name == scores[i].name && r[i].score == Rescaled(scores[i].score, min, max)
  {
    if scores == [] then [] else
      var last := scores[|scores| - 1];
      RescaledInRange(last.score, min, max);
      RescaleAll(scores[..|scores| - 1], min, max) + [NodeScore(last.name, Rescaled(last.score, min, max))]
  }

  function Normalized(scores: seq<NodeScore>): seq<NodeScore> {
    Extremes(scores);
    if Min(scores) == 0 == Max(scores) then scores else RescaleAll(scores, Min(scores), Max(scores))
  }

  method Rescale(score: int64, min: int64, max: int64) returns (r: int64)
    requires min <= score <= max
    ensures r == Rescaled(score, min, max)
  {
    RescaledInRange(score, min, max);
    if max != min {
      r := 100 * (score - min) / (max - min);
    } else {
      r := 0;
    }
  }

  method Normalize(scores: array<NodeScore>)
    modifies scores
    ensures scores[..] == Normalized(old(scores[..]))
  {
    hide Rescaled, Min, Max;
    var minScore, maxScore := GetMinMaxScores(scores[..]);
    if minScore == 0 && maxScore == 0 {
      return;
    }
    ghost var was := scores[..];
    Extremes(was);
    ghost var will := RescaleAll(was, minScore, maxScore);
    for i := 0 to scores.Length
      invariant forall k :: 0 <= k < i ==> scores[k] == will[k]
      invariant forall k :: i <= k < scores.Length ==> scores[k] == was[k]
    {
      var r := Rescale(scores[i].score, minScore, maxScore);
      scores[i] := NodeScore(scores[i].name, r);
    }
    assert scores[..] == will;
  }

  // ---------------------------------------------------------------- properties

  /** In every case the result is the rescaled score. */
  lemma NormalizedScore(scores: seq<NodeScore>)
    ensures |Normalized(scores)| == |scores|
    ensures forall i :: 0 <= i < |scores| ==>
              && Normalized(scores)[i].name == scores[i].name
              && Normalized(scores)[i].score == Rescaled(scores[i].score, Min(scores), Max(scores))
  {
    Extremes(scores);
  }

  /** Final scores lie in 0..100; unless all are equal, the smallest score becomes 0 and the greatest 100. */
  lemma NormalizedRange(scores: seq<NodeScore>, i: nat)
    requires i < |scores|
    ensures 0 <= Normalized(scores)[i].score <= 100
    ensures Min(scores) != Max(scores) && scores[i].score == Min(scores) ==> Normalized(scores)[i].score == 0
    ensures Min(scores) != Max(scores) && scores[i].score == Max(scores) ==> Normalized(scores)[i].score == 100
  {
    Extremes(scores);
    NormalizedScore(scores);
    RescaledInRange(scores[i].score, Min(scores), Max(scores));
  }

  /** A node that scored at least as high as another still does. */
  lemma NormalizedOrder(scores: seq<NodeScore>, i: nat, j: nat)
    requires i < |scores| && j < |scores| && scores[i].score <= scores[j].score
    ensures Normalized(scores)[i].score <= Normalized(scores)[j].score
  {
    hide Rescaled, Min, Max, Normalized;
    NormalizedScore(scores);
    RescaledOrder(scores[i].score, scores[j].score, Min(scores), Max(scores));
  }

  lemma RescaledOrder(x: int, y: int, min: int, max: int)
    requires x <= y
    ensures Rescaled(x, min, max) <= Rescaled(y, min, max)
  {
    if max > min {
      QuotientMonotone(100 * (x - min), 100 * (y - min), max - min);
    }
  }

  lemma NormalizedExtremes(scores: seq<NodeScore>)
    requires scores != []
    ensures Min(Normalized(scores)) == 0
    ensures Max(Normalized(scores)) == if Min(scores) == Max(scores) then 0 else 100
  {
    Extremes(scores);
    NormalizedScore(scores);
    var lo :| 0 <= lo < |scores| && scores[lo].score == Min(scores);
    var hi :| 0 <= hi < |scores| && scores[hi].score == Max(scores);
    forall i | 0 <= i < |scores| ensures 0 <= Normalized(scores)[i].score <= 100 {
      NormalizedRange(scores, i);
    }
    NormalizedRange(scores, lo);
    NormalizedRange(scores, hi);
    ExtremesAre(Normalized(scores), 0, if Min(scores) == Max(scores) then 0 else 100);
  }

  /** Normalising twice changes nothing more. */
  lemma NormalizeIsIdempotent(scores: seq<NodeScore>)
    ensures Normalized(Normalized(scores)) == Normalized(scores)
  {
    if scores != [] {
      var once := Normalized(scores);
      NormalizedScore(scores);
      NormalizedExtremes(scores);
      NormalizedScore(once);
      forall i | 0 <= i < |scores| ensures Normalized(once)[i] == once[i] {
        if Max(once) == 100 {
          QuotientIs(100 * (once[i].score - 0), 100, once[i].score);
        } else {
          Extremes(once);
        }
      }
    }
  }

  lemma ProductOfQuotient(a: int, x: int, y: int)
    requires a > 0 && y > 0
    ensures (100 * (a * x)) / (a * y) == (100 * x) / y
  {
    var q := (100 * x) / y;
    assert q * y <= 100 * x < (q + 1) * y;
    ProductOrder(q * y, 100 * x, a);
    ProductOrder(100 * x + 1, (q + 1) * y, a);
    ProductOrder(1, y, a);
    Reassociate(a, x, y, q);
    Reassociate(a, x, y, q + 1);
    QuotientIs(100 * (a * x), a * y, q);
  }

  lemma Reassociate(a: int, x: int, y: int, q: int)
    ensures q * (a * y) == (q * y) * a && 100 * (a * x) == (100 * x) * a
  {
  }

  /** `other` is `scores` after a change of scale and origin. */
  predicate AffineImage(scores: seq<NodeScore>, other: seq<NodeScore>, a: int, b: int) {
    && |other| == |scores|
    && forall i :: 0 <= i < |scores| ==> other[i].name == scores[i].name && other[i].score == a * scores[i].score + b
  }

  lemma AffineExtremes(scores: seq<NodeScore>, other: seq<NodeScore>, a: int, b: int)
    requires scores != [] && a > 0 && AffineImage(scores, other, a, b)
    ensures Min(other) == a * Min(scores) + b && Max(other) == a * Max(scores) + b
  {
    Extremes(scores);
    var lo :| 0 <= lo < |scores| && scores[lo].score == Min(scores);
    var hi :| 0 <= hi < |scores| && scores[hi].score == Max(scores);
    forall i | 0 <= i < |scores| ensures a * Min(scores) + b <= other[i].score <= a * Max(scores) + b {
      ProductOrder(Min(scores), scores[i].score, a);
      ProductOrder(scores[i].score, Max(scores), a);
    }
    assert other[lo].score == a * Min(scores) + b && other[hi].score == a * Max(scores) + b;
    ExtremesAre(other, a * Min(scores) + b, a * Max(scores) + b);
  }

  lemma Scaled(a: int, x: int, y: int, b: int)
    ensures (a * x + b) - (a * y + b) == a * (x - y)
    ensures a > 0 ==> (x > y <==> a * (x - y) > 0) && (x == y <==> a * x + b == a * y + b)
  {
    assert a * (x - y) == a * x - a * y;
    if a > 0 && x > y {
      ProductOrder(1, x - y, a);
    } else if a > 0 && x < y {
      ProductOrder(1, y - x, a);
      assert a * (y - x) == a * y - a * x;
    }
  }

  lemma RescaledAffine(x: int, min: int, max: int, a: int, b: int)
    requires a > 0
    ensures Rescaled(a * x + b, a * min + b, a * max + b) == Rescaled(x, min, max)
  {
    Scaled(a, max, min, b);
    Scaled(a, x, min, b);
    var low, high, mid := a * min + b, a * max + b, a * x + b;
    var top, part := a * (max - min), a * (x - min);
    assert high - low == top && mid - low == part;
    if max > min {
      ProductOfQuotient(a, x - min, max - min);
      assert Rescaled(mid, low, high) == (100 * part) / top;
    }
  }

  /** The scale and the origin of the raw scores do not matter. */
  lemma NormalizeForgetsScale(scores: seq<NodeScore>, other: seq<NodeScore>, a: int, b: int)
    requires a > 0 && AffineImage(scores, other, a, b)
    ensures Normalized(other) == Normalized(scores)
  {
    hide Rescaled, Min, Max, Normalized;
    NormalizedScore(scores);
    NormalizedScore(other);
    if scores != [] {
      AffineExtremes(scores, other, a, b);
      forall i | 0 <= i < |scores| ensures Normalized(other)[i] == Normalized(scores)[i] {
        RescaledAffine(scores[i].score, Min(scores), Max(scores), a, b);
      }
    }
  }

  /** Scores that already run from 0 to 100 stay as they are. */
  lemma FullRangeIsUnchanged(scores: seq<NodeScore>)
    requires Min(scores) == 0 && Max(scores) == 100
    ensures Normalized(scores) == scores
  {
    NormalizedScore(scores);
    forall i | 0 <= i < |scores| ensures Normalized(scores)[i] == scores[i] {
      QuotientIs(100 * (scores[i].score - 0), 100, scores[i].score);
    }
  }

  lemma RescaledBounds(score: int, min: int, max: int)
    requires min < max
    ensures var width, n := max - min, Rescaled(score, min, max);
            n * width <= 100 * (score - min) < (n + 1) * width
  {
    QuotientBounds(100 * (score - min), max - min);
  }

  /** Unless all scores are equal, a final score is the score's place between the extremes in percent, rounded down. */
  lemma NormalizedIsRoundedPlace(scores: seq<NodeScore>, i: nat)
    requires i < |scores| && Min(scores) < Max(scores)
    ensures var width, n := Max(scores) - Min(scores), Normalized(scores)[i].score;
            n * width <= 100 * (scores[i].score - Min(scores)) < (n + 1) * width
  {
    hide Rescaled, Normalized, Min, Max;
    NormalizedScore(scores);
    RescaledBounds(scores[i].score, Min(scores), Max(scores));
  }

  // ---------------------------------------------------------------- the bonus

  /** A node as Score sees it: its resources, and what the filter recorded for it. */
  datatype Candidate = Candidate(name: string, requested: seq<int>, allocable: seq<int>, toReconfig: Option<bool>)

  function RawScore(strategy: Strategy, c: Candidate, weights: seq<int>): int
    requires |c.requested| == |c.allocable| == |weights|
  {
    ResourceScores.Score(strategy, c.requested, c.allocable, weights)
    + if c.toReconfig == Some(false) then MAX_NODE_SCORE else 0
  }

  /** The Score extension point: the resource score, plus the bonus if the filter recorded that nothing is to be changed. */
  method Score(strategy: Strategy, state: CycleState, nodeName: string, requested: seq<int>, allocable: seq<int>, weights: seq<int>)
    returns (score: int)
    requires |requested| == |allocable| == |weights|
    ensures var recorded := if nodeName in state.toReconfig then Some(state.toReconfig[nodeName]) else None;
            score == RawScore(strategy, Candidate(nodeName, requested, allocable, recorded), weights)
  {
    if strategy.LeastAllocated? {
      score := LeastResourceScorer(requested, allocable, weights);
    } else {
      score := MostResourceScorer(requested, allocable, weights);
    }
    if nodeName in state.toReconfig && !state.toReconfig[nodeName] {
      score := score + MAX_NODE_SCORE;
    }
  }

  ghost predicate Scored(strategy: Strategy, cs: seq<Candidate>, weights: seq<int>, raw: seq<NodeScore>) {
    && |raw| == |cs|
    && forall i :: 0 <= i < |cs| ==>
         && Proper(cs[i].requested, cs[i].allocable, weights)
         && raw[i].name == cs[i].name && raw[i].score == RawScore(strategy, cs[i], weights)
  }

  /**
   * The bonus survives normalisation: whatever the nodes' resources, a node that needs no reconfiguration ends at least
   * as high as one that does.
   */
  lemma BonusSurvives(strategy: Strategy, cs: seq<Candidate>, weights: seq<int>, raw: seq<NodeScore>, ready: nat, other: nat)
    requires Scored(strategy, cs, weights, raw) && ready < |cs| && other < |cs|
    requires cs[ready].toReconfig == Some(false) && cs[other].toReconfig != Some(false)
    ensures 0 <= Normalized(raw)[other].score <= Normalized(raw)[ready].score <= 100
  {
    NodeScoreInRange(strategy, cs[ready].requested, cs[ready].allocable, weights);
    NodeScoreInRange(strategy, cs[other].requested, cs[other].allocable, weights);
    NormalizedOrder(raw, other, ready);
    NormalizedRange(raw, other);
    NormalizedRange(raw, ready);
  }
}
