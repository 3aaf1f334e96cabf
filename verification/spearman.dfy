/** `_correlation` on exact reals, kept as numerator and squared denominator, and the rank
    correlation obtained from it. */
module Spearman {
  import opened Common
  import opened Ordering
  import opened Ranks

  function Mean(s: seq<real>): real
    requires s != []
  {
    Total(s) / |s| as real
  }

  /** The paired deviations from the two means. */
  function Deviations(left: seq<real>, right: seq<real>, lm: real, rm: real): (d: seq<(real, real)>)
    requires |left| == |right|
    ensures |d| == |left| && forall i :: 0 <= i < |d| ==> d[i] == (left[i] - lm, right[i] - rm)
  {
    seq(|left|, i requires 0 <= i < |left| => (left[i] - lm, right[i] - rm))
  }

  function Cross(p: (real, real)): real { p.0 * p.1 }
  function SquareLeft(p: (real, real)): real { p.0 * p.0 }
  function SquareRight(p: (real, real)): real { p.1 * p.1 }

  /** numerator / sqrt(radicand), None when undefined. */
  datatype Correlation = Correlation(numerator: real, radicand: real)

  /** `_correlation` of two equally long lists. */
  function Correlate(left: seq<real>, right: seq<real>): Option<Correlation>
    requires |left| == |right|
  {
    if |left| < 2 then None else FromDeviations(Deviations(left, right, Mean(left), Mean(right)))
  }

  function Times(x: real, y: real): real { x * y }

  function FromDeviations(d: seq<(real, real)>): Option<Correlation> {
    var radicand := Times(SumBy(d, SquareLeft), SumBy(d, SquareRight));
    if radicand == 0.0 then None else Some(Correlation(SumBy(d, Cross), radicand))
  }

  function RankCorrelation(left: seq<real>, right: seq<real>): Option<Correlation>
    requires |left| == |right|
  {
    Correlate(RankList(left), RankList(right))
  }

  // ----- the value lies in [-1, 1]

  lemma {:induction false} SquareNonNegative(d: seq<(real, real)>, p: real, q: real)
    ensures SumBy(d, SquareLeft) * p * p + 2.0 * SumBy(d, Cross) * p * q + SumBy(d, SquareRight) * q * q >= 0.0
  {
    if d != [] {
      var init, z := d[..|d| - 1], d[|d| - 1];
      SquareNonNegative(init, p, q);
      var root := z.0 * p + z.1 * q;
      assert root * root >= 0.0;
      assert root * root == z.0 * z.0 * p * p + 2.0 * (z.0 * z.1) * p * q + z.1 * z.1 * q * q;
      Distribute(SumBy(init, SquareLeft), z.0 * z.0, p, p);
      Distribute(SumBy(init, Cross), z.0 * z.1, p, q);
      Distribute(SumBy(init, SquareRight), z.1 * z.1, q, q);
    }
  }

  lemma Distribute(x: real, y: real, p: real, q: real)
    ensures (x + y) * p * q == x * p * q + y * p * q
  {
  }

  /** The Cauchy-Schwarz inequality. */
  lemma CauchySchwarz(d: seq<(real, real)>)
    ensures SumBy(d, Cross) * SumBy(d, Cross) <= SumBy(d, SquareLeft) * SumBy(d, SquareRight)
    ensures SumBy(d, SquareLeft) >= 0.0 && SumBy(d, SquareRight) >= 0.0
  {
    var a, s, b := SumBy(d, SquareLeft), SumBy(d, Cross), SumBy(d, SquareRight);
    SquareNonNegative(d, 1.0, 0.0);
    SquareNonNegative(d, 0.0, 1.0);
    if a > 0.0 {
      SquareNonNegative(d, -s, a);
      Discriminant(a, s, b);
    } else {
      SquareNonNegative(d, b + 1.0, -s);
      NothingLeft(a, b + 1.0);
      Degenerate(s, b);
    }
  }

  lemma NothingLeft(a: real, p: real)
    requires a == 0.0
    ensures a * p * p == 0.0
  {
  }

  lemma NonNegativeFactor(x: real, y: real)
    requires x > 0.0 && x * y >= 0.0
    ensures y >= 0.0
  {
  }

  lemma Discriminant(a: real, s: real, b: real)
    requires a > 0.0 && a * -s * -s + 2.0 * s * -s * a + b * a * a >= 0.0
    ensures s * s <= a * b
  {
    assert a * -s * -s + 2.0 * s * -s * a + b * a * a == a * (a * b - s * s);
    NonNegativeFactor(a, a * b - s * s);
  }

  lemma Degenerate(s: real, b: real)
    requires b >= 0.0 && 2.0 * s * (b + 1.0) * -s + b * -s * -s >= 0.0
    ensures s * s <= 0.0
  {
    assert 2.0 * s * (b + 1.0) * -s + b * -s * -s == (b + 2.0) * -(s * s);
    NonNegativeFactor(b + 2.0, -(s * s));
  }

  /** A defined correlation has a positive radicand and lies in [-1, 1]. */
  lemma CorrelationBounded(left: seq<real>, right: seq<real>)
    requires |left| == |right| && Correlate(left, right).Some?
    ensures var c := Correlate(left, right).value;
      c.radicand > 0.0 && c.numerator * c.numerator <= c.radicand
  {
    CauchySchwarz(Deviations(left, right, Mean(left), Mean(right)));
  }

  // ----- comparison with a bound

  /** `rank_correlation < m` for numerator / sqrt(radicand), without the root. */
  predicate Below(c: Correlation, m: real) {
    if m > 0.0 then c.numerator < 0.0 || c.numerator * c.numerator < m * m * c.radicand
    else c.numerator < 0.0 && c.numerator * c.numerator > m * m * c.radicand
  }

  /** `Below` is the comparison of the quotient itself. */
  lemma BelowIsLess(c: Correlation, m: real, root: real)
    requires root > 0.0 && root * root == c.radicand
    ensures Below(c, m) <==> c.numerator / root < m
  {
    var n, x := c.numerator, m * root;
    assert c.numerator / root < m <==> n < x by {
      var quotient := n / root;
      assert quotient * root == n;
      if quotient < m { assert quotient * root < m * root; }
      if quotient >= m { assert quotient * root >= m * root; }
    }
    assert x * x == m * m * c.radicand by {
      assert x * x == (m * m) * (root * root);
    }
    if m > 0.0 {
      assert x > 0.0;
      if n >= 0.0 { SquaresOrder(n, x); }
    } else {
      assert x <= 0.0;
      if n < 0.0 { SquaresOrder(-x, -n); assert (-x) * (-x) == x * x && (-n) * (-n) == n * n; }
    }
  }

  lemma SquaresOrder(x: real, y: real)
    requires x >= 0.0 && y >= 0.0
    ensures x < y <==> x * x < y * y
  {
    var gap := y - x;
    assert y * y - x * x == gap * (x + y);
    if gap <= 0.0 { NonPositiveProduct(gap, x + y); }
  }

  lemma NonPositiveProduct(x: real, y: real)
    requires x <= 0.0 && y >= 0.0
    ensures x * y <= 0.0
  {
  }

  // ----- invariance

  /** Only the two orders matter: strictly increasing changes of either list leave the value alone. */
  lemma RankCorrelationUnderMonotoneMaps(left: seq<real>, right: seq<real>, left': seq<real>, right': seq<real>)
    requires |left| == |right| && SameShape(left, left') && SameShape(right, right')
    ensures RankCorrelation(left, right) == RankCorrelation(left', right')
  {
    RanksKeepUnderMonotoneMaps(left, left');
    RanksKeepUnderMonotoneMaps(right, right');
  }

  /** A response that rises strictly with the payload has rank correlation exactly 1. */
  lemma RisingResponseIsOne(left: seq<real>, right: seq<real>)
    requires |left| == |right| && SameShape(left, right) && RankCorrelation(left, right).Some?
    ensures var c := RankCorrelation(left, right).value;
      c.numerator > 0.0 && c.numerator * c.numerator == c.radicand
  {
    RanksKeepUnderMonotoneMaps(left, right);
    SelfCorrelation(RankList(left));
  }

  lemma SelfCorrelation(r: seq<real>)
    requires Correlate(r, r).Some?
    ensures var c := Correlate(r, r).value;
      c.numerator > 0.0 && c.numerator * c.numerator == c.radicand
  {
    var d := Deviations(r, r, Mean(r), Mean(r));
    SameSums(d);
    CauchySchwarz(d);
  }

  lemma SameSums(d: seq<(real, real)>)
    requires forall i :: 0 <= i < |d| ==> d[i].0 == d[i].1
    ensures SumBy(d, Cross) == SumBy(d, SquareLeft) == SumBy(d, SquareRight)
  {
    SumPointwise(d, Cross, d, SquareLeft);
    SumPointwise(d, SquareRight, d, SquareLeft);
  }

  function First(p: (real, real)): real { p.0 }
  function Second(p: (real, real)): real { p.1 }

  function Lefts(pairs: seq<(real, real)>): seq<real> {
    MapSeq(pairs, First)
  }

  function Rights(pairs: seq<(real, real)>): seq<real> {
    MapSeq(pairs, Second)
  }

  function Shift(lm: real, rm: real): ((real, real)) -> (real, real) {
    (p: (real, real)) => (p.0 - lm, p.1 - rm)
  }

  lemma DeviationsAreShifted(pairs: seq<(real, real)>, lm: real, rm: real)
    ensures Deviations(Lefts(pairs), Rights(pairs), lm, rm) == MapSeq(pairs, Shift(lm, rm))
  {
  }

  lemma MeansIgnoreOrder(pairs: seq<(real, real)>, pairs': seq<(real, real)>)
    requires multiset(pairs) == multiset(pairs') && pairs != []
    ensures |pairs| == |pairs'|
    ensures Mean(Lefts(pairs)) == Mean(Lefts(pairs')) && Mean(Rights(pairs)) == Mean(Rights(pairs'))
  {
    SameLength(pairs, pairs');
    MapPermuted(pairs, pairs', First);
    MapPermuted(pairs, pairs', Second);
    SumPermuted(Lefts(pairs), Lefts(pairs'), Identity);
    SumPermuted(Rights(pairs), Rights(pairs'), Identity);
  }

  lemma FromDeviationsIgnoresOrder(d: seq<(real, real)>, d': seq<(real, real)>)
    requires multiset(d) == multiset(d')
    ensures FromDeviations(d) == FromDeviations(d')
  {
    SumPermuted(d, d', Cross);
    SumPermuted(d, d', SquareLeft);
    SumPermuted(d, d', SquareRight);
  }

  /** The correlation of paired data does not depend on the order of the pairs. */
  lemma CorrelationIgnoresOrder(pairs: seq<(real, real)>, pairs': seq<(real, real)>)
    requires multiset(pairs) == multiset(pairs')
    ensures Correlate(Lefts(pairs), Rights(pairs)) == Correlate(Lefts(pairs'), Rights(pairs'))
  {
    SameLength(pairs, pairs');
    if |pairs| >= 2 {
      MeansIgnoreOrder(pairs, pairs');
      var lm, rm := Mean(Lefts(pairs)), Mean(Rights(pairs));
      DeviationsAreShifted(pairs, lm, rm);
      DeviationsAreShifted(pairs', lm, rm);
      MapPermuted(pairs, pairs', Shift(lm, rm));
      FromDeviationsIgnoresOrder(MapSeq(pairs, Shift(lm, rm)), MapSeq(pairs', Shift(lm, rm)));
    }
  }

  function RankOf(values: seq<real>): real -> real {
    v => (Beaten(values, v) - 1.0) / 2.0
  }

  /** Ranks read off any arrangement of the same values. */
  lemma RanksThrough(values: seq<real>, reference: seq<real>)
    requires multiset(values) == multiset(reference)
    ensures RankList(values) == MapSeq(values, RankOf(reference))
  {
    forall i | 0 <= i < |values|
      ensures AverageRank(values, i) == RankOf(reference)(values[i])
    {
      RankIsBeaten(values, i);
      SumPermuted(values, reference, Weight(values[i]));
    }
  }

  /** The two average ranks of a pair among `lefts` and `rights`. */
  function RankPair(lefts: seq<real>, rights: seq<real>): ((real, real)) -> (real, real) {
    (p: (real, real)) => (RankOf(lefts)(p.0), RankOf(rights)(p.1))
  }

  lemma RanksByPairs(pairs: seq<(real, real)>, lefts: seq<real>, rights: seq<real>)
    requires multiset(lefts) == multiset(Lefts(pairs)) && multiset(rights) == multiset(Rights(pairs))
    ensures var ranked := MapSeq(pairs, RankPair(lefts, rights));
      RankList(Lefts(pairs)) == Lefts(ranked) && RankList(Rights(pairs)) == Rights(ranked)
  {
    RanksThrough(Lefts(pairs), lefts);
    RanksThrough(Rights(pairs), rights);
    var ranked := MapSeq(pairs, RankPair(lefts, rights));
    assert Lefts(ranked) == MapSeq(Lefts(pairs), RankOf(lefts));
    assert Rights(ranked) == MapSeq(Rights(pairs), RankOf(rights));
  }

  /** Nor does the rank correlation. */
  lemma RankCorrelationIgnoresOrder(pairs: seq<(real, real)>, pairs': seq<(real, real)>)
    requires multiset(pairs) == multiset(pairs')
    ensures RankCorrelation(Lefts(pairs), Rights(pairs)) == RankCorrelation(Lefts(pairs'), Rights(pairs'))
  {
    MapPermuted(pairs, pairs', First);
    MapPermuted(pairs, pairs', Second);
    var g := RankPair(Lefts(pairs), Rights(pairs));
    RanksByPairs(pairs, Lefts(pairs), Rights(pairs));
    RanksByPairs(pairs', Lefts(pairs), Rights(pairs));
    MapPermuted(pairs, pairs', g);
    CorrelationIgnoresOrder(MapSeq(pairs, g), MapSeq(pairs', g));
  }
}
