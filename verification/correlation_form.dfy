/** The correlation of two lists in terms of their sums. */
module CorrelationForm {
  import opened Common
  import opened Ordering
  import opened Spearman

  /** The sum of the products of paired values. */
  function Products(left: seq<real>, right: seq<real>): real
    requires |left| == |right|
  {
    if left == [] then 0.0
    else
      var n := |left| - 1;
      Products(left[..n], right[..n]) + left[n] * right[n]
  }

  lemma {:induction false} CrossOfDeviations(left: seq<real>, right: seq<real>, lm: real, rm: real)
    requires |left| == |right|
    ensures SumBy(Deviations(left, right, lm, rm), Cross)
            == Centred(Products(left, right), Total(left), Total(right), |left| as real, lm, rm)
  {
    if left != [] {
      var n := |left| - 1;
      CrossOfDeviations(left[..n], right[..n], lm, rm);
      assert Deviations(left, right, lm, rm)[..n] == Deviations(left[..n], right[..n], lm, rm);
      CentredStep(Products(left[..n], right[..n]), Total(left[..n]), Total(right[..n]), n as real, lm, rm,
        left[n], right[n]);
    }
  }

  /** The sum of `n` products, each factor lowered by its mean. */
  function Centred(products: real, lefts: real, rights: real, n: real, lm: real, rm: real): real {
    products - lm * rights - rm * lefts + n * (lm * rm)
  }

  lemma CentredStep(products: real, lefts: real, rights: real, n: real, lm: real, rm: real, x: real, y: real)
    ensures Centred(products, lefts, rights, n, lm, rm) + (x - lm) * (y - rm)
            == Centred(products + x * y, lefts + x, rights + y, n + 1.0, lm, rm)
  {
    Expand(x, y, lm, rm);
    Distributes(lm, rights, y);
    Distributes(rm, lefts, x);
    Distributes(lm * rm, n, 1.0);
  }

  lemma Expand(x: real, y: real, lm: real, rm: real)
    ensures (x - lm) * (y - rm) == x * y - lm * y - rm * x + lm * rm
  {
  }

  lemma Distributes(a: real, x: real, y: real)
    ensures a * (x + y) == a * x + a * y
  {
  }

  /** `n` times the centred sum, without a quotient. */
  lemma CentredSum(n: real, lm: real, rm: real, x: real, y: real, products: real)
    requires n * lm == x && n * rm == y
    ensures n * Centred(products, x, y, n, lm, rm) == n * products - x * y
  {
    assert n * (lm * y) == x * y;
    assert n * (rm * x) == x * y;
    assert n * (n * (lm * rm)) == x * y by {
      assert n * (n * (lm * rm)) == (n * lm) * (n * rm);
    }
  }

  lemma MeanTimesCount(s: seq<real>)
    requires s != []
    ensures |s| as real * Mean(s) == Total(s)
  {
  }

  /** `s` is the sum of the products of the deviations of the two lists from their means, in the form of sums of
      their own values and products. */
  predicate IsCovariance(s: real, left: seq<real>, right: seq<real>)
    requires |left| == |right|
  {
    |left| as real * s == |left| as real * Products(left, right) - Total(left) * Total(right)
  }

  lemma CrossIsCovariance(left: seq<real>, right: seq<real>)
    requires |left| == |right| && left != []
    ensures IsCovariance(SumBy(Deviations(left, right, Mean(left), Mean(right)), Cross), left, right)
  {
    CrossOfDeviations(left, right, Mean(left), Mean(right));
    MeanTimesCount(left);
    MeanTimesCount(right);
    CentredSum(|left| as real, Mean(left), Mean(right), Total(left), Total(right), Products(left, right));
  }

  lemma SquaresAreCrosses(left: seq<real>, right: seq<real>, lm: real, rm: real)
    requires |left| == |right|
    ensures SumBy(Deviations(left, right, lm, rm), SquareLeft) == SumBy(Deviations(left, left, lm, lm), Cross)
    ensures SumBy(Deviations(left, right, lm, rm), SquareRight) == SumBy(Deviations(right, right, rm, rm), Cross)
  {
    SumPointwise(Deviations(left, right, lm, rm), SquareLeft, Deviations(left, left, lm, lm), Cross);
    SumPointwise(Deviations(left, right, lm, rm), SquareRight, Deviations(right, right, rm, rm), Cross);
  }

  // When the correlation is defined

  ghost predicate AllEqual(s: seq<real>) {
    forall i, j :: 0 <= i < j < |s| ==> s[i] == s[j]
  }

  lemma {:induction false} ConstantTotal(s: seq<real>, c: real)
    requires forall i :: 0 <= i < |s| ==> s[i] == c
    ensures Total(s) == |s| as real * c
  {
    if s != [] {
      ConstantTotal(s[..|s| - 1], c);
      assert |s| as real * c == (|s| - 1) as real * c + c;
    }
  }

  lemma {:induction false} NoDeviation(s: seq<real>, m: real)
    ensures SumBy(Deviations(s, s, m, m), Cross) >= 0.0
    ensures SumBy(Deviations(s, s, m, m), Cross) == 0.0 <==> forall i :: 0 <= i < |s| ==> s[i] == m
  {
    if s != [] {
      var n := |s| - 1;
      NoDeviation(s[..n], m);
      assert Deviations(s, s, m, m)[..n] == Deviations(s[..n], s[..n], m, m);
      SquareIsZero((s[n] - m, s[n] - m));
      assert forall i :: 0 <= i < n ==> s[..n][i] == s[i];
    }
  }

  lemma SquareIsZero(p: (real, real))
    requires p.0 == p.1
    ensures Cross(p) >= 0.0 && (Cross(p) == 0.0 <==> p.0 == 0.0)
  {
    SignOfProduct(p.0, p.1);
  }

  lemma SignOfProduct(x: real, y: real)
    ensures x > 0.0 && y > 0.0 ==> x * y > 0.0
    ensures x < 0.0 && y < 0.0 ==> x * y > 0.0
    ensures x == 0.0 || y == 0.0 ==> x * y == 0.0
  {
  }

  lemma AtTheMean(s: seq<real>)
    requires s != []
    ensures AllEqual(s) <==> forall i :: 0 <= i < |s| ==> s[i] == Mean(s)
  {
    if AllEqual(s) {
      ConstantTotal(s, s[0]);
      MeanTimesCount(s);
      SameFactor(|s| as real, Mean(s), s[0]);
    }
  }

  lemma SameFactor(n: real, x: real, y: real)
    requires n > 0.0 && n * x == n * y
    ensures x == y
  {
  }

  lemma ZeroProduct(x: real, y: real)
    ensures Spearman.Times(x, y) == 0.0 <==> x == 0.0 || y == 0.0
  {
  }

  /** The correlation is defined exactly if neither list is constant. */
  lemma DefinedExactly(left: seq<real>, right: seq<real>)
    requires |left| == |right|
    ensures Correlate(left, right).Some? <==> !AllEqual(left) && !AllEqual(right)
  {
    if |left| >= 2 {
      var lm, rm := Mean(left), Mean(right);
      SquaresAreCrosses(left, right, lm, rm);
      ZeroProduct(SumBy(Deviations(left, left, lm, lm), Cross), SumBy(Deviations(right, right, rm, rm), Cross));
      NoDeviation(left, lm);
      NoDeviation(right, rm);
      AtTheMean(left);
      AtTheMean(right);
    }
  }

  lemma CorrelationParts(left: seq<real>, right: seq<real>)
    requires |left| == |right| && Correlate(left, right).Some?
    ensures var c, d := Correlate(left, right).value, Deviations(left, right, Mean(left), Mean(right));
      c.numerator == SumBy(d, Cross) && c.radicand == Spearman.Times(SumBy(d, SquareLeft), SumBy(d, SquareRight))
  {
  }

  predicate AreVariances(x: real, y: real, left: seq<real>, right: seq<real>) {
    IsCovariance(x, left, left) && IsCovariance(y, right, right)
  }

  lemma VariancesAre(left: seq<real>, right: seq<real>)
    requires |left| == |right| && left != []
    ensures var d := Deviations(left, right, Mean(left), Mean(right));
      AreVariances(SumBy(d, SquareLeft), SumBy(d, SquareRight), left, right)
  {
    CrossIsCovariance(left, left);
    CrossIsCovariance(right, right);
    SquaresAreCrosses(left, right, Mean(left), Mean(right));
  }

  /** It is the covariance over the root of the product of the two variances. */
  lemma CorrelationExactly(left: seq<real>, right: seq<real>) returns (x: real, y: real)
    requires |left| == |right| && Correlate(left, right).Some?
    ensures IsCovariance(Correlate(left, right).value.numerator, left, right)
    ensures AreVariances(x, y, left, right) && Correlate(left, right).value.radicand == Spearman.Times(x, y)
  {
    var d := Deviations(left, right, Mean(left), Mean(right));
    CorrelationParts(left, right);
    CrossIsCovariance(left, right);
    VariancesAre(left, right);
    x, y := SumBy(d, SquareLeft), SumBy(d, SquareRight);
  }

  lemma OneCovariance(s: real, s': real, left: seq<real>, right: seq<real>)
    requires |left| == |right| && left != [] && IsCovariance(s, left, right) && IsCovariance(s', left, right)
    ensures s == s'
  {
    SameFactor(|left| as real, s, s');
  }

  /** `c` is the correlation of the two lists: their covariance over the root of the product of their variances,
      and defined unless one of them is constant. */
  ghost predicate IsCorrelation(c: Option<Correlation>, left: seq<real>, right: seq<real>)
    requires |left| == |right|
  {
    && (c.Some? <==> !AllEqual(left) && !AllEqual(right))
    && (c.Some? ==> IsCovariance(c.value.numerator, left, right))
    && (c.Some? ==> exists x, y :: AreVariances(x, y, left, right) && c.value.radicand == Spearman.Times(x, y))
  }

  lemma CorrelateIsCorrelation(left: seq<real>, right: seq<real>)
    requires |left| == |right|
    ensures IsCorrelation(Correlate(left, right), left, right)
  {
    DefinedExactly(left, right);
    if Correlate(left, right).Some? {
      var x, y := CorrelationExactly(left, right);
    }
  }

  lemma DefinedOnSomething(c: Option<Correlation>, left: seq<real>, right: seq<real>)
    requires |left| == |right| && IsCorrelation(c, left, right) && c.Some?
    ensures left != []
  {
  }

  /** There is only one. */
  lemma CorrelationIs(c: Option<Correlation>, left: seq<real>, right: seq<real>)
    requires |left| == |right|
    ensures IsCorrelation(c, left, right) <==> c == Correlate(left, right)
  {
    CorrelateIsCorrelation(left, right);
    if IsCorrelation(c, left, right) && c.Some? {
      DefinedOnSomething(c, left, right);
      var d := Correlate(left, right);
      OneCovariance(c.value.numerator, d.value.numerator, left, right);
      var x, y :| AreVariances(x, y, left, right) && c.value.radicand == Spearman.Times(x, y);
      var x', y' :| AreVariances(x', y', left, right) && d.value.radicand == Spearman.Times(x', y');
      OneCovariance(x, x', left, left);
      OneCovariance(y, y', right, right);
    }
  }
}
