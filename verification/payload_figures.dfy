/** The figures of one payload, in terms of its rows and values. */
module PayloadFigures {
  import opened Common
  import opened Ordering
  import opened Lists
  import opened Medians
  import opened Spearman
  import opened CorrelationForm
  import opened Calibration
  import opened CalibrationBaseline
  import opened CalibrationVerdict
  import opened CalibrationReasons

  // Mean and variation

  predicate IsMean(values: seq<real>, mean: real) {
    |values| as real * mean == Total(values)
  }

  lemma MeanIs(values: seq<real>)
    requires values != []
    ensures IsMean(values, Mean(values))
  {
    MeanTimesCount(values);
  }

  /** `squares` is the sum of the squared deviations from the mean. */
  predicate AreSquares(values: seq<real>, squares: real) {
    IsCovariance(squares, values, values)
  }

  lemma SquaresAre(values: seq<real>)
    requires values != []
    ensures AreSquares(values, SumBy(values, SquaredDeviation(Mean(values))))
  {
    var m := Mean(values);
    SumPointwise(values, SquaredDeviation(m), Deviations(values, values, m, m), Cross);
    CrossIsCovariance(values, values);
  }

  /** The square of standard deviation over mean; zero for a single value or a zero mean. */
  ghost predicate IsVariation(values: seq<real>, v: real)
    requires values != []
  {
    exists mean, squares :: AreMeanAndSquares(values, mean, squares) && v == Relative(mean, squares, |values|)
  }

  predicate AreMeanAndSquares(values: seq<real>, mean: real, squares: real) {
    IsMean(values, mean) && AreSquares(values, squares)
  }

  function Relative(mean: real, squares: real, n: nat): real
    requires n > 0
  {
    if n == 1 || mean == 0.0 then 0.0 else squares / n as real / mean / mean
  }

  lemma VariationIs(values: seq<real>)
    requires values != []
    ensures IsVariation(values, VariationSquared(values))
  {
    MeanIs(values);
    SquaresAre(values);
    VariationOf(values, Mean(values), SumBy(values, SquaredDeviation(Mean(values))));
  }

  lemma VariationOf(values: seq<real>, mean: real, squares: real)
    requires values != [] && mean == Mean(values) && squares == SumBy(values, SquaredDeviation(mean))
    ensures VariationSquared(values) == Relative(mean, squares, |values|)
  {
  }

  // Capture

  /** How many of the values exceed the threshold, if there is one; without one, none, or all in legacy mode. */
  predicate IsCaptured(st: Settings, threshold: Option<real>, values: seq<real>, n: int) {
    match threshold
    case None => n == if st.legacy then |values| else 0
    case Some(t) => n == |set i | 0 <= i < |values| && values[i] > t|
  }

  lemma {:induction false} AboveCount(values: seq<real>, t: real)
    ensures CountIf(values, Above(t)) == |set i | 0 <= i < |values| && values[i] > t|
  {
    if values != [] {
      var n := |values| - 1;
      AboveCount(values[..n], t);
      assert (set i | 0 <= i < |values| && values[i] > t)
          == (set i | 0 <= i < n && values[..n][i] > t) + if values[n] > t then {n} else {};
    }
  }

  lemma CapturedIs(st: Settings, threshold: Option<real>, values: seq<real>)
    ensures IsCaptured(st, threshold, values, CaptureSuccesses(st, threshold, values))
  {
    if threshold.Some? { AboveCount(values, threshold.value); }
  }

  predicate IsShare(share: real, hits: int, n: nat) {
    share * n as real == hits as real && (n == 0 ==> share == 0.0)
  }

  lemma RateIs(st: Settings, threshold: Option<real>, values: seq<real>)
    ensures IsShare(CaptureRate(st, threshold, values), CaptureSuccesses(st, threshold, values), |values|)
  {
  }

  // The summary

  /** The location and spread of the values; nothing without values. */
  ghost predicate Describes(s: PayloadSummary, values: seq<real>) {
    if values == [] then s.median == None && s.mean == None && s.mad == None && s.variationSquared == None
    else
      && s.median.Some? && IsMedian(values, s.median.value)
      && s.mean.Some? && IsMean(values, s.mean.value)
      && s.mad.Some? && IsMedianDeviation(values, s.median.value, s.mad.value)
      && s.variationSquared.Some? && IsVariation(values, s.variationSquared.value)
  }

  lemma SummaryDescribes(st: Settings, threshold: Option<real>, p: real, n: nat, values: seq<real>)
    ensures Describes(Summarize(st, threshold, p, n, values), values)
  {
    if values != [] {
      MedianExactly(values, Median(values));
      MeanIs(values);
      DeviationExactly(values, MedianAbsoluteDeviation(values));
      VariationIs(values);
    }
  }

  function OfPayload(p: real): Observation -> bool {
    (o: Observation) => HasPayload(o, p)
  }

  /** The summary of a payload: how many rows it has, how many values, where they lie, and how many of them
      are above the threshold. */
  lemma SummaryExactly(rows: seq<Observation>, st: Settings, p: real)
    ensures var s, values := SummaryFor(rows, st, p), Values(rows, st, p);
      && s.payload == p && s.usableRepetitions == |values|
      && s.repetitions == Tally(rows, OfPayload(p))
      && Describes(s, values)
      && IsCaptured(st, CaptureThreshold(st, IdleSignals(rows, st)), values, s.captureSuccesses)
      && IsShare(s.captureRate, s.captureSuccesses, |values|)
  {
    var t, values := CaptureThreshold(st, IdleSignals(rows, st)), Values(rows, st, p);
    TallySame(rows, OfPayload(p), InGroup(p));
    SummaryDescribes(st, t, p, CountIf(rows, InGroup(p)), values);
    CapturedIs(st, t, values);
    RateIs(st, t, values);
  }
}
