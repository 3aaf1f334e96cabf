/** The capture threshold in terms of the idle signals, and what it means for a payload to be reliable. */
module CalibrationBaseline {
  import opened Common
  import opened Ordering
  import opened Lists
  import opened Medians
  import opened Calibration
  import opened CalibrationLaws

  // The threshold

  /** The distances of the values from `m`. */
  ghost predicate AreDistances(d: seq<real>, values: seq<real>, m: real) {
    |d| == |values| && forall i :: 0 <= i < |d| ==> d[i] >= 0.0 && (d[i] == values[i] - m || d[i] == m - values[i])
  }

  ghost predicate IsMedianDeviation(values: seq<real>, m: real, mad: real) {
    exists d :: AreDistances(d, values, m) && IsMedian(d, mad)
  }

  lemma DeviationsAreDistances(values: seq<real>, m: real)
    ensures AreDistances(MapSeq(values, Deviation(m)), values, m)
  {
  }

  lemma SameDistances(d: seq<real>, d': seq<real>, values: seq<real>, m: real)
    requires AreDistances(d, values, m) && AreDistances(d', values, m)
    ensures d == d'
  {
  }

  lemma DeviationExactly(values: seq<real>, mad: real)
    requires values != []
    ensures IsMedianDeviation(values, Median(values), mad) <==> mad == MedianAbsoluteDeviation(values)
  {
    DeviationFrom(values, Median(values), mad);
  }

  lemma DeviationFrom(values: seq<real>, m: real, mad: real)
    requires values != []
    ensures IsMedianDeviation(values, m, mad) <==> mad == Median(MapSeq(values, Deviation(m)))
  {
    var d := MapSeq(values, Deviation(m));
    DeviationsAreDistances(values, m);
    MedianExactly(d, mad);
    if IsMedianDeviation(values, m, mad) {
      var d' :| AreDistances(d', values, m) && IsMedian(d', mad);
      SameDistances(d, d', values, m);
    }
  }

  /** How far above the idle median a signal has to be: the floor, or the method's margin if that is more. */
  ghost predicate IsMargin(st: Settings, median: real, mad: real, margin: real) {
    && margin >= st.baselineFloor
    && margin >= MethodMargin(st, median, mad)
    && (margin == st.baselineFloor || margin == MethodMargin(st, median, mad))
  }

  /** The multiple of the median deviation, or the multiple of the median that exceeds the median. */
  function MethodMargin(st: Settings, median: real, mad: real): real {
    match st.thresholdMethod
    case MedianPlusMad => st.baselineMultiplier * mad
    case MedianMultiplier => if st.baselineMultiplier > 1.0 then (st.baselineMultiplier - 1.0) * median else 0.0
  }

  lemma MethodMarginExactly(st: Settings, median: real, mad: real)
    ensures MethodMargin(st, median, mad) == Delta(st, median, mad)
  {
    if st.thresholdMethod == MedianMultiplier && st.baselineMultiplier <= 1.0 { ZeroScale(median); }
  }

  lemma ZeroScale(x: real)
    ensures Scale(0.0, x) == 0.0
  {
  }

  /** Median, median deviation and margin of the idle signals. */
  ghost predicate IsBaseline(st: Settings, idle: seq<real>, median: real, mad: real, margin: real) {
    IsMedian(idle, median) && IsMedianDeviation(idle, median, mad) && IsMargin(st, median, mad, margin)
  }

  lemma MarginExactly(st: Settings, median: real, mad: real, margin: real)
    ensures IsMargin(st, median, mad, margin) <==> margin == MarginOver(st, median, mad)
  {
    MethodMarginExactly(st, median, mad);
  }

  /** There is exactly one baseline. */
  lemma BaselineExactly(st: Settings, idle: seq<real>, median: real, mad: real, margin: real)
    requires idle != []
    ensures IsBaseline(st, idle, median, mad, margin) <==>
      median == Median(idle) && mad == MedianAbsoluteDeviation(idle)
        && margin == MarginOver(st, Median(idle), MedianAbsoluteDeviation(idle))
  {
    MedianExactly(idle, median);
    DeviationExactly(idle, mad);
    MarginExactly(st, median, mad, margin);
  }

  lemma ThresholdOfMargin(st: Settings, idle: seq<real>)
    ensures CaptureThreshold(st, idle)
      == if idle == [] then None else Some(Median(idle) + MarginOver(st, Median(idle), MedianAbsoluteDeviation(idle)))
  {
  }

  lemma BaselineExists(st: Settings, idle: seq<real>)
    requires idle != []
    ensures IsBaseline(st, idle, Median(idle), MedianAbsoluteDeviation(idle),
      MarginOver(st, Median(idle), MedianAbsoluteDeviation(idle)))
  {
    BaselineExactly(st, idle, Median(idle), MedianAbsoluteDeviation(idle),
      MarginOver(st, Median(idle), MedianAbsoluteDeviation(idle)));
  }

  /** The threshold is the idle median raised by the larger of floor and margin; there is one exactly if
      there are idle signals. */
  lemma ThresholdExactly(st: Settings, idle: seq<real>) returns (median: real, mad: real, margin: real)
    requires idle != []
    ensures IsBaseline(st, idle, median, mad, margin) && CaptureThreshold(st, idle) == Some(median + margin)
  {
    median, mad, margin := Median(idle), MedianAbsoluteDeviation(idle),
      MarginOver(st, Median(idle), MedianAbsoluteDeviation(idle));
    BaselineExists(st, idle);
    ThresholdOfMargin(st, idle);
  }

  lemma OneBaseline(st: Settings, idle: seq<real>, m1: real, d1: real, g1: real, m2: real, d2: real, g2: real)
    requires idle != [] && IsBaseline(st, idle, m1, d1, g1) && IsBaseline(st, idle, m2, d2, g2)
    ensures m1 == m2 && d1 == d2 && g1 == g2
  {
    BaselineExactly(st, idle, m1, d1, g1);
    BaselineExactly(st, idle, m2, d2, g2);
  }

  /** Every captured value exceeds the idle median by more than the floor and by more than the margin. */
  lemma CapturedIsAboveIdle(st: Settings, idle: seq<real>, median: real, mad: real, v: real)
    requires idle != [] && IsMedian(idle, median) && IsMedianDeviation(idle, median, mad)
    requires v > CaptureThreshold(st, idle).value
    ensures v > median + st.baselineFloor && v > median + MethodMargin(st, median, mad)
  {
    MedianExactly(idle, median);
    DeviationExactly(idle, mad);
    MethodMarginExactly(st, median, mad);
    ThresholdOfMargin(st, idle);
  }

  // Shifting the baseline

  function Raised(c: real): real -> real {
    v => v + c
  }

  lemma RaisedAscending(s: seq<real>, c: real)
    requires Ascending(s)
    ensures Ascending(MapSeq(s, Raised(c)))
  {
  }

  lemma RaisedSorted(values: seq<real>, c: real)
    ensures Sorted(MapSeq(values, Raised(c))) == MapSeq(Sorted(values), Raised(c))
  {
    SortedIsSorted(values);
    SortedIsSorted(MapSeq(values, Raised(c)));
    MapPermuted(values, Sorted(values), Raised(c));
    RaisedAscending(Sorted(values), c);
    AscendingIsUnique(Sorted(MapSeq(values, Raised(c))), MapSeq(Sorted(values), Raised(c)));
  }

  lemma RaisedMedian(values: seq<real>, c: real)
    requires values != []
    ensures MapSeq(values, Raised(c)) != [] && Median(MapSeq(values, Raised(c))) == Median(values) + c
  {
    RaisedSorted(values, c);
    RaisedMiddle(Sorted(values), c);
  }

  lemma RaisedMiddle(s: seq<real>, c: real)
    requires s != []
    ensures MapSeq(s, Raised(c)) != [] && MiddleOf(MapSeq(s, Raised(c))) == MiddleOf(s) + c
  {
    var t, n := MapSeq(s, Raised(c)), |s|;
    MiddleFormula(s);
    MiddleFormula(t);
    assert t[(n - 1) / 2] == s[(n - 1) / 2] + c && t[n / 2] == s[n / 2] + c;
  }

  lemma RaisedDistances(values: seq<real>, m: real, c: real)
    ensures MapSeq(MapSeq(values, Raised(c)), Deviation(m + c)) == MapSeq(values, Deviation(m))
  {
  }

  lemma RaisedDistance(values: seq<real>, m: real, c: real)
    requires values != []
    ensures MapSeq(values, Raised(c)) != []
    ensures MedianDistance(MapSeq(values, Raised(c)), m + c) == MedianDistance(values, m)
  {
    RaisedDistances(values, m, c);
  }

  lemma DeviationAt(values: seq<real>, m: real, mad: real)
    requires values != [] && Median(values) == m && MedianDistance(values, m) == mad
    ensures MedianAbsoluteDeviation(values) == mad
  {
  }

  lemma RaisedDeviation(values: seq<real>, c: real)
    requires values != []
    ensures MapSeq(values, Raised(c)) != []
    ensures MedianAbsoluteDeviation(MapSeq(values, Raised(c))) == MedianAbsoluteDeviation(values)
  {
    var m := Median(values);
    var mad := MedianDistance(values, m);
    RaisedMedian(values, c);
    RaisedDistance(values, m, c);
    DeviationAt(values, m, mad);
    DeviationAt(MapSeq(values, Raised(c)), m + c, mad);
  }

  lemma RaisedThreshold(st: Settings, median: real, mad: real, c: real)
    requires st.thresholdMethod == MedianPlusMad
    ensures ThresholdOver(st, median + c, mad) == ThresholdOver(st, median, mad) + c
  {
  }

  lemma ThresholdAt(st: Settings, idle: seq<real>, m: real, mad: real)
    requires idle != [] && Median(idle) == m && MedianAbsoluteDeviation(idle) == mad
    ensures CaptureThreshold(st, idle) == Some(ThresholdOver(st, m, mad))
  {
  }

  lemma ThresholdMoves(st: Settings, idle: seq<real>, raised: seq<real>, m: real, mad: real, c: real)
    requires st.thresholdMethod == MedianPlusMad && idle != [] && raised != []
    requires Median(idle) == m && MedianAbsoluteDeviation(idle) == mad
    requires Median(raised) == m + c && MedianAbsoluteDeviation(raised) == mad
    ensures CaptureThreshold(st, idle).Some?
    ensures CaptureThreshold(st, raised) == Some(CaptureThreshold(st, idle).value + c)
  {
    ThresholdAt(st, idle, m, mad);
    ThresholdAt(st, raised, m + c, mad);
    RaisedThreshold(st, m, mad, c);
  }

  /** Under the deviation method, raising every idle signal by the same amount raises the threshold by
      exactly that amount. */
  lemma ThresholdFollowsIdle(st: Settings, idle: seq<real>, c: real)
    requires st.thresholdMethod == MedianPlusMad && idle != []
    ensures CaptureThreshold(st, idle).Some?
    ensures CaptureThreshold(st, MapSeq(idle, Raised(c))) == Some(CaptureThreshold(st, idle).value + c)
  {
    RaisedMedian(idle, c);
    RaisedDeviation(idle, c);
    ThresholdMoves(st, idle, MapSeq(idle, Raised(c)), Median(idle), MedianAbsoluteDeviation(idle), c);
  }

  // Reliability

  /** How many of the values exceed the idle median by more than `margin`. */
  function Louder(values: seq<real>, median: real, margin: real): nat {
    if values == [] then 0
    else Louder(values[..|values| - 1], median, margin) + if values[|values| - 1] - median > margin then 1 else 0
  }

  lemma {:induction false} LouderCounts(values: seq<real>, median: real, margin: real)
    ensures Louder(values, median, margin) == CountIf(values, Above(median + margin))
  {
    if values != [] { LouderCounts(values[..|values| - 1], median, margin); }
  }

  /** At least the required share of the values is louder than the idle median by more than floor and
      margin. */
  ghost predicate LoudEnough(st: Settings, idle: seq<real>, values: seq<real>) {
    exists median, mad, margin :: IsBaseline(st, idle, median, mad, margin) && EnoughLouder(st, values, median, margin)
  }

  predicate EnoughLouder(st: Settings, values: seq<real>, median: real, margin: real) {
    Louder(values, median, margin) as real >= st.minimumCaptureRate * |values| as real
  }

  lemma ShareExactly(hits: nat, n: nat, rate: real)
    requires n > 0
    ensures hits as real / n as real >= rate <==> hits as real >= rate * n as real
  {
    var share := hits as real / n as real;
    assert share * n as real == hits as real;
    if share >= rate { ScaledShare(rate, share, n as real); }
    if share < rate { StrictlyScaledShare(share, rate, n as real); }
  }

  lemma ScaledShare(x: real, y: real, n: real)
    requires x <= y && n > 0.0
    ensures x * n <= y * n
  {
  }

  lemma StrictlyScaledShare(x: real, y: real, n: real)
    requires x < y && n > 0.0
    ensures x * n < y * n
  {
  }

  lemma ReliableAbove(st: Settings, values: seq<real>, median: real, margin: real)
    requires !st.legacy && st.minimumRepetitions >= 1
    ensures Reliable(st, Some(median + margin), values)
            <==> |values| >= st.minimumRepetitions && EnoughLouder(st, values, median, margin)
  {
    if |values| >= st.minimumRepetitions {
      LouderCounts(values, median, margin);
      ShareExactly(CountIf(values, Above(median + margin)), |values|, st.minimumCaptureRate);
    }
  }

  lemma LoudBaseline(st: Settings, idle: seq<real>, values: seq<real>, median: real, mad: real, margin: real)
    requires idle != [] && IsBaseline(st, idle, median, mad, margin)
    ensures LoudEnough(st, idle, values) <==> EnoughLouder(st, values, median, margin)
  {
    if LoudEnough(st, idle, values) {
      var m, d, g :| IsBaseline(st, idle, m, d, g) && EnoughLouder(st, values, m, g);
      OneBaseline(st, idle, median, mad, margin, m, d, g);
    }
  }

  /** In modern mode a payload is reliable exactly if there is an idle baseline and enough usable values of
      the payload, and enough of these are loud. */
  lemma ReliableExactly(st: Settings, idle: seq<real>, values: seq<real>)
    requires !st.legacy && st.minimumRepetitions >= 1
    ensures Reliable(st, CaptureThreshold(st, idle), values)
            <==> idle != [] && |values| >= st.minimumRepetitions && LoudEnough(st, idle, values)
  {
    if idle != [] {
      var median, mad, margin := ThresholdExactly(st, idle);
      LoudBaseline(st, idle, values, median, mad, margin);
      ReliableAbove(st, values, median, margin);
    }
  }

  /** The payloads a modern analysis lists as reliable. */
  lemma ReliablePayloadsExactly(rows: seq<Observation>, st: Settings, p: real)
    requires ValidSettings(st) && !st.legacy
    ensures p in Analyze(rows, st).figures.reliable <==>
      p in Payloads(rows) && IdleSignals(rows, st) != [] && |Values(rows, st, p)| >= st.minimumRepetitions
      && LoudEnough(st, IdleSignals(rows, st), Values(rows, st, p))
  {
    SupportedPayloadsAre(rows, st, p);
    ReliableExactly(st, IdleSignals(rows, st), Values(rows, st, p));
  }
}
