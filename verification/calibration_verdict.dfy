/** The verdict of the calibration gate, in terms of the observation rows. */
module CalibrationVerdict {
  import opened Common
  import opened Ordering
  import opened Lists
  import opened Medians
  import opened Ranks
  import opened Spearman
  import opened CorrelationForm
  import opened Calibration
  import opened CalibrationLaws
  import opened CalibrationBaseline

  /** The collector kept its sampling interval: the mean is within the given share of the requested one. */
  predicate KeptInterval(d: Diagnostics, share: real) {
    && d.Diagnostics? && d.requested.Some? && d.requested.value > 0.0
    && d.mean.Some? && d.mean.value >= 0.0
    && -(share * d.requested.value) <= d.mean.value - d.requested.value <= share * d.requested.value
  }

  /** The worker took part and completed, for long enough, and the collector kept its interval. */
  predicate UsableRow(o: Observation, st: Settings) {
    && o.participation == Some(true) && (o.exit == NoStatus || o.exit == Completed)
    && (st.minimumDuration.Some? ==> o.duration.Some? && o.duration.value >= st.minimumDuration.value)
    && (st.maximumIntervalError.Some? ==> KeptInterval(o.diagnostics, st.maximumIntervalError.value))
  }

  /** A row that counts for the verdict. */
  predicate GoodRow(o: Observation, st: Settings) {
    && o.pcieSupported && UsableRow(o, st)
    && o.signal.Some? && o.signal.value >= 0.0
    && (o.kind == IdleBaseline || (o.kind == Collective && o.payload.Some? && o.payload.value >= 0.0))
  }

  lemma RelativeError(gap: real, target: real, share: real)
    requires target > 0.0
    ensures gap / target <= share <==> gap <= share * target
  {
    var q := gap / target;
    assert q * target == gap;
    if q <= share { ScaledShare(q, share, target); }
    if q > share { StrictlyScaledShare(share, q, target); }
  }

  lemma IntervalExactly(d: Diagnostics, share: real)
    requires share >= 0.0
    ensures IntervalOk(d, share) <==> KeptInterval(d, share)
  {
    if d.Diagnostics? && d.requested.Some? && d.requested.value > 0.0 && d.mean.Some? && d.mean.value >= 0.0 {
      RelativeError(d.mean.value - d.requested.value, d.requested.value, share);
      RelativeError(d.requested.value - d.mean.value, d.requested.value, share);
    }
  }

  lemma UsableExactly(o: Observation, st: Settings)
    requires ValidSettings(st)
    ensures Usable(o, st) <==> UsableRow(o, st)
  {
    if st.maximumIntervalError.Some? { IntervalExactly(o.diagnostics, st.maximumIntervalError.value); }
  }

  /** No check finds fault with the row. */
  predicate Unobjectionable(o: Observation, st: Settings) {
    && !HasOtherKind(o) && !HasBadPayload(o) && !IsUnsupported(o)
    && !BadParticipation(st)(o) && !BadSignal(st)(o) && !TooShort(st)(o) && !BadInterval(st)(o)
    && (o.kind == IdleBaseline ==> HasIdleSignal(o, st))
  }

  lemma GoodRowExactly(o: Observation, st: Settings)
    requires ValidSettings(st)
    ensures GoodRow(o, st) <==> Unobjectionable(o, st)
  {
    UsableExactly(o, st);
    if st.maximumIntervalError.Some? { IntervalExactly(o.diagnostics, st.maximumIntervalError.value); }
  }

  // The values that are selected

  /** A usable idle reading of `v`. */
  predicate IsIdleReading(o: Observation, st: Settings, v: real) {
    o.kind == IdleBaseline && o.pcieSupported && UsableRow(o, st) && o.signal == Some(v) && v >= 0.0
  }

  /** A usable reading of `v` under the payload `p`. */
  predicate IsPayloadReading(o: Observation, st: Settings, p: real, v: real) {
    && o.kind == Collective && o.payload == Some(p) && p >= 0.0
    && o.pcieSupported && UsableRow(o, st) && o.signal == Some(v) && v >= 0.0
  }

  lemma SelectedExactly(o: Observation, st: Settings, p: real, v: real)
    requires ValidSettings(st)
    ensures IdleSignal(st)(o) == Some(v) <==> IsIdleReading(o, st, v)
    ensures PayloadSignal(st, p)(o) == Some(v) <==> IsPayloadReading(o, st, p, v)
  {
    UsableExactly(o, st);
  }

  /** The idle values are exactly the signals of the usable idle readings. */
  lemma IdleSignalsAre(rows: seq<Observation>, st: Settings, v: real)
    requires ValidSettings(st)
    ensures v in IdleSignals(rows, st) <==> exists i :: 0 <= i < |rows| && IsIdleReading(rows[i], st, v)
  {
    FilterMapHas(rows, IdleSignal(st), v);
    forall i | 0 <= i < |rows|
      ensures IdleSignal(st)(rows[i]) == Some(v) <==> IsIdleReading(rows[i], st, v)
    {
      SelectedExactly(rows[i], st, 0.0, v);
    }
  }

  /** The values of a payload are exactly the signals of its usable readings. */
  lemma ValuesAre(rows: seq<Observation>, st: Settings, p: real, v: real)
    requires ValidSettings(st)
    ensures v in Values(rows, st, p) <==> exists i :: 0 <= i < |rows| && IsPayloadReading(rows[i], st, p, v)
  {
    FilterMapHas(rows, PayloadSignal(st, p), v);
    forall i | 0 <= i < |rows|
      ensures PayloadSignal(st, p)(rows[i]) == Some(v) <==> IsPayloadReading(rows[i], st, p, v)
    {
      SelectedExactly(rows[i], st, p, v);
    }
  }

  predicate HasPayload(o: Observation, p: real) {
    o.kind == Collective && o.payload == Some(p) && p >= 0.0
  }

  lemma PayloadsAre(rows: seq<Observation>, p: real)
    ensures p in Payloads(rows) <==> exists i :: 0 <= i < |rows| && HasPayload(rows[i], p)
  {
    FilterMapHas(rows, PayloadKey, p);
    forall i | 0 <= i < |rows|
      ensures PayloadKey(rows[i]) == Some(p) <==> HasPayload(rows[i], p)
    {
    }
  }

  lemma MedianPointIs(rows: seq<Observation>, st: Settings, p: real, point: (real, real))
    ensures MedianPoint(SummaryOf(rows, st)(p)) == Some(point) <==>
      Values(rows, st, p) != [] && point == (p, Median(Values(rows, st, p)))
  {
  }

  ghost predicate IsPoint(rows: seq<Observation>, st: Settings, p: real, m: real) {
    p in Payloads(rows) && Values(rows, st, p) != [] && IsMedian(Values(rows, st, p), m)
  }

  /** The points behind correlation and range pair each payload that has usable values with their median. */
  lemma PointsAre(rows: seq<Observation>, st: Settings, p: real, m: real)
    ensures (p, m) in FiguresOf(Summaries(rows, st)).points <==> IsPoint(rows, st, p, m)
  {
    var keys := Payloads(rows);
    FilterMapOfMap(keys, SummaryOf(rows, st), MedianPoint, (p, m));
    forall i | 0 <= i < |keys|
      ensures MedianPoint(SummaryOf(rows, st)(keys[i])) == Some((p, m)) <==> keys[i] == p && IsPoint(rows, st, p, m)
    {
      MedianPointIs(rows, st, keys[i], (p, m));
      if Values(rows, st, p) != [] { MedianExactly(Values(rows, st, p), m); }
    }
  }

  // Counting rows

  lemma {:induction false} IdleSignalsComplete(rows: seq<Observation>, st: Settings)
    requires forall i :: 0 <= i < |rows| && rows[i].kind == IdleBaseline ==> HasIdleSignal(rows[i], st)
    ensures |IdleSignals(rows, st)| == CountIf(rows, IsIdle)
  {
    if rows != [] { IdleSignalsComplete(rows[..|rows| - 1], st); }
  }

  ghost predicate NoDefects(d: Defects) {
    && d.invalidTypes == 0 && d.invalidPayloads == 0 && d.unsupported == 0 && d.invalidParticipation == 0
    && d.invalidSignals == 0 && d.shortDurations == 0 && d.invalidIntervals == 0 && d.idleRows == d.idleSignals
  }

  ghost predicate AllUnobjectionable(rows: seq<Observation>, st: Settings) {
    forall i :: 0 <= i < |rows| ==> Unobjectionable(rows[i], st)
  }

  lemma NoDefectsMeans(rows: seq<Observation>, st: Settings)
    requires NoDefects(DefectsOf(rows, st))
    ensures AllUnobjectionable(rows, st)
  {
    AllIdleUsable(rows, st);
    NoneCounted(rows, HasOtherKind);
    NoneCounted(rows, HasBadPayload);
    NoneCounted(rows, IsUnsupported);
    NoneCounted(rows, BadParticipation(st));
    NoneCounted(rows, BadSignal(st));
    NoneCounted(rows, TooShort(st));
    NoneCounted(rows, BadInterval(st));
  }

  lemma NoDefectsFrom(rows: seq<Observation>, st: Settings)
    requires AllUnobjectionable(rows, st)
    ensures NoDefects(DefectsOf(rows, st))
  {
    IdleSignalsComplete(rows, st);
    NoneCounted(rows, HasOtherKind);
    NoneCounted(rows, HasBadPayload);
    NoneCounted(rows, IsUnsupported);
    NoneCounted(rows, BadParticipation(st));
    NoneCounted(rows, BadSignal(st));
    NoneCounted(rows, TooShort(st));
    NoneCounted(rows, BadInterval(st));
  }

  ghost predicate AllGood(rows: seq<Observation>, st: Settings) {
    forall i :: 0 <= i < |rows| ==> GoodRow(rows[i], st)
  }

  lemma AllGoodExactly(rows: seq<Observation>, st: Settings)
    requires ValidSettings(st)
    ensures AllGood(rows, st) <==> NoDefects(DefectsOf(rows, st))
  {
    forall i | 0 <= i < |rows|
      ensures GoodRow(rows[i], st) <==> Unobjectionable(rows[i], st)
    {
      GoodRowExactly(rows[i], st);
    }
    if AllGood(rows, st) { NoDefectsFrom(rows, st); }
    if NoDefects(DefectsOf(rows, st)) { NoDefectsMeans(rows, st); }
  }

  // Counting payloads

  ghost predicate AllReliable(rows: seq<Observation>, st: Settings) {
    forall p :: p in Payloads(rows) ==> ReliableAt(rows, st, p)
  }

  lemma ReliableMeansNoneUnreliable(rows: seq<Observation>, st: Settings)
    requires AllReliable(rows, st)
    ensures FiguresOf(Summaries(rows, st)).unreliable == []
  {
    var unreliable := FiguresOf(Summaries(rows, st)).unreliable;
    if unreliable != [] { UnreliablePayloadsAre(rows, st, unreliable[0]); }
  }

  lemma NoneUnreliableMeansReliable(rows: seq<Observation>, st: Settings)
    requires FiguresOf(Summaries(rows, st)).unreliable == []
    ensures AllReliable(rows, st)
  {
    forall p | p in Payloads(rows)
      ensures ReliableAt(rows, st, p)
    {
      UnreliablePayloadsAre(rows, st, p);
    }
  }

  lemma SomeReliable(rows: seq<Observation>, st: Settings)
    requires Payloads(rows) != [] && AllReliable(rows, st)
    ensures FiguresOf(Summaries(rows, st)).reliable != []
  {
    SupportedPayloadsAre(rows, st, Payloads(rows)[0]);
  }

  lemma ReliableMeansPayload(rows: seq<Observation>, st: Settings)
    requires FiguresOf(Summaries(rows, st)).reliable != []
    ensures Payloads(rows) != []
  {
    SupportedPayloadsAre(rows, st, FiguresOf(Summaries(rows, st)).reliable[0]);
  }

  lemma UnreliableAt(rows: seq<Observation>, st: Settings, q: real, p: real)
    ensures UnreliablePayload(SummaryOf(rows, st)(q)) == Some(p) <==> q == p && !ReliableAt(rows, st, q)
  {
  }

  lemma UnreliablePayloadsAre(rows: seq<Observation>, st: Settings, p: real)
    ensures p in FiguresOf(Summaries(rows, st)).unreliable <==> p in Payloads(rows) && !ReliableAt(rows, st, p)
  {
    var keys := Payloads(rows);
    FilterMapOfMap(keys, SummaryOf(rows, st), UnreliablePayload, p);
    forall i | 0 <= i < |keys|
      ensures UnreliablePayload(SummaryOf(rows, st)(keys[i])) == Some(p)
              <==> keys[i] == p && !ReliableAt(rows, st, keys[i])
    {
      UnreliableAt(rows, st, keys[i], p);
    }
  }

  // The verdict

  /** The figures are as good as the settings ask for. */
  predicate GoodFigures(st: Settings, f: Figures) {
    && |f.points| >= st.minimumSizes
    && f.correlation.Some? && !Spearman.Below(f.correlation.value, st.minimumRankCorrelation)
    && f.range.Some? && f.range.value >= st.minimumDynamicRange
  }

  lemma StatusFromParts(st: Settings, d: Defects, f: Figures)
    requires d.idleSignals <= d.idleRows && st.minimumRepetitions >= 1
    ensures StatusFor(HardFalsification(st, d, f), Reasons(st, d, f) != []) == Supported <==>
      && d.observations > 0 && NoDefects(d) && (!st.legacy ==> d.idleSignals >= st.minimumRepetitions)
      && GoodFigures(st, f) && f.reliable != [] && f.unreliable == []
  {
    NoReasonMeans(st, d, f);
  }

  lemma AllPayloadsPass(rows: seq<Observation>, st: Settings)
    ensures var f := FiguresOf(Summaries(rows, st));
      f.reliable != [] && f.unreliable == [] <==> Payloads(rows) != [] && AllReliable(rows, st)
  {
    if FiguresOf(Summaries(rows, st)).reliable != [] { ReliableMeansPayload(rows, st); }
    if FiguresOf(Summaries(rows, st)).unreliable == [] { NoneUnreliableMeansReliable(rows, st); }
    if AllReliable(rows, st) { ReliableMeansNoneUnreliable(rows, st); }
    if Payloads(rows) != [] && AllReliable(rows, st) { SomeReliable(rows, st); }
  }

  lemma SupportedByParts(rows: seq<Observation>, st: Settings)
    requires ValidSettings(st)
    ensures var d, f := DefectsOf(rows, st), FiguresOf(Summaries(rows, st));
      Analyze(rows, st).status == Supported <==>
      && d.observations > 0 && NoDefects(d) && (!st.legacy ==> d.idleSignals >= st.minimumRepetitions)
      && GoodFigures(st, f) && f.reliable != [] && f.unreliable == []
  {
    var d, s := DefectsOf(rows, st), Summaries(rows, st);
    VerdictStatus(st, d, s, CaptureThreshold(st, IdleSignals(rows, st)));
    AllIdleUsable(rows, st);
    StatusFromParts(st, d, FiguresOf(s));
  }

  /** The status is `supported` exactly if there are rows and all are good, idle baselines are repeated
      enough (in modern mode), the figures are good, and there are payloads and all pass the gate. */
  lemma SupportedExactly(rows: seq<Observation>, st: Settings)
    requires ValidSettings(st)
    ensures Analyze(rows, st).status == Supported <==>
      && rows != [] && AllGood(rows, st)
      && (!st.legacy ==> |IdleSignals(rows, st)| >= st.minimumRepetitions)
      && GoodFigures(st, FiguresOf(Summaries(rows, st)))
      && Payloads(rows) != [] && AllReliable(rows, st)
  {
    SupportedByParts(rows, st);
    AllGoodExactly(rows, st);
    AllPayloadsPass(rows, st);
  }

  // The rank correlation

  /** The points, as payloads and medians. */
  ghost predicate ArePoints(points: seq<(real, real)>, payloads: seq<real>, medians: seq<real>) {
    |payloads| == |points| == |medians| && forall i :: 0 <= i < |points| ==> points[i] == (payloads[i], medians[i])
  }

  lemma FigureIsRankCorrelation(summaries: seq<PayloadSummary>, payloads: seq<real>, medians: seq<real>)
    requires ArePoints(FiguresOf(summaries).points, payloads, medians)
    ensures FiguresOf(summaries).correlation == RankCorrelation(payloads, medians)
  {
    var points := FiguresOf(summaries).points;
    assert Lefts(points) == payloads && Rights(points) == medians;
  }

  /** The correlation is that of the ranks of the payloads with the ranks of their medians. */
  lemma ResponseCorrelation(summaries: seq<PayloadSummary>, payloads: seq<real>, medians: seq<real>)
    requires ArePoints(FiguresOf(summaries).points, payloads, medians)
    ensures IsCorrelation(FiguresOf(summaries).correlation, RankList(payloads), RankList(medians))
  {
    FigureIsRankCorrelation(summaries, payloads, medians);
    CorrelateIsCorrelation(RankList(payloads), RankList(medians));
  }

  // The dynamic range

  ghost predicate Extremes(values: seq<real>, low: real, high: real) {
    low in values && high in values && forall i :: 0 <= i < |values| ==> low <= values[i] <= high
  }

  lemma {:induction false} PositiveSignals(points: seq<(real, real)>)
    ensures forall v :: v in FilterMap(points, PositiveSignal) ==> v > 0.0
  {
    if points != [] { PositiveSignals(points[..|points| - 1]); }
  }

  lemma SortedEnds(values: seq<real>)
    requires values != []
    ensures Extremes(values, Sorted(values)[0], Sorted(values)[|values| - 1])
  {
    var s := Sorted(values);
    SortedIsSorted(values);
    assert s[0] in multiset(s) && s[|s| - 1] in multiset(s);
    forall i | 0 <= i < |values|
      ensures s[0] <= values[i] <= s[|s| - 1]
    {
      assert values[i] in multiset(s);
    }
  }

  /** The dynamic range is the greatest over the least of the positive payload medians, if there are two. */
  lemma RangeExactly(points: seq<(real, real)>)
    ensures var positive := FilterMap(points, PositiveSignal);
      && (DynamicRange(points).Some? <==> |positive| >= 2)
      && (forall low, high :: Extremes(positive, low, high) ==> low > 0.0)
      && (forall low, high :: DynamicRange(points).Some? && Extremes(positive, low, high) && low > 0.0 ==>
            DynamicRange(points) == Some(high / low))
  {
    var positive := FilterMap(points, PositiveSignal);
    PositiveSignals(points);
    if |positive| >= 2 {
      SortedEnds(positive);
      assert Sorted(positive)[0] > 0.0;
    }
  }
}
