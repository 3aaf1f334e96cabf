/** Which reasons an analysis gives, what their counts count, and which status and states follow. */
module CalibrationReasons {
  import opened Common
  import opened Ordering
  import opened Lists
  import opened Calibration
  import opened CalibrationLaws
  import opened CalibrationVerdict

  // What the defects count

  /** How many rows have the property. */
  function Tally(rows: seq<Observation>, p: Observation -> bool): nat {
    |set i | 0 <= i < |rows| && p(rows[i])|
  }

  lemma {:induction false} TallyIsCount(rows: seq<Observation>, p: Observation -> bool)
    ensures Tally(rows, p) == CountIf(rows, p)
  {
    if rows != [] {
      var n := |rows| - 1;
      TallyIsCount(rows[..n], p);
      assert (set i | 0 <= i < |rows| && p(rows[i]))
          == (set i | 0 <= i < n && p(rows[..n][i])) + if p(rows[n]) then {n} else {};
    }
  }

  lemma TallySame(rows: seq<Observation>, p: Observation -> bool, q: Observation -> bool)
    requires forall o :: p(o) <==> q(o)
    ensures Tally(rows, p) == CountIf(rows, q)
  {
    TallyIsCount(rows, q);
    assert (set i | 0 <= i < |rows| && p(rows[i])) == set i | 0 <= i < |rows| && q(rows[i]);
  }

  lemma {:induction false} SelectedIsCount(rows: seq<Observation>, g: Observation -> Option<real>,
      p: Observation -> bool)
    requires forall o :: g(o).Some? <==> p(o)
    ensures |FilterMap(rows, g)| == CountIf(rows, p)
  {
    if rows != [] { SelectedIsCount(rows[..|rows| - 1], g, p); }
  }

  predicate IsNonNegative(x: Option<real>) {
    x.Some? && x.value >= 0.0
  }

  function OfOtherKind(): Observation -> bool {
    (o: Observation) => o.kind == OtherKind
  }

  function OfIdleKind(): Observation -> bool {
    (o: Observation) => o.kind == IdleBaseline
  }

  function IdleReading(st: Settings): Observation -> bool {
    (o: Observation) => o.kind == IdleBaseline && o.pcieSupported && UsableRow(o, st) && IsNonNegative(o.signal)
  }

  function WithoutPayload(): Observation -> bool {
    (o: Observation) => o.kind == Collective && !IsNonNegative(o.payload)
  }

  function Unmeasured(): Observation -> bool {
    (o: Observation) => !o.pcieSupported
  }

  function NotUsable(st: Settings): Observation -> bool {
    (o: Observation) => o.kind == Collective && IsNonNegative(o.payload) && o.pcieSupported && !UsableRow(o, st)
  }

  function WithoutSignal(st: Settings): Observation -> bool {
    (o: Observation) => o.kind == Collective && IsNonNegative(o.payload) && o.pcieSupported && UsableRow(o, st)
         && !IsNonNegative(o.signal)
  }

  function Short(st: Settings): Observation -> bool {
    (o: Observation) => st.minimumDuration.Some? && !(o.duration.Some? && o.duration.value >= st.minimumDuration.value)
  }

  function OffInterval(st: Settings): Observation -> bool {
    (o: Observation) => st.maximumIntervalError.Some? && !KeptInterval(o.diagnostics, st.maximumIntervalError.value)
  }

  function Broken(): Observation -> bool {
    (o: Observation) => o.exit == FailedExit || o.exit == TimeoutExit || o.participation == Some(false)
  }

  lemma KindsCounted(rows: seq<Observation>, st: Settings)
    ensures var d := DefectsOf(rows, st);
      && d.observations == |rows|
      && d.idleRows == Tally(rows, OfIdleKind()) && d.invalidTypes == Tally(rows, OfOtherKind())
      && d.invalidPayloads == Tally(rows, WithoutPayload()) && d.unsupported == Tally(rows, Unmeasured())
      && d.workerFailures == Tally(rows, Broken())
  {
    TallySame(rows, OfIdleKind(), IsIdle);
    TallySame(rows, OfOtherKind(), HasOtherKind);
    TallySame(rows, WithoutPayload(), HasBadPayload);
    TallySame(rows, Unmeasured(), IsUnsupported);
    TallySame(rows, Broken(), WorkerFailed);
  }

  lemma UsableRows(st: Settings)
    requires ValidSettings(st)
    ensures forall o :: Usable(o, st) <==> UsableRow(o, st)
  {
    forall o
      ensures Usable(o, st) <==> UsableRow(o, st)
    {
      UsableExactly(o, st);
    }
  }

  lemma IntervalsKept(st: Settings)
    requires ValidSettings(st)
    ensures forall o :: BadInterval(st)(o) <==> OffInterval(st)(o)
  {
    forall o
      ensures BadInterval(st)(o) <==> OffInterval(st)(o)
    {
      if st.maximumIntervalError.Some? { IntervalExactly(o.diagnostics, st.maximumIntervalError.value); }
    }
  }

  lemma ReadingsCounted(rows: seq<Observation>, st: Settings)
    requires ValidSettings(st)
    ensures var d := DefectsOf(rows, st);
      && d.idleSignals == Tally(rows, IdleReading(st))
      && d.invalidParticipation == Tally(rows, NotUsable(st)) && d.invalidSignals == Tally(rows, WithoutSignal(st))
      && d.shortDurations == Tally(rows, Short(st)) && d.invalidIntervals == Tally(rows, OffInterval(st))
  {
    UsableRows(st);
    IntervalsKept(st);
    SelectedIsCount(rows, IdleSignal(st), IdleReading(st));
    TallySame(rows, IdleReading(st), IdleReading(st));
    TallySame(rows, NotUsable(st), BadParticipation(st));
    TallySame(rows, WithoutSignal(st), BadSignal(st));
    TallySame(rows, Short(st), TooShort(st));
    TallySame(rows, OffInterval(st), BadInterval(st));
  }

  // The reasons

  /** The counts and figures call for the reason. */
  predicate Justified(st: Settings, d: Defects, f: Figures, r: Reason) {
    match r
    case NoObservations => d.observations == 0
    case InvalidTypes(n) => n == d.invalidTypes && n > 0
    case NoIdleBaseline => !st.legacy && d.idleRows == 0
    case FewIdleSignals(n) => !st.legacy && n == d.idleSignals && n < st.minimumRepetitions
    case InvalidPayloads(n) => n == d.invalidPayloads && n > 0
    case Unsupported(n) => n == d.unsupported && n > 0
    case NoIdleSignal => d.idleRows > 0 && d.idleSignals == 0
    case InvalidIdle(n) => n == d.idleRows - d.idleSignals && n != 0 && !(d.idleRows > 0 && d.idleSignals == 0)
    case InvalidParticipation(n) => n == d.invalidParticipation && n > 0
    case InvalidSignals(n) => n == d.invalidSignals && n > 0
    case ShortDurations(n) => n == d.shortDurations && n > 0
    case InvalidIntervals(n) => n == d.invalidIntervals && n > 0
    case FewSizes(n) => n == |f.points| && n < st.minimumSizes
    case LowRankCorrelation(c) => c == f.correlation && LowCorrelation(c, st.minimumRankCorrelation)
    case LowDynamicRange(x) => x == f.range && LowRange(x, st.minimumDynamicRange)
    case NoReliablePayload => f.reliable == []
    case UnreliablePayloads(payloads) => payloads == f.unreliable && payloads != []
  }

  /** An analysis gives exactly the reasons that its counts and figures call for. */
  lemma ReasonsExactly(rows: seq<Observation>, st: Settings, r: Reason)
    ensures r in Analyze(rows, st).reasons <==> Justified(st, DefectsOf(rows, st), FiguresOf(Summaries(rows, st)), r)
  {
    GivenExactly(st, DefectsOf(rows, st), FiguresOf(Summaries(rows, st)), r);
  }

  lemma WhenHas(condition: bool, reason: Reason, r: Reason)
    ensures r in When(condition, reason) <==> condition && r == reason
  {
  }

  lemma SumHas(a: seq<Reason>, b: seq<Reason>, r: Reason)
    ensures r in a + b <==> r in a || r in b
  {
  }

  lemma Has3(a: seq<Reason>, b: seq<Reason>, c: seq<Reason>, r: Reason)
    ensures r in a + b + c <==> r in a || r in b || r in c
  {
    SumHas(a, b, r);
    SumHas(a + b, c, r);
  }

  lemma Has4(a: seq<Reason>, b: seq<Reason>, c: seq<Reason>, d: seq<Reason>, r: Reason)
    ensures r in a + b + c + d <==> r in a || r in b || r in c || r in d
  {
    Has3(a, b, c, r);
    SumHas(a + b + c, d, r);
  }

  predicate IsDataReason(r: Reason) {
    r.NoObservations? || r.InvalidTypes? || r.NoIdleBaseline? || r.FewIdleSignals?
  }

  lemma DataExactly(st: Settings, d: Defects, f: Figures, r: Reason)
    ensures r in DataReasons(st, d) <==> IsDataReason(r) && Justified(st, d, f, r)
  {
    Has4(When(d.observations == 0, NoObservations), When(d.invalidTypes > 0, InvalidTypes(d.invalidTypes)),
      When(!st.legacy && d.idleRows == 0, NoIdleBaseline),
      When(!st.legacy && d.idleSignals < st.minimumRepetitions, FewIdleSignals(d.idleSignals)), r);
    WhenHas(d.observations == 0, NoObservations, r);
    WhenHas(d.invalidTypes > 0, InvalidTypes(d.invalidTypes), r);
    WhenHas(!st.legacy && d.idleRows == 0, NoIdleBaseline, r);
    WhenHas(!st.legacy && d.idleSignals < st.minimumRepetitions, FewIdleSignals(d.idleSignals), r);
  }

  predicate IsSignalReason(r: Reason) {
    r.InvalidPayloads? || r.Unsupported? || r.NoIdleSignal? || r.InvalidIdle?
  }

  lemma SignalsExactly(st: Settings, d: Defects, f: Figures, r: Reason)
    ensures r in SignalReasons(d) <==> IsSignalReason(r) && Justified(st, d, f, r)
  {
    var none := d.idleRows > 0 && d.idleSignals == 0;
    Has4(When(d.invalidPayloads > 0, InvalidPayloads(d.invalidPayloads)),
      When(d.unsupported > 0, Unsupported(d.unsupported)), When(none, NoIdleSignal),
      When(!none && d.idleRows != d.idleSignals, InvalidIdle(d.idleRows - d.idleSignals)), r);
    WhenHas(d.invalidPayloads > 0, InvalidPayloads(d.invalidPayloads), r);
    WhenHas(d.unsupported > 0, Unsupported(d.unsupported), r);
    WhenHas(none, NoIdleSignal, r);
    WhenHas(!none && d.idleRows != d.idleSignals, InvalidIdle(d.idleRows - d.idleSignals), r);
  }

  predicate IsUsageReason(r: Reason) {
    r.InvalidParticipation? || r.InvalidSignals? || r.ShortDurations? || r.InvalidIntervals?
  }

  lemma UsageExactly(st: Settings, d: Defects, f: Figures, r: Reason)
    ensures r in UsageReasons(d) <==> IsUsageReason(r) && Justified(st, d, f, r)
  {
    Has4(When(d.invalidParticipation > 0, InvalidParticipation(d.invalidParticipation)),
      When(d.invalidSignals > 0, InvalidSignals(d.invalidSignals)),
      When(d.shortDurations > 0, ShortDurations(d.shortDurations)),
      When(d.invalidIntervals > 0, InvalidIntervals(d.invalidIntervals)), r);
    WhenHas(d.invalidParticipation > 0, InvalidParticipation(d.invalidParticipation), r);
    WhenHas(d.invalidSignals > 0, InvalidSignals(d.invalidSignals), r);
    WhenHas(d.shortDurations > 0, ShortDurations(d.shortDurations), r);
    WhenHas(d.invalidIntervals > 0, InvalidIntervals(d.invalidIntervals), r);
  }

  predicate IsResponseReason(r: Reason) {
    r.FewSizes? || r.LowRankCorrelation? || r.LowDynamicRange?
  }

  lemma ResponseExactly(st: Settings, d: Defects, f: Figures, r: Reason)
    ensures r in ResponseReasons(st, f) <==> IsResponseReason(r) && Justified(st, d, f, r)
  {
    var low, narrow := LowCorrelation(f.correlation, st.minimumRankCorrelation),
      LowRange(f.range, st.minimumDynamicRange);
    Has3(When(|f.points| < st.minimumSizes, FewSizes(|f.points|)), When(low, LowRankCorrelation(f.correlation)),
      When(narrow, LowDynamicRange(f.range)), r);
    WhenHas(|f.points| < st.minimumSizes, FewSizes(|f.points|), r);
    WhenHas(low, LowRankCorrelation(f.correlation), r);
    WhenHas(narrow, LowDynamicRange(f.range), r);
  }

  predicate IsGeneral(r: Reason) {
    IsDataReason(r) || IsSignalReason(r) || IsUsageReason(r) || IsResponseReason(r)
  }

  lemma GeneralExactly(st: Settings, d: Defects, f: Figures, r: Reason)
    ensures r in GeneralReasons(st, d, f) <==> IsGeneral(r) && Justified(st, d, f, r)
  {
    Has4(DataReasons(st, d), SignalReasons(d), UsageReasons(d), ResponseReasons(st, f), r);
    DataExactly(st, d, f, r);
    SignalsExactly(st, d, f, r);
    UsageExactly(st, d, f, r);
    ResponseExactly(st, d, f, r);
  }

  lemma GivenExactly(st: Settings, d: Defects, f: Figures, r: Reason)
    ensures r in Reasons(st, d, f) <==> Justified(st, d, f, r)
  {
    Has3(GeneralReasons(st, d, f), When(f.reliable == [], NoReliablePayload),
      When(f.unreliable != [], UnreliablePayloads(f.unreliable)), r);
    GeneralExactly(st, d, f, r);
    WhenHas(f.reliable == [], NoReliablePayload, r);
    WhenHas(f.unreliable != [], UnreliablePayloads(f.unreliable), r);
  }

  // Status and states

  ghost predicate SomeRow(rows: seq<Observation>, p: Observation -> bool) {
    exists i :: 0 <= i < |rows| && p(rows[i])
  }

  lemma TallyPositive(rows: seq<Observation>, p: Observation -> bool)
    ensures Tally(rows, p) > 0 <==> SomeRow(rows, p)
  {
    TallyIsCount(rows, p);
    NoneCounted(rows, p);
  }

  /** The defects that rule out any support. */
  predicate Ruinous(st: Settings, d: Defects) {
    || d.observations == 0 || d.invalidTypes > 0 || d.unsupported > 0
    || (d.idleRows > 0 && d.idleSignals == 0)
    || (!st.legacy && d.idleSignals < st.minimumRepetitions)
  }

  lemma HardMeans(st: Settings, d: Defects, f: Figures)
    ensures HardFalsification(st, d, f) <==> Ruinous(st, d) || !GoodFigures(st, f) || f.reliable == []
  {
  }

  /** There are no rows, one has an unknown kind or no measured signal, or the idle baseline is without a value
      or (in modern mode) without enough of them. */
  ghost predicate RuinousRows(rows: seq<Observation>, st: Settings) {
    || rows == [] || SomeRow(rows, OfOtherKind()) || SomeRow(rows, Unmeasured())
    || (SomeRow(rows, OfIdleKind()) && !SomeRow(rows, IdleReading(st)))
    || (!st.legacy && Tally(rows, IdleReading(st)) < st.minimumRepetitions)
  }

  lemma RuinousExactly(rows: seq<Observation>, st: Settings)
    requires ValidSettings(st)
    ensures Ruinous(st, DefectsOf(rows, st)) <==> RuinousRows(rows, st)
  {
    KindsCounted(rows, st);
    ReadingsCounted(rows, st);
    TallyPositive(rows, OfOtherKind());
    TallyPositive(rows, Unmeasured());
    TallyPositive(rows, OfIdleKind());
    TallyPositive(rows, IdleReading(st));
  }

  lemma NotSupportedIsHard(rows: seq<Observation>, st: Settings)
    ensures Analyze(rows, st).status == NotSupported
            <==> HardFalsification(st, DefectsOf(rows, st), FiguresOf(Summaries(rows, st)))
  {
    VerdictStatus(st, DefectsOf(rows, st), Summaries(rows, st), CaptureThreshold(st, IdleSignals(rows, st)));
  }

  /** The status is `not_supported` exactly if the rows are ruinous, a figure misses its minimum, or no payload
      is reliable. */
  lemma NotSupportedExactly(rows: seq<Observation>, st: Settings)
    requires ValidSettings(st)
    ensures Analyze(rows, st).status == NotSupported <==>
      RuinousRows(rows, st) || !GoodFigures(st, FiguresOf(Summaries(rows, st))) || NoneReliable(rows, st)
  {
    NotSupportedIsHard(rows, st);
    HardMeans(st, DefectsOf(rows, st), FiguresOf(Summaries(rows, st)));
    RuinousExactly(rows, st);
    NoneReliableExactly(rows, st);
  }

  ghost predicate NoneReliable(rows: seq<Observation>, st: Settings) {
    forall p :: p in Payloads(rows) ==> !ReliableAt(rows, st, p)
  }

  lemma NoneReliableExactly(rows: seq<Observation>, st: Settings)
    ensures FiguresOf(Summaries(rows, st)).reliable == [] <==> NoneReliable(rows, st)
  {
    var reliable := FiguresOf(Summaries(rows, st)).reliable;
    if reliable == [] {
      forall p | p in Payloads(rows)
        ensures !ReliableAt(rows, st, p)
      {
        SupportedPayloadsAre(rows, st, p);
      }
    } else {
      SupportedPayloadsAre(rows, st, reliable[0]);
    }
  }

  /** How an unsupported analysis came about: failed, if there was nothing to analyse, an unknown kind or a
      broken worker; unsupported, if otherwise signals were not measured and no payload has a value. */
  lemma ResultStateExactly(rows: seq<Observation>, st: Settings)
    requires ValidSettings(st)
    ensures var a := Analyze(rows, st);
      var broken := rows == [] || SomeRow(rows, OfOtherKind()) || SomeRow(rows, Broken());
      && (a.resultState == ResultSupported <==> a.status == Supported)
      && (a.resultState == ResultPartiallySupported <==> a.status == PartiallySupported)
      && (a.resultState == Failed <==> a.status == NotSupported && broken)
      && (a.resultState == ResultNotSupported <==>
            a.status == NotSupported && !broken && SomeRow(rows, Unmeasured()) && a.figures.points == [])
  {
    KindsCounted(rows, st);
    TallyPositive(rows, OfOtherKind());
    TallyPositive(rows, Broken());
    TallyPositive(rows, Unmeasured());
  }
}
