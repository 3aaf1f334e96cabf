/** The calibration gate (calibration.py, `analyze_calibration`) on exact reals. */
module Calibration {
  import opened Common
  import opened Ordering
  import opened Lists
  import opened Spearman

  // ----- observations and settings

  datatype Kind = IdleBaseline | Collective | OtherKind

  /** The exit status of a row, if it has one. */
  datatype Exit = NoStatus | Completed | FailedExit | TimeoutExit | OtherStatus

  datatype Diagnostics = NoDiagnostics | Diagnostics(requested: Option<real>, mean: Option<real>)

  /** One observation row; numbers are None where the row's value is not a finite number. */
  datatype Observation = Observation(
    kind: Kind, payload: Option<real>, pcieSupported: bool, signal: Option<real>,
    participation: Option<bool>, exit: Exit, duration: Option<real>, diagnostics: Diagnostics)

  datatype Method = MedianPlusMad | MedianMultiplier

  datatype Settings = Settings(
    minimumSizes: int, minimumRankCorrelation: real, minimumDynamicRange: real, minimumRepetitions: int,
    minimumCaptureRate: real, baselineMultiplier: real, baselineFloor: real, thresholdMethod: Method,
    minimumDuration: Option<real>, maximumIntervalError: Option<real>, legacy: bool)

  /** The values the analysis does not reject with a ValueError. */
  predicate ValidSettings(st: Settings) {
    && st.minimumSizes >= 1 && -1.0 <= st.minimumRankCorrelation <= 1.0 && st.minimumDynamicRange > 0.0
    && st.minimumRepetitions >= 1 && 0.0 <= st.minimumCaptureRate <= 1.0
    && st.baselineMultiplier >= 0.0 && st.baselineFloor >= 0.0
    && (st.minimumDuration.Some? ==> st.minimumDuration.value > 0.0)
    && (st.maximumIntervalError.Some? ==> 0.0 <= st.maximumIntervalError.value < 1.0)
  }

  /** `_nonnegative_number`. */
  function NonNegative(x: Option<real>): Option<real> {
    if x.Some? && x.value >= 0.0 then x else None
  }

  predicate IntervalOk(d: Diagnostics, maximumError: real) {
    match d
    case NoDiagnostics => false
    case Diagnostics(requested, mean) =>
      var target, actual := NonNegative(requested), NonNegative(mean);
      target.Some? && target.value != 0.0 && actual.Some?
      && (if actual.value < target.value then target.value - actual.value
        else actual.value - target.value) / target.value <= maximumError
  }

  predicate DurationOk(o: Observation, st: Settings) {
    st.minimumDuration.Some? ==>
      NonNegative(o.duration).Some? && NonNegative(o.duration).value >= st.minimumDuration.value
  }

  /** `scientifically_usable`. */
  predicate Usable(o: Observation, st: Settings) {
    && o.participation == Some(true) && o.exit in {NoStatus, Completed} && DurationOk(o, st)
    && (st.maximumIntervalError.Some? ==> IntervalOk(o.diagnostics, st.maximumIntervalError.value))
  }

  // ----- what the loops select

  function IdleSignal(st: Settings): Observation -> Option<real> {
    (o: Observation) =>
      if o.kind == IdleBaseline && o.pcieSupported && Usable(o, st) then NonNegative(o.signal) else None
  }

  function PayloadKey(o: Observation): Option<real> {
    if o.kind == Collective then NonNegative(o.payload) else None
  }

  function PayloadSignal(st: Settings, p: real): Observation -> Option<real> {
    (o: Observation) =>
      if PayloadKey(o) == Some(p) && o.pcieSupported && Usable(o, st) then NonNegative(o.signal) else None
  }

  predicate IsIdle(o: Observation) { o.kind == IdleBaseline }
  predicate HasOtherKind(o: Observation) { o.kind == OtherKind }
  predicate HasBadPayload(o: Observation) { o.kind == Collective && NonNegative(o.payload).None? }
  predicate IsUnsupported(o: Observation) { !o.pcieSupported }
  predicate WorkerFailed(o: Observation) { o.exit in {FailedExit, TimeoutExit} || o.participation == Some(false) }

  function InGroup(p: real): Observation -> bool {
    (o: Observation) => PayloadKey(o) == Some(p)
  }

  function BadParticipation(st: Settings): Observation -> bool {
    (o: Observation) => PayloadKey(o).Some? && o.pcieSupported && !Usable(o, st)
  }

  function BadSignal(st: Settings): Observation -> bool {
    (o: Observation) => PayloadKey(o).Some? && o.pcieSupported && Usable(o, st) && NonNegative(o.signal).None?
  }

  function TooShort(st: Settings): Observation -> bool {
    (o: Observation) => st.minimumDuration.Some?
      && (if NonNegative(o.duration).Some? then NonNegative(o.duration).value else 0.0) < st.minimumDuration.value
  }

  function BadInterval(st: Settings): Observation -> bool {
    (o: Observation) => st.maximumIntervalError.Some? && !IntervalOk(o.diagnostics, st.maximumIntervalError.value)
  }

  // ----- medians and the capture threshold

  function Deviation(m: real): real -> real {
    v => if v < m then m - v else v - m
  }

  /** The median distance from `m`. */
  function MedianDistance(values: seq<real>, m: real): real
    requires values != []
  {
    Median(MapSeq(values, Deviation(m)))
  }

  function MedianAbsoluteDeviation(values: seq<real>): real
    requires values != []
  {
    MedianDistance(values, Median(values))
  }

  function Max(x: real, y: real): real {
    if x < y then y else x
  }

  function Scale(factor: real, x: real): real {
    factor * x
  }

  /** How far above the idle median a signal has to be, before the floor is applied. */
  function Delta(st: Settings, median: real, mad: real): real {
    match st.thresholdMethod
    case MedianPlusMad => Scale(st.baselineMultiplier, mad)
    case MedianMultiplier => Scale(Max(0.0, st.baselineMultiplier - 1.0), median)
  }

  /** The margin or the floor, whichever is more. */
  function MarginOver(st: Settings, median: real, mad: real): real {
    Max(Delta(st, median, mad), st.baselineFloor)
  }

  function ThresholdOver(st: Settings, median: real, mad: real): real {
    median + MarginOver(st, median, mad)
  }

  function CaptureThreshold(st: Settings, idle: seq<real>): Option<real> {
    if idle == [] then None else Some(ThresholdOver(st, Median(idle), MedianAbsoluteDeviation(idle)))
  }

  // ----- one payload group

  datatype PayloadSummary = PayloadSummary(
    payload: real, repetitions: nat, usableRepetitions: nat, median: Option<real>, mean: Option<real>,
    mad: Option<real>, variationSquared: Option<real>, captureSuccesses: nat, captureRate: real, reliablyObserved: bool)

  function Above(t: real): real -> bool {
    v => v > t
  }

  function CaptureSuccesses(st: Settings, threshold: Option<real>, values: seq<real>): (n: int)
    ensures n <= |values|
  {
    match threshold
    case None => if st.legacy then |values| else 0
    case Some(t) => CountIf(values, Above(t))
  }

  function CaptureRate(st: Settings, threshold: Option<real>, values: seq<real>): real {
    if values == [] then 0.0 else CaptureSuccesses(st, threshold, values) as real / |values| as real
  }

  predicate Reliable(st: Settings, threshold: Option<real>, values: seq<real>) {
    |values| >= st.minimumRepetitions
    && (st.legacy || (threshold.Some? && CaptureRate(st, threshold, values) >= st.minimumCaptureRate))
  }

  function SquaredDeviation(m: real): real -> real {
    v => (v - m) * (v - m)
  }

  function Variance(values: seq<real>): real
    requires values != []
  {
    SumBy(values, SquaredDeviation(Mean(values))) / |values| as real
  }

  /** The square of the coefficient of variation. */
  function VariationSquared(values: seq<real>): real
    requires values != []
  {
    if |values| == 1 || Mean(values) == 0.0 then 0.0 else Variance(values) / Mean(values) / Mean(values)
  }

  function Summarize(st: Settings, threshold: Option<real>, payload: real, repetitions: nat,
      values: seq<real>): PayloadSummary {
    PayloadSummary(
      payload, repetitions, |values|,
      if values == [] then None else Some(Median(values)),
      if values == [] then None else Some(Mean(values)),
      if values == [] then None else Some(MedianAbsoluteDeviation(values)),
      if values == [] then None else Some(VariationSquared(values)),
      CaptureSuccesses(st, threshold, values), CaptureRate(st, threshold, values), Reliable(st, threshold, values))
  }

  function IdleSignals(rows: seq<Observation>, st: Settings): seq<real> {
    FilterMap(rows, IdleSignal(st))
  }

  function Values(rows: seq<Observation>, st: Settings, p: real): seq<real> {
    FilterMap(rows, PayloadSignal(st, p))
  }

  function Payloads(rows: seq<Observation>): seq<real> {
    SortedKeys(FilterMap(rows, PayloadKey))
  }

  function SummaryFor(rows: seq<Observation>, st: Settings, p: real): PayloadSummary {
    Summarize(st, CaptureThreshold(st, IdleSignals(rows, st)), p, CountIf(rows, InGroup(p)), Values(rows, st, p))
  }

  function SummaryOf(rows: seq<Observation>, st: Settings): real -> PayloadSummary {
    p => SummaryFor(rows, st, p)
  }

  function Summaries(rows: seq<Observation>, st: Settings): seq<PayloadSummary> {
    MapSeq(Payloads(rows), SummaryOf(rows, st))
  }

  // ----- the verdict over the summaries

  function ReliablePayload(s: PayloadSummary): Option<real> {
    if s.reliablyObserved then Some(s.payload) else None
  }

  function UnreliablePayload(s: PayloadSummary): Option<real> {
    if s.reliablyObserved then None else Some(s.payload)
  }

  function MedianPoint(s: PayloadSummary): Option<(real, real)> {
    if s.median.Some? then Some((s.payload, s.median.value)) else None
  }

  function PositiveSignal(p: (real, real)): Option<real> {
    if p.1 > 0.0 then Some(p.1) else None
  }

  function DynamicRange(points: seq<(real, real)>): Option<real> {
    var positive := Sorted(FilterMap(points, PositiveSignal));
    if |positive| < 2 || positive[0] == 0.0 then None else Some(positive[|positive| - 1] / positive[0])
  }

  datatype Defects = Defects(
    observations: nat, idleRows: nat, idleSignals: nat, invalidTypes: nat, invalidPayloads: nat, unsupported: nat,
    invalidParticipation: nat, invalidSignals: nat, shortDurations: nat, invalidIntervals: nat,
    workerFailures: nat)

  function DefectsOf(rows: seq<Observation>, st: Settings): Defects {
    Defects(|rows|, CountIf(rows, IsIdle), |IdleSignals(rows, st)|, CountIf(rows, HasOtherKind),
            CountIf(rows, HasBadPayload), CountIf(rows, IsUnsupported), CountIf(rows, BadParticipation(st)),
            CountIf(rows, BadSignal(st)),
            CountIf(rows, TooShort(st)), CountIf(rows, BadInterval(st)),
            CountIf(rows, WorkerFailed))
  }

  datatype Reason =
    | NoObservations | InvalidTypes(n: int) | NoIdleBaseline | FewIdleSignals(n: int) | InvalidPayloads(n: int)
    | Unsupported(n: int) | NoIdleSignal | InvalidIdle(n: int) | InvalidParticipation(n: int) | InvalidSignals(n: int)
    | ShortDurations(n: int) | InvalidIntervals(n: int) | FewSizes(n: int) | LowRankCorrelation(c: Option<Correlation>)
    | LowDynamicRange(r: Option<real>) | NoReliablePayload | UnreliablePayloads(payloads: seq<real>)

  function When(condition: bool, reason: Reason): seq<Reason> {
    if condition then [reason] else []
  }

  datatype Status = Supported | PartiallySupported | NotSupported

  /** The figures derived from the payload summaries. */
  datatype Figures = Figures(points: seq<(real, real)>, correlation: Option<Correlation>, range: Option<real>,
                             reliable: seq<real>, unreliable: seq<real>)

  function FiguresOf(summaries: seq<PayloadSummary>): Figures {
    var points := FilterMap(summaries, MedianPoint);
    Figures(points, if |points| >= 2 then RankCorrelation(Lefts(points), Rights(points)) else None,
            DynamicRange(points), FilterMap(summaries, ReliablePayload), FilterMap(summaries, UnreliablePayload))
  }

  predicate LowCorrelation(c: Option<Correlation>, m: real) {
    c.None? || Below(c.value, m)
  }

  predicate LowRange(r: Option<real>, m: real) {
    r.None? || r.value < m
  }

  function DataReasons(st: Settings, d: Defects): seq<Reason> {
    When(d.observations == 0, NoObservations)
    + When(d.invalidTypes > 0, InvalidTypes(d.invalidTypes))
    + When(!st.legacy && d.idleRows == 0, NoIdleBaseline)
    + When(!st.legacy && d.idleSignals < st.minimumRepetitions, FewIdleSignals(d.idleSignals))
  }

  function SignalReasons(d: Defects): seq<Reason> {
    When(d.invalidPayloads > 0, InvalidPayloads(d.invalidPayloads))
    + When(d.unsupported > 0, Unsupported(d.unsupported))
    + When(d.idleRows > 0 && d.idleSignals == 0, NoIdleSignal)
    + When(!(d.idleRows > 0 && d.idleSignals == 0) && d.idleRows != d.idleSignals,
           InvalidIdle(d.idleRows - d.idleSignals))
  }

  function UsageReasons(d: Defects): seq<Reason> {
    When(d.invalidParticipation > 0, InvalidParticipation(d.invalidParticipation))
    + When(d.invalidSignals > 0, InvalidSignals(d.invalidSignals))
    + When(d.shortDurations > 0, ShortDurations(d.shortDurations))
    + When(d.invalidIntervals > 0, InvalidIntervals(d.invalidIntervals))
  }

  function ResponseReasons(st: Settings, f: Figures): seq<Reason> {
    When(|f.points| < st.minimumSizes, FewSizes(|f.points|))
    + When(LowCorrelation(f.correlation, st.minimumRankCorrelation), LowRankCorrelation(f.correlation))
    + When(LowRange(f.range, st.minimumDynamicRange), LowDynamicRange(f.range))
  }

  /** The reasons that have nothing to do with which payloads pass the capture gate. */
  function GeneralReasons(st: Settings, d: Defects, f: Figures): seq<Reason> {
    DataReasons(st, d) + SignalReasons(d) + UsageReasons(d) + ResponseReasons(st, f)
  }

  /** `falsification_reasons`, in the order they are appended. */
  function Reasons(st: Settings, d: Defects, f: Figures): seq<Reason> {
    GeneralReasons(st, d, f)
    + When(f.reliable == [], NoReliablePayload)
    + When(f.unreliable != [], UnreliablePayloads(f.unreliable))
  }

  predicate HardFalsification(st: Settings, d: Defects, f: Figures) {
    || d.observations == 0 || d.invalidTypes > 0 || d.unsupported > 0
    || (d.idleRows > 0 && d.idleSignals == 0)
    || (!st.legacy && d.idleSignals < st.minimumRepetitions)
    || |f.points| < st.minimumSizes
    || LowCorrelation(f.correlation, st.minimumRankCorrelation)
    || LowRange(f.range, st.minimumDynamicRange)
    || f.reliable == []
  }

  function StatusFor(hard: bool, anyReason: bool): Status {
    if hard then NotSupported else if anyReason then PartiallySupported else Supported
  }

  datatype ResultState = ResultSupported | ResultPartiallySupported | ResultNotSupported | Failed | Inconclusive

  /** `result_state`: how an analysis that supports nothing came about. */
  function ResultStateFor(status: Status, d: Defects, f: Figures): ResultState {
    match status
    case Supported => ResultSupported
    case PartiallySupported => ResultPartiallySupported
    case NotSupported =>
      if d.observations == 0 || d.invalidTypes > 0 || d.workerFailures > 0 then Failed
      else if d.unsupported > 0 && f.points == [] then ResultNotSupported
      else Inconclusive
  }

  datatype DecisionState = DecisionPassed | DecisionLegacyCompatible | DecisionInconclusive | DecisionFailed

  function DecisionStateFor(status: Status, legacy: bool): DecisionState {
    match status
    case Supported => if legacy then DecisionLegacyCompatible else DecisionPassed
    case PartiallySupported => DecisionInconclusive
    case NotSupported => DecisionFailed
  }

  datatype Analysis = Analysis(
    status: Status, resultState: ResultState, decisionState: DecisionState, reasons: seq<Reason>,
    summaries: seq<PayloadSummary>, figures: Figures, defects: Defects,
    captureThreshold: Option<real>, captureGateApplied: bool, idleBaselineComplete: bool, modernCaptureGatePassed: bool)

  function Verdict(st: Settings, d: Defects, summaries: seq<PayloadSummary>, threshold: Option<real>): Analysis {
    var f := FiguresOf(summaries);
    var reasons := Reasons(st, d, f);
    var status := StatusFor(HardFalsification(st, d, f), reasons != []);
    var gate := threshold.Some? && !st.legacy;
    var complete := d.idleSignals >= st.minimumRepetitions;
    Analysis(status, ResultStateFor(status, d, f), DecisionStateFor(status, st.legacy), reasons, summaries, f, d,
      threshold, gate, complete, !st.legacy && status == Supported && gate && complete)
  }

  /** The result of the analysis, apart from its copy of the observations. */
  function Analyze(rows: seq<Observation>, st: Settings): Analysis {
    Verdict(st, DefectsOf(rows, st), Summaries(rows, st), CaptureThreshold(st, IdleSignals(rows, st)))
  }
}
