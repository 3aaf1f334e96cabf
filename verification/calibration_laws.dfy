/** What the calibration verdict depends on and what it promises. */
module CalibrationLaws {
  import opened Common
  import opened Ordering
  import opened Lists
  import opened Spearman
  import opened Calibration
  import Ranks

  // ----- the order of the observations does not matter

  lemma MedianOfPermuted(s: seq<real>, t: seq<real>)
    requires s != [] && multiset(s) == multiset(t)
    ensures t != [] && Median(s) == Median(t)
  {
    SameLength(s, t);
    SortedPermuted(s, t);
  }

  lemma MedianPermuted(s: seq<real>, t: seq<real>)
    requires s != [] && multiset(s) == multiset(t)
    ensures t != [] && Median(s) == Median(t) && MedianAbsoluteDeviation(s) == MedianAbsoluteDeviation(t)
  {
    MedianOfPermuted(s, t);
    var d := Deviation(Median(s));
    MapPermuted(s, t, d);
    MedianOfPermuted(MapSeq(s, d), MapSeq(t, d));
  }

  lemma ThresholdPermuted(st: Settings, s: seq<real>, t: seq<real>)
    requires multiset(s) == multiset(t)
    ensures CaptureThreshold(st, s) == CaptureThreshold(st, t)
  {
    SameLength(s, t);
    if s != [] { MedianPermuted(s, t); }
  }

  lemma CapturePermuted(st: Settings, threshold: Option<real>, s: seq<real>, t: seq<real>)
    requires multiset(s) == multiset(t)
    ensures |s| == |t| && CaptureSuccesses(st, threshold, s) == CaptureSuccesses(st, threshold, t)
  {
    SameLength(s, t);
    if threshold.Some? { CountPermuted(s, t, Above(threshold.value)); }
  }

  lemma ReliablePermuted(st: Settings, threshold: Option<real>, s: seq<real>, t: seq<real>)
    requires multiset(s) == multiset(t)
    ensures CaptureRate(st, threshold, s) == CaptureRate(st, threshold, t)
      && Reliable(st, threshold, s) == Reliable(st, threshold, t)
  {
    CapturePermuted(st, threshold, s, t);
  }

  lemma MeanPermuted(s: seq<real>, t: seq<real>)
    requires s != [] && multiset(s) == multiset(t)
    ensures t != [] && Mean(s) == Mean(t)
  {
    SameLength(s, t);
    SumPermuted(s, t, Identity);
  }

  lemma VariationPermuted(s: seq<real>, t: seq<real>)
    requires s != [] && multiset(s) == multiset(t)
    ensures t != [] && VariationSquared(s) == VariationSquared(t)
  {
    SameLength(s, t);
    MeanPermuted(s, t);
    SumPermuted(s, t, SquaredDeviation(Mean(s)));
  }

  lemma SummarizePermuted(st: Settings, threshold: Option<real>, p: real, n: nat, s: seq<real>, t: seq<real>)
    requires multiset(s) == multiset(t)
    ensures Summarize(st, threshold, p, n, s) == Summarize(st, threshold, p, n, t)
  {
    CapturePermuted(st, threshold, s, t);
    ReliablePermuted(st, threshold, s, t);
    if s != [] {
      MedianPermuted(s, t);
      MeanPermuted(s, t);
      VariationPermuted(s, t);
    }
  }

  lemma SummaryPermuted(rows: seq<Observation>, rows': seq<Observation>, st: Settings, p: real)
    requires multiset(rows) == multiset(rows')
    ensures SummaryFor(rows, st, p) == SummaryFor(rows', st, p)
  {
    FilterMapPermuted(rows, rows', IdleSignal(st));
    ThresholdPermuted(st, IdleSignals(rows, st), IdleSignals(rows', st));
    FilterMapPermuted(rows, rows', PayloadSignal(st, p));
    CountPermuted(rows, rows', InGroup(p));
    SummarizePermuted(st, CaptureThreshold(st, IdleSignals(rows, st)), p, CountIf(rows, InGroup(p)),
                      Values(rows, st, p), Values(rows', st, p));
  }

  lemma DefectsPermuted(rows: seq<Observation>, rows': seq<Observation>, st: Settings)
    requires multiset(rows) == multiset(rows')
    ensures DefectsOf(rows, st) == DefectsOf(rows', st)
  {
    SameLength(rows, rows');
    FilterMapPermuted(rows, rows', IdleSignal(st));
    SameLength(IdleSignals(rows, st), IdleSignals(rows', st));
    CountPermuted(rows, rows', IsIdle);
    CountPermuted(rows, rows', HasOtherKind);
    CountPermuted(rows, rows', HasBadPayload);
    CountPermuted(rows, rows', IsUnsupported);
    CountPermuted(rows, rows', BadParticipation(st));
    CountPermuted(rows, rows', BadSignal(st));
    CountPermuted(rows, rows', TooShort(st));
    CountPermuted(rows, rows', BadInterval(st));
    CountPermuted(rows, rows', WorkerFailed);
  }

  lemma SummariesPermuted(rows: seq<Observation>, rows': seq<Observation>, st: Settings)
    requires multiset(rows) == multiset(rows')
    ensures Summaries(rows, st) == Summaries(rows', st)
  {
    FilterMapPermuted(rows, rows', PayloadKey);
    KeysPermuted(FilterMap(rows, PayloadKey), FilterMap(rows', PayloadKey));
    forall i | 0 <= i < |Payloads(rows)|
      ensures SummaryFor(rows, st, Payloads(rows)[i]) == SummaryFor(rows', st, Payloads(rows)[i])
    {
      SummaryPermuted(rows, rows', st, Payloads(rows)[i]);
    }
  }

  /** Status, reasons, summaries, figures and gates depend on the multiset of observations only. */
  lemma OrderOfObservationsIsIrrelevant(rows: seq<Observation>, rows': seq<Observation>, st: Settings)
    requires multiset(rows) == multiset(rows')
    ensures Analyze(rows, st) == Analyze(rows', st)
  {
    DefectsPermuted(rows, rows', st);
    SummariesPermuted(rows, rows', st);
    FilterMapPermuted(rows, rows', IdleSignal(st));
    ThresholdPermuted(st, IdleSignals(rows, st), IdleSignals(rows', st));
  }

  // ----- a stricter gate supports less

  /** `st'` asks for at least as much above the baseline, and at least as often. */
  ghost predicate Stricter(st: Settings, st': Settings) {
    && st' == st.(minimumCaptureRate := st'.minimumCaptureRate, baselineMultiplier := st'.baselineMultiplier,
      baselineFloor := st'.baselineFloor)
    && st.minimumCaptureRate <= st'.minimumCaptureRate
    && st.baselineMultiplier <= st'.baselineMultiplier
    && st.baselineFloor <= st'.baselineFloor
  }

  lemma ScaleMonotone(a: real, b: real, c: real)
    requires a <= b && c >= 0.0
    ensures Scale(a, c) <= Scale(b, c)
  {
  }

  lemma {:induction false} SignalsNonNegative(rows: seq<Observation>, st: Settings)
    ensures AllNonNegative(IdleSignals(rows, st))
  {
    if rows != [] { SignalsNonNegative(rows[..|rows| - 1], st); }
  }

  lemma MaxMonotone(a: real, b: real, c: real, d: real)
    requires a <= b && c <= d
    ensures Max(a, c) <= Max(b, d)
  {
  }

  lemma ThresholdRises(rows: seq<Observation>, st: Settings, st': Settings)
    requires Stricter(st, st')
    ensures IdleSignals(rows, st) == IdleSignals(rows, st')
    ensures var t, t' := CaptureThreshold(st, IdleSignals(rows, st)), CaptureThreshold(st', IdleSignals(rows, st));
      (t.Some? <==> t'.Some?) && (t.Some? ==> t.value <= t'.value)
  {
    SameIdle(rows, st, st');
    var idle := IdleSignals(rows, st);
    if idle != [] {
      SignalsNonNegative(rows, st);
      MedianNonNegative(idle);
      var d := MapSeq(idle, Deviation(Median(idle)));
      assert AllNonNegative(d);
      MedianNonNegative(d);
      ThresholdOverRises(st, st', Median(idle), MedianAbsoluteDeviation(idle));
    }
  }

  lemma ThresholdOverRises(st: Settings, st': Settings, median: real, mad: real)
    requires Stricter(st, st') && median >= 0.0 && mad >= 0.0
    ensures ThresholdOver(st, median, mad) <= ThresholdOver(st', median, mad)
  {
    var k, k' := st.baselineMultiplier, st'.baselineMultiplier;
    ScaleMonotone(k, k', mad);
    ScaleMonotone(Max(0.0, k - 1.0), Max(0.0, k' - 1.0), median);
    MaxMonotone(Delta(st, median, mad), Delta(st', median, mad), st.baselineFloor, st'.baselineFloor);
  }

  lemma {:induction false} SameIdle(rows: seq<Observation>, st: Settings, st': Settings)
    requires Stricter(st, st')
    ensures IdleSignals(rows, st) == IdleSignals(rows, st')
  {
    if rows != [] { SameIdle(rows[..|rows| - 1], st, st'); }
  }

  lemma {:induction false} SameValues(rows: seq<Observation>, st: Settings, st': Settings, p: real)
    requires Stricter(st, st')
    ensures Values(rows, st, p) == Values(rows, st', p)
  {
    if rows != [] { SameValues(rows[..|rows| - 1], st, st', p); }
  }

  lemma {:induction false} FewerAbove(values: seq<real>, t: real, t': real)
    requires t <= t'
    ensures CountIf(values, Above(t')) <= CountIf(values, Above(t))
  {
    if values != [] { FewerAbove(values[..|values| - 1], t, t'); }
  }

  lemma QuotientMonotone(a: nat, b: nat, n: nat)
    requires a <= b && n > 0
    ensures a as real / n as real <= b as real / n as real
  {
  }

  lemma ReliableStaysWhenRelaxed(st: Settings, st': Settings, t: Option<real>, t': Option<real>, values: seq<real>)
    requires Stricter(st, st')
    requires (t.Some? <==> t'.Some?) && (t.Some? ==> t.value <= t'.value)
    requires Reliable(st', t', values)
    ensures Reliable(st, t, values)
  {
    if !st.legacy && values != [] {
      FewerAbove(values, t.value, t'.value);
      QuotientMonotone(CaptureSuccesses(st', t', values), CaptureSuccesses(st, t, values), |values|);
    }
  }

  lemma {:induction false} FilterMapOfMap<A, B, C>(s: seq<A>, f: A -> B, g: B -> Option<C>, c: C)
    ensures c in FilterMap(MapSeq(s, f), g) <==> exists i :: 0 <= i < |s| && g(f(s[i])) == Some(c)
  {
    FilterMapHas(MapSeq(s, f), g, c);
    var m := MapSeq(s, f);
    forall i | 0 <= i < |s| ensures g(m[i]) == g(f(s[i])) {}
  }

  predicate ReliableAt(rows: seq<Observation>, st: Settings, p: real) {
    Reliable(st, CaptureThreshold(st, IdleSignals(rows, st)), Values(rows, st, p))
  }

  /** The supported payloads: those groups whose values pass the gate. */
  lemma SupportedPayloadsAre(rows: seq<Observation>, st: Settings, p: real)
    ensures p in FiguresOf(Summaries(rows, st)).reliable <==> p in Payloads(rows) && ReliableAt(rows, st, p)
  {
    FilterMapOfMap(Payloads(rows), SummaryOf(rows, st), ReliablePayload, p);
    ReliableSummary(rows, st);
  }

  lemma ReliableSummary(rows: seq<Observation>, st: Settings)
    ensures forall q :: ReliablePayload(SummaryOf(rows, st)(q)) == if ReliableAt(rows, st, q) then Some(q) else None
    ensures forall q :: UnreliablePayload(SummaryOf(rows, st)(q)) == if ReliableAt(rows, st, q) then None else Some(q)
  {
  }

  /** Raising the multiplier, the floor or the minimum capture rate never adds a supported payload. */
  lemma StricterGateSupportsLess(rows: seq<Observation>, st: Settings, st': Settings, p: real)
    requires Stricter(st, st') && p in FiguresOf(Summaries(rows, st')).reliable
    ensures p in FiguresOf(Summaries(rows, st)).reliable
  {
    SupportedPayloadsAre(rows, st, p);
    SupportedPayloadsAre(rows, st', p);
    ThresholdRises(rows, st, st');
    SameValues(rows, st, st', p);
    ReliableStaysWhenRelaxed(st, st', CaptureThreshold(st, IdleSignals(rows, st)),
                             CaptureThreshold(st', IdleSignals(rows, st)), Values(rows, st, p));
  }

  // A stricter gate never improves the verdict

  datatype ReasonKind =
    | Empty | Types | IdleMissing | IdleFew | PayloadSizes | Unmeasured | IdleUnusable | IdleInvalid | Participation
    | Signals | Durations | Intervals | Sizes | Monotonicity | Range | NothingReliable | SomeUnreliable

  /** What a reason complains about, without its figures. */
  function KindOf(r: Reason): ReasonKind {
    match r
    case NoObservations => Empty
    case InvalidTypes(_) => Types
    case NoIdleBaseline => IdleMissing
    case FewIdleSignals(_) => IdleFew
    case InvalidPayloads(_) => PayloadSizes
    case Unsupported(_) => Unmeasured
    case NoIdleSignal => IdleUnusable
    case InvalidIdle(_) => IdleInvalid
    case InvalidParticipation(_) => Participation
    case InvalidSignals(_) => Signals
    case ShortDurations(_) => Durations
    case InvalidIntervals(_) => Intervals
    case FewSizes(_) => Sizes
    case LowRankCorrelation(_) => Monotonicity
    case LowDynamicRange(_) => Range
    case NoReliablePayload => NothingReliable
    case UnreliablePayloads(_) => SomeUnreliable
  }

  /** Every complaint of `a` is also made in `b`. */
  ghost predicate RepeatedIn(a: seq<Reason>, b: seq<Reason>) {
    forall r :: r in a ==> exists r' :: r' in b && KindOf(r') == KindOf(r)
  }

  lemma RepeatedInSum(a: seq<Reason>, b: seq<Reason>, a': seq<Reason>, b': seq<Reason>)
    requires RepeatedIn(a, a') && RepeatedIn(b, b')
    ensures RepeatedIn(a + b, a' + b')
  {
    forall r | r in a + b
      ensures exists r' :: r' in a' + b' && KindOf(r') == KindOf(r)
    {
      if r in a {
        var r' :| r' in a' && KindOf(r') == KindOf(r);
        assert r' in a' + b';
      } else {
        var r' :| r' in b' && KindOf(r') == KindOf(r);
        assert r' in a' + b';
      }
    }
  }

  lemma WhenRepeated(c: bool, r: Reason, c': bool, r': Reason)
    requires (c ==> c') && KindOf(r') == KindOf(r)
    ensures RepeatedIn(When(c, r), When(c', r'))
  {
    if c { assert When(c', r')[0] == r'; }
  }

  lemma {:induction false} FilterMapAgrees<S, T>(s: seq<S>, t: seq<S>, g: S -> Option<T>)
    requires |s| == |t| && forall i :: 0 <= i < |s| ==> g(s[i]) == g(t[i])
    ensures FilterMap(s, g) == FilterMap(t, g)
  {
    if s != [] { FilterMapAgrees(s[..|s| - 1], t[..|t| - 1], g); }
  }

  lemma SamePoint(rows: seq<Observation>, st: Settings, st': Settings, p: real)
    requires Stricter(st, st')
    ensures MedianPoint(SummaryFor(rows, st, p)) == MedianPoint(SummaryFor(rows, st', p))
  {
    SameValues(rows, st, st', p);
  }

  lemma SamePoints(rows: seq<Observation>, st: Settings, st': Settings)
    requires Stricter(st, st')
    ensures FilterMap(Summaries(rows, st), MedianPoint) == FilterMap(Summaries(rows, st'), MedianPoint)
  {
    var s, s' := Summaries(rows, st), Summaries(rows, st');
    forall i | 0 <= i < |s|
      ensures MedianPoint(s[i]) == MedianPoint(s'[i])
    {
      SamePoint(rows, st, st', Payloads(rows)[i]);
    }
    FilterMapAgrees(s, s', MedianPoint);
  }

  lemma SameDefects(rows: seq<Observation>, st: Settings, st': Settings)
    requires Stricter(st, st')
    ensures DefectsOf(rows, st) == DefectsOf(rows, st')
  {
    SameIdle(rows, st, st');
    CountAgrees(rows, BadParticipation(st), BadParticipation(st'));
    CountAgrees(rows, BadSignal(st), BadSignal(st'));
    CountAgrees(rows, TooShort(st), TooShort(st'));
    CountAgrees(rows, BadInterval(st), BadInterval(st'));
  }

  lemma UnreliableStays(rows: seq<Observation>, st: Settings, st': Settings, p: real)
    requires Stricter(st, st') && p in FiguresOf(Summaries(rows, st)).unreliable
    ensures p in FiguresOf(Summaries(rows, st')).unreliable
  {
    FilterMapOfMap(Payloads(rows), SummaryOf(rows, st), UnreliablePayload, p);
    FilterMapOfMap(Payloads(rows), SummaryOf(rows, st'), UnreliablePayload, p);
    ReliableSummary(rows, st);
    ReliableSummary(rows, st');
    if ReliableAt(rows, st', p) {
      SupportedPayloadsAre(rows, st', p);
      StricterGateSupportsLess(rows, st, st', p);
      SupportedPayloadsAre(rows, st, p);
    }
  }

  /** Figures under a stricter gate: the same response, and no more support. */
  ghost predicate NoBetter(f: Figures, f': Figures) {
    && f'.points == f.points && f'.correlation == f.correlation && f'.range == f.range
    && (f.reliable == [] ==> f'.reliable == [])
    && (f.unreliable != [] ==> f'.unreliable != [])
  }

  lemma StricterFigures(rows: seq<Observation>, st: Settings, st': Settings)
    requires Stricter(st, st')
    ensures NoBetter(FiguresOf(Summaries(rows, st)), FiguresOf(Summaries(rows, st')))
  {
    SamePoints(rows, st, st');
    var f, f' := FiguresOf(Summaries(rows, st)), FiguresOf(Summaries(rows, st'));
    if f'.reliable != [] { StricterGateSupportsLess(rows, st, st', f'.reliable[0]); }
    if f.unreliable != [] { UnreliableStays(rows, st, st', f.unreliable[0]); }
  }

  lemma StricterReasons(st: Settings, st': Settings, d: Defects, f: Figures, f': Figures)
    requires Stricter(st, st') && NoBetter(f, f')
    ensures RepeatedIn(Reasons(st, d, f), Reasons(st', d, f'))
    ensures HardFalsification(st, d, f) ==> HardFalsification(st', d, f')
  {
    var general, none := GeneralReasons(st, d, f), When(f.reliable == [], NoReliablePayload);
    var none' := When(f'.reliable == [], NoReliablePayload);
    SameGeneralReasons(st, st', d, f, f');
    WhenRepeated(f.reliable == [], NoReliablePayload, f'.reliable == [], NoReliablePayload);
    WhenRepeated(f.unreliable != [], UnreliablePayloads(f.unreliable), f'.unreliable != [],
      UnreliablePayloads(f'.unreliable));
    assert RepeatedIn(general, general);
    RepeatedInSum(general, none, general, none');
    RepeatedInSum(general + none, When(f.unreliable != [], UnreliablePayloads(f.unreliable)),
                  general + none', When(f'.unreliable != [], UnreliablePayloads(f'.unreliable)));
  }

  lemma SameGeneralReasons(st: Settings, st': Settings, d: Defects, f: Figures, f': Figures)
    requires Stricter(st, st') && NoBetter(f, f')
    ensures GeneralReasons(st', d, f') == GeneralReasons(st, d, f)
  {
  }

  function Standing(s: Status): nat {
    match s
    case NotSupported => 0
    case PartiallySupported => 1
    case Supported => 2
  }

  lemma VerdictStatus(st: Settings, d: Defects, s: seq<PayloadSummary>, t: Option<real>)
    ensures Verdict(st, d, s, t).status == StatusFor(HardFalsification(st, d, FiguresOf(s)),
      Reasons(st, d, FiguresOf(s)) != [])
    ensures Verdict(st, d, s, t).reasons == Reasons(st, d, FiguresOf(s))
  {
  }

  lemma StandingFollows(hard: bool, hard': bool, reasons: seq<Reason>, reasons': seq<Reason>)
    requires RepeatedIn(reasons, reasons') && (hard ==> hard')
    ensures Standing(StatusFor(hard', reasons' != [])) <= Standing(StatusFor(hard, reasons != []))
  {
    if reasons != [] { assert reasons[0] in reasons; }
  }

  /** Raising the multiplier, the floor or the minimum capture rate never improves the status and never
      removes a kind of falsification reason. */
  lemma StricterGateNeverImproves(rows: seq<Observation>, st: Settings, st': Settings)
    requires Stricter(st, st')
    ensures Standing(Analyze(rows, st').status) <= Standing(Analyze(rows, st).status)
    ensures RepeatedIn(Analyze(rows, st).reasons, Analyze(rows, st').reasons)
  {
    var s, s' := Summaries(rows, st), Summaries(rows, st');
    SameDefects(rows, st, st');
    StricterFigures(rows, st, st');
    StricterReasons(st, st', DefectsOf(rows, st), FiguresOf(s), FiguresOf(s'));
    var d, f, f' := DefectsOf(rows, st), FiguresOf(s), FiguresOf(s');
    VerdictStatus(st, d, s, CaptureThreshold(st, IdleSignals(rows, st)));
    VerdictStatus(st', d, s', CaptureThreshold(st', IdleSignals(rows, st')));
    StandingFollows(HardFalsification(st, d, f), HardFalsification(st', d, f'), Reasons(st, d, f), Reasons(st', d, f'));
  }

  // ----- the verdict

  /** `supported` means that no falsification reason was recorded, and conversely. */
  lemma SupportedIffNoReason(rows: seq<Observation>, st: Settings)
    ensures Analyze(rows, st).status == Supported <==> Analyze(rows, st).reasons == []
  {
    NoReasonMeans(st, DefectsOf(rows, st), FiguresOf(Summaries(rows, st)));
  }

  lemma NoReasonMeans(st: Settings, d: Defects, f: Figures)
    ensures Reasons(st, d, f) == [] <==>
      && !HardFalsification(st, d, f) && (st.legacy || d.idleRows > 0) && d.idleRows == d.idleSignals
      && d.invalidPayloads == 0 && d.invalidParticipation == 0 && d.invalidSignals == 0
      && d.shortDurations == 0 && d.invalidIntervals == 0 && f.unreliable == []
  {
  }

  /** A row that supports the verdict: measured, from valid participation, with a signal, and either
      an idle baseline or a payload. */
  ghost predicate Sound(o: Observation, st: Settings) {
    && o.pcieSupported && Usable(o, st) && NonNegative(o.signal).Some?
    && (o.kind == IdleBaseline || PayloadKey(o).Some?)
  }

  predicate HasIdleSignal(o: Observation, st: Settings) {
    IdleSignal(st)(o).Some?
  }

  lemma {:induction false} AllIdleUsable(rows: seq<Observation>, st: Settings)
    ensures |IdleSignals(rows, st)| <= CountIf(rows, IsIdle)
    ensures |IdleSignals(rows, st)| == CountIf(rows, IsIdle) ==>
      forall i :: 0 <= i < |rows| && rows[i].kind == IdleBaseline ==> HasIdleSignal(rows[i], st)
  {
    if rows != [] {
      var init := rows[..|rows| - 1];
      AllIdleUsable(init, st);
      assert forall i :: 0 <= i < |init| ==> init[i] == rows[i];
    }
  }

  /** Behind `supported` every observation is sound and every payload group is captured reliably. */
  lemma SupportedMeansEveryObservationIsSound(rows: seq<Observation>, st: Settings)
    requires ValidSettings(st) && Analyze(rows, st).status == Supported
    ensures rows != [] && forall i :: 0 <= i < |rows| ==> Sound(rows[i], st)
    ensures forall p :: p in Payloads(rows) ==>
      ReliableAt(rows, st, p)
    ensures !st.legacy ==> |IdleSignals(rows, st)| >= st.minimumRepetitions
  {
    SupportedIffNoReason(rows, st);
    NoReasonMeans(st, DefectsOf(rows, st), FiguresOf(Summaries(rows, st)));
    AllIdleUsable(rows, st);
    NoneCounted(rows, HasOtherKind);
    NoneCounted(rows, HasBadPayload);
    NoneCounted(rows, IsUnsupported);
    NoneCounted(rows, BadParticipation(st));
    NoneCounted(rows, BadSignal(st));
    forall i | 0 <= i < |rows|
      ensures Sound(rows[i], st)
    {
      SoundRow(rows[i], st);
    }
    forall p | p in Payloads(rows)
      ensures ReliableAt(rows, st, p)
    {
      NoUnreliable(rows, st, p);
    }
  }

  lemma SoundRow(o: Observation, st: Settings)
    requires !HasOtherKind(o) && !HasBadPayload(o) && !IsUnsupported(o) && !BadParticipation(st)(o) && !BadSignal(st)(o)
    requires o.kind == IdleBaseline ==> HasIdleSignal(o, st)
    ensures Sound(o, st)
  {
  }

  lemma NoUnreliable(rows: seq<Observation>, st: Settings, p: real)
    requires p in Payloads(rows) && FiguresOf(Summaries(rows, st)).unreliable == []
    ensures ReliableAt(rows, st, p)
  {
    FilterMapOfMap(Payloads(rows), SummaryOf(rows, st), UnreliablePayload, p);
    ReliableSummary(rows, st);
  }

  lemma GateOfVerdict(st: Settings, d: Defects, s: seq<PayloadSummary>, t: Option<real>)
    requires st.minimumRepetitions >= 1 && (t.Some? <==> d.idleSignals > 0)
    ensures var a := Verdict(st, d, s, t);
      && (!st.legacy ==> (a.status == Supported <==> a.modernCaptureGatePassed))
      && (a.decisionState == DecisionPassed <==> a.modernCaptureGatePassed)
      && (!st.legacy && a.status == Supported ==> a.captureGateApplied && a.idleBaselineComplete)
      && (st.legacy ==> !a.modernCaptureGatePassed && !a.captureGateApplied)
  {
    VerdictStatus(st, d, s, t);
    if !st.legacy && d.idleSignals < st.minimumRepetitions { assert HardFalsification(st, d, FiguresOf(s)); }
  }

  /** In modern mode `supported` and `modern_capture_gate_passed` are the same statement, and it
      carries the two flags the artifact schema demands of supported evidence; legacy evidence never
      passes the modern gate. */
  lemma ModernGate(rows: seq<Observation>, st: Settings)
    requires ValidSettings(st)
    ensures var a := Analyze(rows, st);
      && (!st.legacy ==> (a.status == Supported <==> a.modernCaptureGatePassed))
      && (a.decisionState == DecisionPassed <==> a.modernCaptureGatePassed)
      && (!st.legacy && a.status == Supported ==> a.captureGateApplied && a.idleBaselineComplete)
      && (st.legacy ==> !a.modernCaptureGatePassed && !a.captureGateApplied)
  {
    GateOfVerdict(st, DefectsOf(rows, st), Summaries(rows, st), CaptureThreshold(st, IdleSignals(rows, st)));
  }

  /** Enough payloads, a correlation in [-1, 1] not below the minimum, a dynamic range not below the
      minimum, and a payload to support. */
  ghost predicate FiguresMeet(st: Settings, f: Figures) {
    && |f.points| >= st.minimumSizes
    && f.correlation.Some? && !Below(f.correlation.value, st.minimumRankCorrelation)
    && f.correlation.value.radicand > 0.0
    && f.correlation.value.numerator * f.correlation.value.numerator <= f.correlation.value.radicand
    && f.range.Some? && f.range.value >= st.minimumDynamicRange
    && f.reliable != []
  }

  /** `supported` bounds the figures. */
  lemma SupportedFigures(rows: seq<Observation>, st: Settings)
    requires Analyze(rows, st).status == Supported
    ensures FiguresMeet(st, FiguresOf(Summaries(rows, st)))
  {
    SupportedNotFalsified(rows, st);
    FiguresAreSound(st, DefectsOf(rows, st), Summaries(rows, st));
  }

  lemma SupportedNotFalsified(rows: seq<Observation>, st: Settings)
    requires Analyze(rows, st).status == Supported
    ensures !HardFalsification(st, DefectsOf(rows, st), FiguresOf(Summaries(rows, st)))
  {
  }

  lemma FiguresAreSound(st: Settings, d: Defects, summaries: seq<PayloadSummary>)
    requires !HardFalsification(st, d, FiguresOf(summaries))
    ensures FiguresMeet(st, FiguresOf(summaries))
  {
    CorrelationOfPoints(FilterMap(summaries, MedianPoint));
  }

  lemma CorrelationOfPoints(points: seq<(real, real)>)
    ensures var c := RankCorrelation(Lefts(points), Rights(points));
      c.Some? ==> c.value.radicand > 0.0 && c.value.numerator * c.value.numerator <= c.value.radicand
  {
    if RankCorrelation(Lefts(points), Rights(points)).Some? {
      CorrelationBounded(Ranks.RankList(Lefts(points)), Ranks.RankList(Rights(points)));
    }
  }
}
