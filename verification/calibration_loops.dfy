/** The loops of `analyze_calibration`, against the definitions of Calibration. */
module CalibrationLoops {
  import opened Common
  import opened Ordering
  import opened Lists
  import opened Calibration

  function Member(p: real): Observation -> Option<Observation> {
    (o: Observation) => if PayloadKey(o) == Some(p) then Some(o) else None
  }

  function RowSignal(st: Settings): Observation -> Option<real> {
    (o: Observation) => if o.pcieSupported && Usable(o, st) then NonNegative(o.signal) else None
  }

  function RowBadParticipation(st: Settings): Observation -> bool {
    (o: Observation) => o.pcieSupported && !Usable(o, st)
  }

  function RowBadSignal(st: Settings): Observation -> bool {
    (o: Observation) => o.pcieSupported && Usable(o, st) && NonNegative(o.signal).None?
  }

  function InKeys(keys: set<real>, p: Observation -> bool): Observation -> bool {
    (o: Observation) => PayloadKey(o).Some? && PayloadKey(o).value in keys && p(o)
  }

  ghost predicate Grouped(groups: map<real, seq<Observation>>, rows: seq<Observation>) {
    && (forall p :: p in groups <==> p in FilterMap(rows, PayloadKey))
    && (forall p :: p in groups ==> groups[p] == FilterMap(rows, Member(p)))
  }

  lemma NoMembers(rows: seq<Observation>, p: real)
    requires p !in FilterMap(rows, PayloadKey)
    ensures FilterMap(rows, Member(p)) == []
  {
    if o :| o in FilterMap(rows, Member(p)) {
      FilterMapHas(rows, Member(p), o);
      FilterMapHas(rows, PayloadKey, p);
    }
  }

  lemma GroupedStep(groups: map<real, seq<Observation>>, rows: seq<Observation>, o: Observation)
    requires Grouped(groups, rows)
    ensures PayloadKey(o).None? ==> Grouped(groups, rows + [o])
    ensures PayloadKey(o).Some? ==>
      var p := PayloadKey(o).value;
      Grouped(groups[p := (if p in groups then groups[p] else []) + [o]], rows + [o])
  {
    FilterMapSnoc(rows, o, PayloadKey);
    forall p
      ensures FilterMap(rows + [o], Member(p))
              == FilterMap(rows, Member(p)) + if PayloadKey(o) == Some(p) then [o] else []
    {
      FilterMapSnoc(rows, o, Member(p));
    }
    if PayloadKey(o).Some? && PayloadKey(o).value !in groups { NoMembers(rows, PayloadKey(o).value); }
  }

  /** The rows with a payload, by payload. */
  method GroupByPayload(rows: seq<Observation>) returns (groups: map<real, seq<Observation>>, invalid: nat)
    ensures Grouped(groups, rows) && invalid == CountIf(rows, HasBadPayload)
  {
    groups, invalid := map[], 0;
    for i := 0 to |rows|
      invariant Grouped(groups, rows[..i]) && invalid == CountIf(rows[..i], HasBadPayload)
    {
      var o := rows[i];
      assert rows[..i + 1] == rows[..i] + [o];
      CountIfSnoc(rows[..i], o, HasBadPayload);
      GroupedStep(groups, rows[..i], o);
      if o.kind == Collective {
        var payload := NonNegative(o.payload);
        if payload.None? {
          invalid := invalid + 1;
        } else {
          var known := if payload.value in groups then groups[payload.value] else [];
          groups := groups[payload.value := known + [o]];
        }
      }
    }
    assert rows[..|rows|] == rows;
  }

  /** The inner loop over the repetitions of one payload. */
  method ScanGroup(group: seq<Observation>, st: Settings)
    returns (values: seq<real>, badParticipation: nat, badSignal: nat)
    ensures values == FilterMap(group, RowSignal(st))
    ensures badParticipation == CountIf(group, RowBadParticipation(st)) && badSignal == CountIf(group, RowBadSignal(st))
  {
    values, badParticipation, badSignal := [], 0, 0;
    for i := 0 to |group|
      invariant values == FilterMap(group[..i], RowSignal(st))
      invariant badParticipation == CountIf(group[..i], RowBadParticipation(st))
      invariant badSignal == CountIf(group[..i], RowBadSignal(st))
    {
      var o := group[i];
      assert group[..i + 1] == group[..i] + [o];
      FilterMapSnoc(group[..i], o, RowSignal(st));
      CountIfSnoc(group[..i], o, RowBadParticipation(st));
      CountIfSnoc(group[..i], o, RowBadSignal(st));
      if !o.pcieSupported { continue; }
      if !Usable(o, st) {
        badParticipation := badParticipation + 1;
        continue;
      }
      var signal := NonNegative(o.signal);
      if signal.None? {
        badSignal := badSignal + 1;
        continue;
      }
      values := values + [signal.value];
    }
    assert group[..|group|] == group;
  }

  lemma {:induction false} GroupFacts(rows: seq<Observation>, st: Settings, p: real)
    ensures var group := FilterMap(rows, Member(p));
      && FilterMap(group, RowSignal(st)) == Values(rows, st, p)
      && |group| == CountIf(rows, InGroup(p))
  {
    if rows != [] {
      var init, o := rows[..|rows| - 1], rows[|rows| - 1];
      GroupFacts(init, st, p);
      FilterMapSnoc(FilterMap(init, Member(p)), o, RowSignal(st));
    }
  }

  lemma {:induction false} GroupCount(rows: seq<Observation>, keys: set<real>, p: real, q: Observation -> bool)
    requires p !in keys
    ensures CountIf(rows, InKeys(keys + {p}, q)) == CountIf(rows, InKeys(keys, q))
      + CountIf(FilterMap(rows, Member(p)), q)
  {
    if rows != [] {
      var init, o := rows[..|rows| - 1], rows[|rows| - 1];
      GroupCount(init, keys, p, q);
      CountIfSnoc(FilterMap(init, Member(p)), o, q);
    }
  }

  lemma AllKeysCounted(rows: seq<Observation>, keys: set<real>, q: Observation -> bool, whole: Observation -> bool)
    requires forall p :: p in keys <==> p in FilterMap(rows, PayloadKey)
    requires forall o :: whole(o) <==> PayloadKey(o).Some? && q(o)
    ensures CountIf(rows, InKeys(keys, q)) == CountIf(rows, whole)
  {
    forall i | 0 <= i < |rows|
      ensures InKeys(keys, q)(rows[i]) == whole(rows[i])
    {
      if PayloadKey(rows[i]).Some? { FilterMapHas(rows, PayloadKey, PayloadKey(rows[i]).value); }
    }
    CountAgrees(rows, InKeys(keys, q), whole);
  }

  ghost function KeySet(keys: seq<real>): set<real> {
    set p | p in keys
  }

  lemma KeySetSnoc(keys: seq<real>, i: nat)
    requires Rising(keys) && i < |keys|
    ensures keys[..i + 1] == keys[..i] + [keys[i]]
    ensures KeySet(keys[..i + 1]) == KeySet(keys[..i]) + {keys[i]} && keys[i] !in KeySet(keys[..i])
  {
    assert keys[..i + 1] == keys[..i] + [keys[i]];
  }

  /** The first `i` payloads are summarized, and their rows counted. */
  ghost predicate Progress(rows: seq<Observation>, st: Settings, payloads: seq<real>, i: nat,
      summaries: seq<PayloadSummary>, badParticipation: nat, badSignal: nat)
    requires i <= |payloads|
  {
    var done := KeySet(payloads[..i]);
    && summaries == MapSeq(payloads[..i], SummaryOf(rows, st))
    && badParticipation == CountIf(rows, InKeys(done, RowBadParticipation(st)))
    && badSignal == CountIf(rows, InKeys(done, RowBadSignal(st)))
  }

  lemma ProgressStarts(rows: seq<Observation>, st: Settings, payloads: seq<real>)
    ensures Progress(rows, st, payloads, 0, [], 0, 0)
  {
    assert KeySet(payloads[..0]) == {};
    NoKeysCounted(rows, RowBadParticipation(st));
    NoKeysCounted(rows, RowBadSignal(st));
  }

  /** What one group adds. */
  ghost predicate GroupResult(rows: seq<Observation>, st: Settings, p: real, summary: PayloadSummary,
      participation: nat, signal: nat)
  {
    && summary == SummaryOf(rows, st)(p)
    && participation == CountIf(FilterMap(rows, Member(p)), RowBadParticipation(st))
    && signal == CountIf(FilterMap(rows, Member(p)), RowBadSignal(st))
  }

  lemma ProgressGoesOn(rows: seq<Observation>, st: Settings, payloads: seq<real>, i: nat,
      summaries: seq<PayloadSummary>, badParticipation: nat, badSignal: nat,
      summary: PayloadSummary, participation: nat, signal: nat)
    requires Rising(payloads) && i < |payloads|
    requires Progress(rows, st, payloads, i, summaries, badParticipation, badSignal)
    requires GroupResult(rows, st, payloads[i], summary, participation, signal)
    ensures Progress(rows, st, payloads, i + 1, summaries + [summary], badParticipation + participation, badSignal
      + signal)
  {
    var p := payloads[i];
    var done := KeySet(payloads[..i]);
    KeySetSnoc(payloads, i);
    GroupCount(rows, done, p, RowBadParticipation(st));
    GroupCount(rows, done, p, RowBadSignal(st));
    MapSnoc(payloads[..i], p, SummaryOf(rows, st));
  }

  lemma ProgressEnds(rows: seq<Observation>, st: Settings, summaries: seq<PayloadSummary>, badParticipation: nat,
      badSignal: nat)
    requires Progress(rows, st, Payloads(rows), |Payloads(rows)|, summaries, badParticipation, badSignal)
    ensures summaries == Summaries(rows, st)
    ensures badParticipation == CountIf(rows, BadParticipation(st)) && badSignal == CountIf(rows, BadSignal(st))
  {
    var payloads := Payloads(rows);
    assert payloads[..|payloads|] == payloads;
    var done := KeySet(payloads[..|payloads|]);
    AllKeysCounted(rows, done, RowBadParticipation(st), BadParticipation(st));
    AllKeysCounted(rows, done, RowBadSignal(st), BadSignal(st));
  }

  method SummarizeGroup(ghost rows: seq<Observation>, st: Settings, group: seq<Observation>, p: real,
      threshold: Option<real>)
    returns (summary: PayloadSummary, badParticipation: nat, badSignal: nat)
    requires group == FilterMap(rows, Member(p)) && threshold == CaptureThreshold(st, IdleSignals(rows, st))
    ensures GroupResult(rows, st, p, summary, badParticipation, badSignal)
  {
    var values;
    values, badParticipation, badSignal := ScanGroup(group, st);
    GroupFacts(rows, st, p);
    summary := Summarize(st, threshold, p, |group|, values);
  }

  /** Every listed payload has its rows. */
  ghost predicate GroupsOf(groups: map<real, seq<Observation>>, rows: seq<Observation>, payloads: seq<real>) {
    forall i :: 0 <= i < |payloads| ==>
      payloads[i] in groups && groups[payloads[i]] == FilterMap(rows, Member(payloads[i]))
  }

  lemma PayloadsHaveGroups(groups: map<real, seq<Observation>>, rows: seq<Observation>)
    requires Grouped(groups, rows)
    ensures GroupsOf(groups, rows, Payloads(rows)) && Rising(Payloads(rows))
  {
  }

  /** The loop over the payloads in ascending order. */
  method SummarizePayloads(rows: seq<Observation>, st: Settings, groups: map<real, seq<Observation>>,
      threshold: Option<real>)
    returns (summaries: seq<PayloadSummary>, badParticipation: nat, badSignal: nat)
    requires Grouped(groups, rows) && threshold == CaptureThreshold(st, IdleSignals(rows, st))
    ensures summaries == Summaries(rows, st)
    ensures badParticipation == CountIf(rows, BadParticipation(st)) && badSignal == CountIf(rows, BadSignal(st))
  {
    PayloadsHaveGroups(groups, rows);
    summaries, badParticipation, badSignal := SummarizeEach(rows, st, Payloads(rows), groups, threshold);
    ProgressEnds(rows, st, summaries, badParticipation, badSignal);
  }

  /** One turn of that loop. */
  method SummarizeNext(ghost rows: seq<Observation>, st: Settings, ghost payloads: seq<real>, ghost i: nat,
      p: real, group: seq<Observation>, threshold: Option<real>,
      summaries: seq<PayloadSummary>, badParticipation: nat, badSignal: nat)
    returns (summaries': seq<PayloadSummary>, badParticipation': nat, badSignal': nat)
    requires Rising(payloads) && i < |payloads| && payloads[i] == p && group == FilterMap(rows, Member(p))
    requires threshold == CaptureThreshold(st, IdleSignals(rows, st))
    requires Progress(rows, st, payloads, i, summaries, badParticipation, badSignal)
    ensures Progress(rows, st, payloads, i + 1, summaries', badParticipation', badSignal')
  {
    var summary, participation, signal := SummarizeGroup(rows, st, group, p, threshold);
    ProgressGoesOn(rows, st, payloads, i, summaries, badParticipation, badSignal, summary, participation, signal);
    return summaries + [summary], badParticipation + participation, badSignal + signal;
  }

  method SummarizeEach(ghost rows: seq<Observation>, st: Settings, payloads: seq<real>,
      groups: map<real, seq<Observation>>, threshold: Option<real>)
    returns (summaries: seq<PayloadSummary>, badParticipation: nat, badSignal: nat)
    requires Rising(payloads) && GroupsOf(groups, rows, payloads)
    requires threshold == CaptureThreshold(st, IdleSignals(rows, st))
    ensures Progress(rows, st, payloads, |payloads|, summaries, badParticipation, badSignal)
  {
    summaries, badParticipation, badSignal := [], 0, 0;
    ProgressStarts(rows, st, payloads);
    for i := 0 to |payloads|
      invariant Progress(rows, st, payloads, i, summaries, badParticipation, badSignal)
    {
      summaries, badParticipation, badSignal := SummarizeNext(
        rows, st, payloads, i, payloads[i], groups[payloads[i]], threshold, summaries, badParticipation, badSignal);
    }
  }

  lemma {:induction false} NoKeysCounted(rows: seq<Observation>, q: Observation -> bool)
    ensures CountIf(rows, InKeys({}, q)) == 0
  {
    if rows != [] { NoKeysCounted(rows[..|rows| - 1], q); }
  }

  /** `analyze_calibration`. */
  method AnalyzeCalibration(rows: seq<Observation>, st: Settings) returns (result: Option<Analysis>)
    ensures result == if ValidSettings(st) then Some(Analyze(rows, st)) else None
  {
    if !ValidSettings(st) { return None; }
    var idle: seq<real> := [];
    var idleRows, invalidTypes, unsupported, short, intervals, failures := 0, 0, 0, 0, 0, 0;
    for i := 0 to |rows|
      invariant idle == FilterMap(rows[..i], IdleSignal(st))
      invariant idleRows == CountIf(rows[..i], IsIdle) && invalidTypes == CountIf(rows[..i], HasOtherKind)
      invariant unsupported == CountIf(rows[..i], IsUnsupported)
      invariant failures == CountIf(rows[..i], WorkerFailed)
      invariant short == CountIf(rows[..i], TooShort(st)) && intervals == CountIf(rows[..i], BadInterval(st))
    {
      var o := rows[i];
      assert rows[..i + 1][..i] == rows[..i];
      if o.kind == IdleBaseline { idleRows := idleRows + 1; }
      if o.kind == OtherKind { invalidTypes := invalidTypes + 1; }
      if !o.pcieSupported { unsupported := unsupported + 1; }
      if WorkerFailed(o) { failures := failures + 1; }
      if TooShort(st)(o) { short := short + 1; }
      if BadInterval(st)(o) { intervals := intervals + 1; }
      var signal := IdleSignal(st)(o);
      if signal.Some? { idle := idle + [signal.value]; }
    }
    assert rows[..|rows|] == rows;
    var threshold := CaptureThreshold(st, idle);
    var groups, invalidPayloads := GroupByPayload(rows);
    var summaries, badParticipation, badSignal := SummarizePayloads(rows, st, groups, threshold);
    var defects := Defects(|rows|, idleRows, |idle|, invalidTypes, invalidPayloads, unsupported,
                           badParticipation, badSignal, short, intervals, failures);
    return Some(Verdict(st, defects, summaries, threshold));
  }
}
